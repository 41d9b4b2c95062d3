/** The parse step of the bulk-import page (src/pages/ImportPage.tsx): text
    pasted from a spreadsheet, one `SECTION<TAB>PRODUCT` row per line, is
    turned into a preview of import items or into the message for the
    first bad line. */
module ImportPage {
  import opened Wrappers
  import opened Text
  import opened Decimal
  import opened BatchService

  /** Why a single line is rejected. */
  datatype LineError = NoTab | EmptyField

  /** A rejected line, numbered from 1 among the non-blank lines. */
  datatype ParseError = ParseError(line: nat, kind: LineError)

  /** The page's state that parsing touches. */
  datatype ImportState = ImportState(rawText: string, preview: seq<ImportItem>, error: Option<string>)

  const Tab: char := '\t'

  /** The text shown for a rejected line. */
  function Message(e: ParseError): (m: string)
    ensures var head := "Linha " + NatToString(e.line); |head| < |m| && m[..|head|] == head
  {
    match e.kind
    case NoTab =>
      "Linha " + NatToString(e.line) + " inv\U{E1}lida: \"Use o formato: SESS\U{C3}O | PRODUTO\""
    case EmptyField =>
      "Linha " + NatToString(e.line) + ": Sess\U{E3}o ou Produto vazios."
  }

  predicate Blank(l: string) {
    Trim(l) == []
  }

  /** The lines that are not blank once trimmed, in their input order. */
  function NonBlank(ls: seq<string>): (r: seq<string>)
    ensures |r| <= |ls|
  {
    if ls == [] then []
    else
      var rest := NonBlank(ls[1..]);
      if Blank(ls[0]) then rest else [ls[0]] + rest
  }

  /** The kept lines are exactly the lines that are not blank. */
  lemma {:induction false} NonBlankMembers(ls: seq<string>)
    ensures forall l :: l in NonBlank(ls) <==> l in ls && !Blank(l)
  {
    if ls != [] {
      NonBlankMembers(ls[1..]);
      assert forall l :: l in ls <==> l == ls[0] || l in ls[1..];
    }
  }

  /** `rawText.split('\n').filter(l => l.trim().length > 0)`. */
  function Lines(raw: string): seq<string> {
    NonBlank(Split(raw, '\n'))
  }

  /** One line: at least two tab-separated columns, the first two non-blank;
      each becomes trimmed and upper-cased, and later columns are ignored. */
  function ParseLine(line: string): Result<ImportItem, LineError> {
    var columns := Split(line, Tab);
    if |columns| < 2 then Err(NoTab)
    else if Blank(columns[0]) || Blank(columns[1]) then Err(EmptyField)
    else Ok(ImportItem(Normalize(columns[0]), Normalize(columns[1])))
  }

  /** The outcomes of lines `i..`, in order: the records if every line
      is valid, otherwise the first rejection with its 1-based number. */
  function Collect(rs: seq<Result<ImportItem, LineError>>, i: nat): (r: Result<seq<ImportItem>, ParseError>)
    requires i <= |rs|
    ensures r.Ok? <==> forall k :: i <= k < |rs| ==> rs[k].Ok?
    ensures r.Ok? ==>
      |r.value| == |rs| - i && forall k :: 0 <= k < |r.value| ==> rs[i + k] == Ok(r.value[k])
    ensures r.Err? ==>
      && i < r.error.line <= |rs|
      && (forall k :: i <= k < r.error.line - 1 ==> rs[k].Ok?)
      && rs[r.error.line - 1] == Err(r.error.kind)
    decreases |rs| - i
  {
    if i == |rs| then Ok([])
    else
      match rs[i]
      case Err(kind) => Err(ParseError(i + 1, kind))
      case Ok(item) =>
        match Collect(rs, i + 1)
        case Err(e) => Err(e)
        case Ok(rest) => Ok([item] + rest)
  }

  /** `lines.map(...)` with the first rejected line ending the parse. */
  function Parse(raw: string): Result<seq<ImportItem>, ParseError> {
    Collect(Outcomes(Lines(raw)), 0)
  }

  /** `handleParse`. */
  function HandleParse(st: ImportState): ImportState {
    if Blank(st.rawText) then st
    else
      match Parse(st.rawText)
      case Ok(items) => st.(preview := items, error := None)
      case Err(e) => st.(preview := [], error := Some(Message(e)))
  }

  // ---------------------------------------------------------------------
  // properties of a single line

  /** A line is the format error exactly when it holds no tab. */
  lemma NoTabLine(line: string)
    ensures ParseLine(line) == Err(NoTab) <==> Tab !in line
  {
    if Tab in line {
      SplitWithSeparator(line, Tab);
    } else {
      SplitWithoutSeparator(line, Tab);
    }
  }

  /** Only the first two columns matter: a blank one of them is an
      empty-field error, otherwise the record holds both normalized. */
  lemma TwoColumns(a: string, b: string, rest: string)
    requires Tab !in a && Tab !in b
    ensures ParseLine(a + [Tab] + b + [Tab] + rest) == ParseLine(a + [Tab] + b)
    ensures ParseLine(a + [Tab] + b) ==
      if Blank(a) || Blank(b) then Err(EmptyField) else Ok(ImportItem(Normalize(a), Normalize(b)))
  {
    TwoColumnsSplit(a, b, rest);
  }

  lemma TwoColumnsSplit(a: string, b: string, rest: string)
    requires Tab !in a && Tab !in b
    ensures Split(a + [Tab] + b, Tab) == [a, b]
    ensures var c := Split(a + [Tab] + b + [Tab] + rest, Tab); |c| >= 2 && c[0] == a && c[1] == b
  {
    SplitWithoutSeparator(b, Tab);
    SplitAfter(a, Tab, b);
    SplitAfter(b, Tab, rest);
    SplitAfter(a, Tab, b + [Tab] + rest);
    assert a + [Tab] + b + [Tab] + rest == a + [Tab] + (b + [Tab] + rest);
  }

  /** Every record holds non-empty names that are already trimmed and upper
      case, so importing them stores them as shown in the preview. */
  lemma ParsedLineNormal(line: string)
    requires ParseLine(line).Ok?
    ensures var item := ParseLine(line).value;
      && item.section != [] && item.product != []
      && Normalize(item.section) == item.section && Normalize(item.product) == item.product
  {
    var columns := Split(line, Tab);
    TrimUpper(Trim(columns[0]));
    TrimUpper(Trim(columns[1]));
    NormalizeIsNormal(columns[0]);
    NormalizeIsNormal(columns[1]);
    NormalizeNormal(Normalize(columns[0]));
    NormalizeNormal(Normalize(columns[1]));
  }

  // ---------------------------------------------------------------------
  // properties of the page

  /** The outcome of each non-blank line, in order. */
  function Outcomes(lines: seq<string>): (rs: seq<Result<ImportItem, LineError>>)
    ensures |rs| == |lines|
  {
    seq(|lines|, k requires 0 <= k < |lines| => ParseLine(lines[k]))
  }

  lemma ParseIsCollect(raw: string)
    ensures Parse(raw) == Collect(Outcomes(Lines(raw)), 0)
    ensures forall k :: 0 <= k < |Lines(raw)| ==> Outcomes(Lines(raw))[k] == ParseLine(Lines(raw)[k])
  {
  }

  lemma ParseOkIff(raw: string)
    ensures Parse(raw).Ok? <==> forall k :: 0 <= k < |Lines(raw)| ==> ParseLine(Lines(raw)[k]).Ok?
  {
    ParseIsCollect(raw);
  }

  lemma ParseOkValues(raw: string)
    requires Parse(raw).Ok?
    ensures |Parse(raw).value| == |Lines(raw)|
    ensures forall k :: 0 <= k < |Lines(raw)| ==> ParseLine(Lines(raw)[k]) == Ok(Parse(raw).value[k])
  {
    ParseIsCollect(raw);
  }

  lemma ParseErrFacts(raw: string)
    requires Parse(raw).Err?
    ensures var e := Parse(raw).error;
      && 0 < e.line <= |Lines(raw)|
      && (forall k :: 0 <= k < e.line - 1 ==> ParseLine(Lines(raw)[k]).Ok?)
      && ParseLine(Lines(raw)[e.line - 1]) == Err(e.kind)
  {
    ParseIsCollect(raw);
  }

  /** `Parse` in terms of the individual lines. */
  lemma LineOutcomes(raw: string)
    ensures var lines := Lines(raw);
      var r := Parse(raw);
      && (r.Ok? <==> forall k :: 0 <= k < |lines| ==> ParseLine(lines[k]).Ok?)
      && (r.Ok? ==>
            |r.value| == |lines| && forall k :: 0 <= k < |r.value| ==> ParseLine(lines[k]) == Ok(r.value[k]))
      && (r.Err? ==>
            && 0 < r.error.line <= |lines|
            && (forall k :: 0 <= k < r.error.line - 1 ==> ParseLine(lines[k]).Ok?)
            && ParseLine(lines[r.error.line - 1]) == Err(r.error.kind))
  {
    ParseOkIff(raw);
    if Parse(raw).Ok? {
      ParseOkValues(raw);
    } else {
      ParseErrFacts(raw);
    }
  }

  /** Text that is blank once trimmed changes nothing. */
  lemma BlankIsNoOp(st: ImportState)
    requires Blank(st.rawText)
    ensures HandleParse(st) == st
  {
  }

  /** A parse succeeds exactly when every non-blank line is valid; it then
      previews one record per non-blank line, in order, and clears the error. */
  lemma ParseSuccess(st: ImportState)
    requires !Blank(st.rawText)
    ensures var st' := HandleParse(st);
      && (st'.error.None? <==> forall k :: 0 <= k < |Lines(st.rawText)| ==> ParseLine(Lines(st.rawText)[k]).Ok?)
      && (st'.error.None? ==>
            && |st'.preview| == |Lines(st.rawText)|
            && forall k :: 0 <= k < |st'.preview| ==> ParseLine(Lines(st.rawText)[k]) == Ok(st'.preview[k]))
      && st'.rawText == st.rawText
  {
    LineOutcomes(st.rawText);
  }

  /** A failed parse empties the preview and reports the first invalid
      non-blank line by its position among the non-blank lines. */
  lemma ParseFailure(st: ImportState)
    requires !Blank(st.rawText) && Parse(st.rawText).Err?
    ensures var st' := HandleParse(st);
      var e := Parse(st.rawText).error;
      var lines := Lines(st.rawText);
      && st'.preview == []
      && st'.error == Some(Message(e))
      && 1 <= e.line <= |lines|
      && (forall k :: 0 <= k < e.line - 1 ==> ParseLine(lines[k]).Ok?)
      && ParseLine(lines[e.line - 1]) == Err(e.kind)
  {
    LineOutcomes(st.rawText);
  }

  /** Lines that are blank once trimmed are dropped before the lines are
      numbered: removing one does not change what is parsed. */
  lemma BlankLineDropped(x: string, b: string, y: string)
    requires '\n' !in b && Blank(b)
    ensures Parse(x + ['\n'] + b + ['\n'] + y) == Parse(x + ['\n'] + y)
  {
    BlankLineLines(x, b, y);
  }

  lemma BlankLineLines(x: string, b: string, y: string)
    requires '\n' !in b && Blank(b)
    ensures Lines(x + ['\n'] + b + ['\n'] + y) == Lines(x + ['\n'] + y)
  {
    var sx, sy := Split(x, '\n'), Split(y, '\n');
    var t := b + ['\n'] + y;
    assert x + ['\n'] + b + ['\n'] + y == x + ['\n'] + t;
    SplitAfter(b, '\n', y);
    SplitAppend(x, '\n', t);
    assert Split(x + ['\n'] + t, '\n') == sx + ([b] + sy);
    NonBlankAppend(sx, [b] + sy);
    NonBlankAppend([b], sy);
    assert NonBlank([b]) == [] by { assert [b][1..] == []; }
    assert NonBlank(sx + ([b] + sy)) == NonBlank(sx) + NonBlank(sy);
    SplitAppend(x, '\n', y);
    NonBlankAppend(sx, sy);
  }

  lemma {:induction false} NonBlankAppend(a: seq<string>, b: seq<string>)
    ensures NonBlank(a + b) == NonBlank(a) + NonBlank(b)
  {
    if a != [] {
      assert (a + b)[0] == a[0] && (a + b)[1..] == a[1..] + b;
      NonBlankAppend(a[1..], b);
    } else {
      assert a + b == b;
    }
  }
}
