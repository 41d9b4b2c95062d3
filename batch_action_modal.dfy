/** The action sheet of src/components/batches/BatchActionModal.tsx: the
    expiry date as it is shown, and the two-step delete confirmation that
    decides which action a button press emits. */
module BatchActionModal {
  import opened Wrappers
  import opened Text
  import opened DatabaseTypes

  // ---------------------------------------------------------------------
  // the date line

  /** `expiration_date.split('-').reverse().join('/')`. */
  function ReformatDate(s: string): string {
    Join(Reverse(Split(s, '-')), '/')
  }

  /** Each dash becomes a slash, so the length is kept. */
  lemma ReformatLength(s: string)
    ensures |ReformatDate(s)| == |s|
  {
    var parts := Split(s, '-');
    JoinSplit(s, '-');
    JoinLength(parts, '-');
    JoinLength(Reverse(parts), '/');
    SumLengthReverse(parts);
  }

  /** The reformatted date holds no dash. */
  lemma ReformatNoDash(s: string)
    ensures '-' !in ReformatDate(s)
  {
    ReverseAvoids(Split(s, '-'), '-');
    JoinAvoids(Reverse(Split(s, '-')), '/', '-');
  }

  lemma ReverseAvoids(parts: seq<string>, c: char)
    requires forall i :: 0 <= i < |parts| ==> c !in parts[i]
    ensures forall i :: 0 <= i < |Reverse(parts)| ==> c !in Reverse(parts)[i]
  {
    forall i | 0 <= i < |Reverse(parts)| ensures c !in Reverse(parts)[i] {
      ReverseAt(parts, i);
    }
  }

  lemma SplitPiecesAvoid(s: string, sep: char, c: char)
    requires c !in s
    ensures forall i :: 0 <= i < |Split(s, sep)| ==> c !in Split(s, sep)[i]
  {
    var parts := Split(s, sep);
    JoinSplit(s, sep);
    forall i | 0 <= i < |parts| ensures c !in parts[i] {
      if c in parts[i] {
        PieceInJoin(parts, sep, i, c);
      }
    }
  }

  /** Text without a dash is shown unchanged. */
  lemma ReformatWithoutDash(s: string)
    requires '-' !in s
    ensures ReformatDate(s) == s
  {
    SplitWithoutSeparator(s, '-');
    assert [s][1..] == [];
  }

  /** For a date without slashes, the slash-separated pieces of what is
      shown are the dash-separated pieces of the date in reverse order. */
  lemma ReformatPieces(s: string)
    requires '/' !in s
    ensures Split(ReformatDate(s), '/') == Reverse(Split(s, '-'))
  {
    SplitPiecesAvoid(s, '-', '/');
    ReverseAvoids(Split(s, '-'), '/');
    SplitJoin(Reverse(Split(s, '-')), '/');
  }

  lemma ReverseThree(y: string, m: string, d: string)
    ensures Reverse([y, m, d]) == [d, m, y]
  {
    assert [y, m, d][1..] == [m, d] && [m, d][1..] == [d] && [d][1..] == [];
    assert Reverse([d]) == [d] by { assert Reverse([d]) == Reverse([d][1..]) + [d]; }
    assert Reverse([m, d]) == [d, m] by { assert Reverse([m, d]) == Reverse([d]) + [m]; }
    assert Reverse([y, m, d]) == Reverse([m, d]) + [y];
  }

  lemma JoinThree(d: string, m: string, y: string, sep: char)
    ensures Join([d, m, y], sep) == d + [sep] + m + [sep] + y
  {
    assert [d, m, y][1..] == [m, y] && [m, y][1..] == [y];
    assert Join([m, y], sep) == m + [sep] + y by { assert Join([m, y][1..], sep) == y; }
  }

  lemma SplitThree(y: string, m: string, d: string)
    requires '-' !in y && '-' !in m && '-' !in d
    ensures Split(y + "-" + m + "-" + d, '-') == [y, m, d]
  {
    assert y + "-" + m + "-" + d == y + ['-'] + (m + ['-'] + d);
    SplitAfter(y, '-', m + ['-'] + d);
    SplitAfter(m, '-', d);
    SplitWithoutSeparator(d, '-');
  }

  /** A `YYYY-MM-DD` date is shown as `DD/MM/YYYY`. */
  lemma ReformatThreeFields(y: string, m: string, d: string)
    requires '-' !in y && '-' !in m && '-' !in d
    ensures ReformatDate(y + "-" + m + "-" + d) == d + "/" + m + "/" + y
  {
    SplitThree(y, m, d);
    ReverseThree(y, m, d);
    JoinThree(d, m, y, '/');
  }

  lemma ReformatExample()
    ensures ReformatDate("2024-03-15") == "15/03/2024"
  {
    ReformatThreeFields("2024", "03", "15");
    assert "2024" + "-" + "03" + "-" + "15" == "2024-03-15";
    assert "15" + "/" + "03" + "/" + "2024" == "15/03/2024";
  }

  // ---------------------------------------------------------------------
  // the buttons

  /** What the sheet hands to `onAction`. */
  datatype Action = MarkConsumed | MarkDiscarded | DeleteProduct

  datatype Event = Act(action: Action) | Closed

  /** "Baixa por Venda", "Baixa por Perda", "Excluir Produto do Sistema",
      the two buttons of the confirmation box, the close button and the
      backdrop. */
  datatype Button = ConsumedButton | DiscardedButton | DeleteButton
                  | CancelButton | ConfirmButton | CloseButton | Backdrop

  /** Which buttons are on screen: the confirmation box replaces the three
      action buttons while `confirmDelete` is set. */
  predicate Shown(confirm: bool, button: Button) {
    match button
    case ConsumedButton => !confirm
    case DiscardedButton => !confirm
    case DeleteButton => !confirm
    case CancelButton => confirm
    case ConfirmButton => confirm
    case CloseButton => true
    case Backdrop => true
  }

  /** The buttons carrying `disabled={loading}`. */
  predicate Disabled(button: Button, loading: bool) {
    match button
    case CancelButton => false
    case CloseButton => false
    case Backdrop => false
    case _ => loading
  }

  /** The flag after a press, and what the press emits. */
  datatype Reaction = Reaction(confirm: bool, event: Option<Event>)

  /** One press: nothing is rendered without a batch, and a button that is
      hidden or disabled does nothing. */
  function React(confirm: bool, button: Button, batch: Option<Batch>, loading: bool): Reaction {
    if batch.None? || !Shown(confirm, button) || Disabled(button, loading) then Reaction(confirm, None)
    else
      match button
      case ConsumedButton => Reaction(confirm, Some(Act(MarkConsumed)))
      case DiscardedButton => Reaction(confirm, Some(Act(MarkDiscarded)))
      case DeleteButton => Reaction(true, None)
      case CancelButton => Reaction(false, None)
      case ConfirmButton => Reaction(confirm, Some(Act(DeleteProduct)))
      case CloseButton => Reaction(confirm, Some(Closed))
      case Backdrop => Reaction(confirm, Some(Closed))
  }

  /** Without a batch the sheet is not rendered and no press has an effect. */
  lemma NothingWithoutBatch(confirm: bool, button: Button, loading: bool)
    ensures React(confirm, button, None, loading) == Reaction(confirm, None)
  {
  }

  /** `delete_product` is emitted exactly by the confirmation button, while
      the confirmation box is up and nothing is loading. */
  lemma DeleteOnlyWhileConfirming(confirm: bool, button: Button, batch: Option<Batch>, loading: bool)
    ensures React(confirm, button, batch, loading).event == Some(Act(DeleteProduct))
      <==> confirm && button == ConfirmButton && batch.Some? && !loading
  {
  }

  /** The status actions are emitted only from the normal view. */
  lemma StatusOnlyWhenNotConfirming(confirm: bool, button: Button, batch: Option<Batch>, loading: bool)
    ensures React(confirm, button, batch, loading).event == Some(Act(MarkConsumed))
      <==> !confirm && button == ConsumedButton && batch.Some? && !loading
    ensures React(confirm, button, batch, loading).event == Some(Act(MarkDiscarded))
      <==> !confirm && button == DiscardedButton && batch.Some? && !loading
  {
  }

  /** While loading no action is emitted; closing still works, and so does
      backing out of the confirmation. */
  lemma WhileLoading(confirm: bool, button: Button, batch: Option<Batch>)
    ensures React(confirm, button, batch, true).event.None? || React(confirm, button, batch, true).event == Some(Closed)
    ensures batch.Some? && confirm ==> React(confirm, CancelButton, batch, true) == Reaction(false, None)
    ensures batch.Some? ==> React(confirm, CloseButton, batch, true) == Reaction(confirm, Some(Closed))
  {
  }

  /** The flag is set only by "Excluir Produto" and cleared only by Cancel. */
  lemma FlagChanges(confirm: bool, button: Button, batch: Option<Batch>, loading: bool)
    ensures React(confirm, button, batch, loading).confirm != confirm <==>
      batch.Some? && ((!confirm && button == DeleteButton && !loading) || (confirm && button == CancelButton))
  {
  }

  // ---------------------------------------------------------------------
  // the flag across batches

  /** As written the flag survives the sheet being closed: the component
      stays mounted and only its `batch` becomes null. Asking to delete one
      batch's product, closing, and opening another batch makes the first
      press of the confirmation button delete the other batch's product. */
  lemma StaleConfirmation(a: Batch, b: Batch, loading: bool)
    ensures var asked := React(false, DeleteButton, Some(a), false);
      var closed := React(asked.confirm, CloseButton, Some(a), loading);
      && closed.event == Some(Closed)
      && React(closed.confirm, ConfirmButton, Some(b), false).event == Some(Act(DeleteProduct))
  {
  }

  /** The flag once the sheet shows another batch (or none): cleared. */
  function ResetOnNewBatch(confirm: bool, previous: Option<Batch>, next: Option<Batch>): (c: bool)
    ensures previous != next ==> !c
    ensures previous == next ==> c == confirm
  {
    if previous != next then false else confirm
  }

  /** With the reset, a newly shown batch opens on the normal view, and its
      product can be deleted only after "Excluir Produto" is pressed for it. */
  lemma FreshBatchAsksFirst(confirm: bool, previous: Option<Batch>, b: Batch, button: Button, loading: bool)
    requires previous != Some(b)
    ensures var c := ResetOnNewBatch(confirm, previous, Some(b));
      && Shown(c, ConsumedButton) && !Shown(c, ConfirmButton)
      && React(c, button, Some(b), loading).event != Some(Act(DeleteProduct))
  {
  }

  /** The sheet's state. */
  class ActionModal {
    var confirmDelete: bool

    constructor ()
      ensures !confirmDelete
    {
      confirmDelete := false;
    }

    /** A press on one of the buttons. */
    method Press(button: Button, batch: Option<Batch>, loading: bool) returns (event: Option<Event>)
      modifies this
      ensures Reaction(confirmDelete, event) == React(old(confirmDelete), button, batch, loading)
    {
      var r := React(confirmDelete, button, batch, loading);
      confirmDelete, event := r.confirm, r.event;
    }

    /** The `batch` prop changes. */
    method BatchChanged(previous: Option<Batch>, next: Option<Batch>)
      modifies this
      ensures confirmDelete == ResetOnNewBatch(old(confirmDelete), previous, next)
    {
      if previous != next {
        confirmDelete := false;
      }
    }
  }
}
