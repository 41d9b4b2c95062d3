/** The data-access layer of src/services/batchService.ts: the derived date
    values, and the remote sections/products/batches tables as an in-memory
    store with the find-or-create registration paths, the active-batch
    query and the status update. */
module BatchService {
  import opened Wrappers
  import opened Text
  import opened Decimal
  import opened DatabaseTypes

  // ---------------------------------------------------------------------
  // Derived date values

  /** Milliseconds in a day: `1000 * 60 * 60 * 24`. */
  const MsPerDay: int := 1000 * 60 * 60 * 24

  /** `getDaysRemaining`: the number of days from `now` to `expiresAt`,
      both in milliseconds since the epoch, rounded up. The result is the
      unique `d` for which the difference lies in `((d - 1) days, d days]`. */
  function DaysRemaining(expiresAt: int, now: int): (d: int)
    ensures (d - 1) * MsPerDay < expiresAt - now <= d * MsPerDay
  {
    var diff := expiresAt - now;
    if diff % MsPerDay == 0 then diff / MsPerDay else diff / MsPerDay + 1
  }

  /** The ceiling is the only integer with that property. */
  lemma DaysRemainingUnique(expiresAt: int, now: int, d: int)
    requires (d - 1) * MsPerDay < expiresAt - now <= d * MsPerDay
    ensures d == DaysRemaining(expiresAt, now)
  {
  }

  lemma DaysRemainingExamples(now: int)
    ensures DaysRemaining(now, now) == 0
    ensures DaysRemaining(now + 1, now) == 1
    ensures DaysRemaining(now - MsPerDay, now) == -1
    ensures DaysRemaining(now + 3 * MsPerDay, now) == 3
    ensures DaysRemaining(now + 3 * MsPerDay + 1, now) == 4
  {
    DaysRemainingUnique(now, now, 0);
    DaysRemainingUnique(now + 1, now, 1);
    DaysRemainingUnique(now - MsPerDay, now, -1);
    DaysRemainingUnique(now + 3 * MsPerDay, now, 3);
    DaysRemainingUnique(now + 3 * MsPerDay + 1, now, 4);
  }

  /** For a fixed `now`, a later expiration never has fewer days remaining. */
  lemma DaysRemainingMonotone(e1: int, e2: int, now: int)
    requires e1 <= e2
    ensures DaysRemaining(e1, now) <= DaysRemaining(e2, now)
  {
  }

  /** The threshold the dashboard and the product cards both apply:
      `getDaysRemaining(date) <= 3`. */
  predicate ExpiresSoon(expiresAt: int, now: int) {
    DaysRemaining(expiresAt, now) <= 3
  }

  /** A batch is critical exactly when it expires within three days, counting
      any part of a day as a whole one. */
  lemma ExpiresSoonWithinThreeDays(expiresAt: int, now: int)
    ensures ExpiresSoon(expiresAt, now) <==> expiresAt - now <= 3 * MsPerDay
  {
    var d := DaysRemaining(expiresAt, now);
    if d > 3 {
      assert 3 * MsPerDay <= (d - 1) * MsPerDay;
    } else {
      assert d * MsPerDay <= 3 * MsPerDay;
    }
  }

  /** The month abbreviations `formatDate` uses, indexed by `getMonth()`. */
  const Months: seq<string> :=
    ["JAN", "FEV", "MAR", "ABR", "MAI", "JUN", "JUL", "AGO", "SET", "OUT", "NOV", "DEZ"]

  /** `formatDate` from the already extracted day of the month and month
      index: two zero-padded digits of the day, a slash, and the month's
      abbreviation. */
  function FormatDate(day: nat, month: nat): (r: string)
    requires 1 <= day <= 31 && month < 12
    ensures |r| == 6 && r[2] == '/' && r[3..] == Months[month]
    ensures AllDigits(r[..2]) && DigitsValue(r[..2]) == day
  {
    assert |Months[month]| == 3;
    var dd := TwoDigits(day);
    var r := dd + "/" + Months[month];
    assert r[..2] == dd;
    r
  }

  /** Different dates are displayed differently. */
  lemma FormatDateInjective(d1: nat, m1: nat, d2: nat, m2: nat)
    requires 1 <= d1 <= 31 && m1 < 12 && 1 <= d2 <= 31 && m2 < 12
    requires FormatDate(d1, m1) == FormatDate(d2, m2)
    ensures d1 == d2 && m1 == m2
  {
    var r := FormatDate(d1, m1);
    assert Months[m1] == r[3..] == Months[m2];
  }

  // ---------------------------------------------------------------------
  // Table lookups, as the `ilike`/`eq` queries of the service select rows

  /** The first section whose name matches `name` case-insensitively. */
  function FindSection(ss: seq<Section>, name: string): (r: Option<nat>)
    ensures r.Some? ==> r.value < |ss| && CiEq(ss[r.value].name, name)
    ensures r.Some? ==> forall j :: 0 <= j < r.value ==> !CiEq(ss[j].name, name)
    ensures r.None? ==> forall j :: 0 <= j < |ss| ==> !CiEq(ss[j].name, name)
  {
    if ss == [] then None
    else
      var r := FindSection(ss[..|ss| - 1], name);
      if r.Some? then r else if CiEq(ss[|ss| - 1].name, name) then Some(|ss| - 1) else None
  }

  predicate ProductMatches(p: Product, sectionId: Id, name: string) {
    p.sectionId == Some(sectionId) && CiEq(p.name, name)
  }

  /** The first product of section `sectionId` whose name matches `name`
      case-insensitively. */
  function FindProduct(ps: seq<Product>, sectionId: Id, name: string): (r: Option<nat>)
    ensures r.Some? ==> r.value < |ps| && ProductMatches(ps[r.value], sectionId, name)
    ensures r.Some? ==> forall j :: 0 <= j < r.value ==> !ProductMatches(ps[j], sectionId, name)
    ensures r.None? ==> forall j :: 0 <= j < |ps| ==> !ProductMatches(ps[j], sectionId, name)
  {
    if ps == [] then None
    else
      var r := FindProduct(ps[..|ps| - 1], sectionId, name);
      if r.Some? then r
      else if ProductMatches(ps[|ps| - 1], sectionId, name) then Some(|ps| - 1)
      else None
  }

  function SectionIdFor(ss: seq<Section>, name: string): Option<Id> {
    match FindSection(ss, name)
    case None => None
    case Some(i) => Some(ss[i].id)
  }

  function ProductIdFor(ps: seq<Product>, sectionId: Id, name: string): Option<Id> {
    match FindProduct(ps, sectionId, name)
    case None => None
    case Some(i) => Some(ps[i].id)
  }

  /** Appending rows does not change which row a successful lookup finds. */
  lemma FindSectionExtend(ss: seq<Section>, ss': seq<Section>, name: string)
    requires ss <= ss' && FindSection(ss, name).Some?
    ensures FindSection(ss', name) == FindSection(ss, name)
  {
    var i := FindSection(ss, name).value;
    assert ss'[i] == ss[i];
  }

  lemma FindProductExtend(ps: seq<Product>, ps': seq<Product>, sectionId: Id, name: string)
    requires ps <= ps' && FindProduct(ps, sectionId, name).Some?
    ensures FindProduct(ps', sectionId, name) == FindProduct(ps, sectionId, name)
  {
    var i := FindProduct(ps, sectionId, name).value;
    assert ps'[i] == ps[i];
  }

  /** Appending a matching row to a table that had none makes the lookup find it. */
  lemma FindSectionAppended(ss: seq<Section>, s: Section, name: string)
    requires FindSection(ss, name).None? && CiEq(s.name, name)
    ensures FindSection(ss + [s], name) == Some(|ss|)
  {
    var ss' := ss + [s];
    assert ss'[|ss|] == s;
  }

  lemma FindProductAppended(ps: seq<Product>, p: Product, sectionId: Id, name: string)
    requires FindProduct(ps, sectionId, name).None? && ProductMatches(p, sectionId, name)
    ensures FindProduct(ps + [p], sectionId, name) == Some(|ps|)
  {
    var ps' := ps + [p];
    assert ps'[|ps|] == p;
  }

  // ---------------------------------------------------------------------
  // Table invariants: in the source, uniqueness of names is kept only by
  // looking up before inserting; here it is an invariant those lookups keep.

  predicate SectionPairOk(a: Section, b: Section) {
    a.id != b.id && !CiEq(a.name, b.name)
  }

  predicate ProductPairOk(a: Product, b: Product) {
    a.id != b.id && (a.sectionId == b.sectionId ==> !CiEq(a.name, b.name))
  }

  predicate SectionsUnique(ss: seq<Section>) {
    forall i, j :: 0 <= i < j < |ss| ==> SectionPairOk(ss[i], ss[j])
  }

  predicate ProductsUnique(ps: seq<Product>) {
    forall i, j :: 0 <= i < j < |ps| ==> ProductPairOk(ps[i], ps[j])
  }

  predicate BatchIdsDistinct(bs: seq<Batch>) {
    forall i, j :: 0 <= i < j < |bs| ==> bs[i].id != bs[j].id
  }

  /** With unique names, a row whose name matches is the row the lookup
      returns: no name, in any casing, matches two sections. */
  lemma SectionMatchIsFound(ss: seq<Section>, name: string, i: nat)
    requires SectionsUnique(ss) && i < |ss| && CiEq(ss[i].name, name)
    ensures FindSection(ss, name) == Some(i)
  {
  }

  lemma ProductMatchIsFound(ps: seq<Product>, sectionId: Id, name: string, i: nat)
    requires ProductsUnique(ps) && i < |ps| && ProductMatches(ps[i], sectionId, name)
    ensures FindProduct(ps, sectionId, name) == Some(i)
  {
  }

  // ---------------------------------------------------------------------
  // Listing sections and products

  function NameOfSection(s: Section): string {
    s.name
  }

  function NameOfProduct(p: Product): string {
    p.name
  }

  /** The products of one section, in table order. */
  function ProductsIn(ps: seq<Product>, sectionId: Id): (r: seq<Product>)
    ensures forall p :: p in r <==> p in ps && p.sectionId == Some(sectionId)
  {
    if ps == [] then []
    else
      assert forall p :: p in ps <==> p == ps[0] || p in ps[1..];
      (if ps[0].sectionId == Some(sectionId) then [ps[0]] else []) + ProductsIn(ps[1..], sectionId)
  }

  // ---------------------------------------------------------------------
  // The active-batch query

  function ProductById(ps: seq<Product>, id: Id): (r: Option<Product>)
    ensures r.Some? ==> r.value in ps && r.value.id == id
    ensures r.None? ==> forall p :: p in ps ==> p.id != id
  {
    if ps == [] then None else if ps[0].id == id then Some(ps[0]) else ProductById(ps[1..], id)
  }

  function SectionById(ss: seq<Section>, id: Option<Id>): (r: Option<Section>)
    ensures r.Some? ==> r.value in ss && id == Some(r.value.id)
    ensures r.None? ==> id.None? || forall s :: s in ss ==> s.id != id.value
  {
    if ss == [] || id.None? then None
    else if ss[0].id == id.value then Some(ss[0])
    else SectionById(ss[1..], id)
  }

  /** The `products(*, sections(*))` join of one batch row. */
  function Joined(ss: seq<Section>, ps: seq<Product>, b: Batch): (r: Batch)
    ensures r.(products := b.products) == b
    ensures r.products.Some? <==> exists p :: p in ps && p.id == b.productId
    ensures r.products.Some? ==> r.products.value.id == b.productId
  {
    var p := ProductById(ps, b.productId);
    b.(products := if p.None? then None else Some(p.value.(sections := SectionById(ss, p.value.sectionId))))
  }

  /** The joined batch rows whose status is neither consumed nor discarded,
      in table order. */
  function ActiveView(ss: seq<Section>, ps: seq<Product>, bs: seq<Batch>): (r: seq<Batch>)
    ensures forall k :: 0 <= k < |r| ==> r[k].status == Active
  {
    if bs == [] then []
    else (if bs[0].status != Consumed && bs[0].status != Discarded then [Joined(ss, ps, bs[0])] else [])
         + ActiveView(ss, ps, bs[1..])
  }

  /** A row shows in the active view exactly when its status is active. */
  lemma {:induction false} ActiveViewMembers(ss: seq<Section>, ps: seq<Product>, bs: seq<Batch>, b: Batch)
    requires b in bs
    ensures Joined(ss, ps, b) in ActiveView(ss, ps, bs) <==> b.status == Active
  {
    if bs[0] != b {
      ActiveViewMembers(ss, ps, bs[1..], b);
    }
  }

  /** Every row of the active view is the join of an active row with the same id. */
  lemma {:induction false} ActiveViewFrom(ss: seq<Section>, ps: seq<Product>, bs: seq<Batch>, v: Batch)
    requires v in ActiveView(ss, ps, bs)
    ensures exists b :: b in bs && b.status == Active && v == Joined(ss, ps, b)
  {
    if bs != [] && !(bs[0].status == Active && v == Joined(ss, ps, bs[0])) {
      ActiveViewFrom(ss, ps, bs[1..], v);
      var b :| b in bs[1..] && b.status == Active && v == Joined(ss, ps, b);
      assert b in bs;
    }
  }

  predicate SortedByExpiry(s: seq<Batch>) {
    forall i, j :: 0 <= i < j < |s| ==> s[i].expiresAt <= s[j].expiresAt
  }

  lemma ConsByExpiry(b: Batch, t: seq<Batch>)
    requires SortedByExpiry(t) && (t != [] ==> b.expiresAt <= t[0].expiresAt)
    ensures SortedByExpiry([b] + t)
  {
    assert forall j :: 0 <= j < |t| ==> t[0].expiresAt <= t[j].expiresAt;
  }

  function InsertByExpiry(b: Batch, s: seq<Batch>): (r: seq<Batch>)
    requires SortedByExpiry(s)
    ensures SortedByExpiry(r) && multiset(r) == multiset(s) + multiset{b}
    ensures r[0] == b || (s != [] && r[0] == s[0])
  {
    if s == [] || b.expiresAt <= s[0].expiresAt then
      ConsByExpiry(b, s);
      [b] + s
    else
      var t := InsertByExpiry(b, s[1..]);
      ConsByExpiry(s[0], t);
      assert s == [s[0]] + s[1..];
      [s[0]] + t
  }

  /** The `order('expiration_date', { ascending: true })` of the query. */
  function SortByExpiry(s: seq<Batch>): (r: seq<Batch>)
    ensures SortedByExpiry(r) && multiset(r) == multiset(s)
  {
    if s == [] then []
    else
      assert s == [s[0]] + s[1..];
      InsertByExpiry(s[0], SortByExpiry(s[1..]))
  }

  // ---------------------------------------------------------------------
  // The status update

  /** The `update({ status }).eq('id', batchId)` of the batches table. */
  function WithStatus(bs: seq<Batch>, id: Id, status: Status): (r: seq<Batch>)
    ensures |r| == |bs|
  {
    seq(|bs|, i requires 0 <= i < |bs| => if bs[i].id == id then bs[i].(status := status) else bs[i])
  }

  /** The update rewrites no field but `status`, and only in rows with that id. */
  lemma WithStatusChangesOnlyStatus(bs: seq<Batch>, id: Id, status: Status, i: nat)
    requires i < |bs|
    ensures WithStatus(bs, id, status)[i].(status := bs[i].status) == bs[i]
    ensures bs[i].id != id ==> WithStatus(bs, id, status)[i] == bs[i]
    ensures bs[i].id == id ==> WithStatus(bs, id, status)[i].status == status
  {
  }

  /** A batch marked consumed or discarded drops out of the active view while
      every other active row stays in it. */
  lemma WithStatusHidesBatch(ss: seq<Section>, ps: seq<Product>, bs: seq<Batch>, id: Id, status: Status)
    requires status != Active
    ensures forall v :: v in ActiveView(ss, ps, WithStatus(bs, id, status)) ==> v.id != id
    ensures forall b :: b in bs && b.status == Active && b.id != id ==>
      Joined(ss, ps, b) in ActiveView(ss, ps, WithStatus(bs, id, status))
  {
    var bs' := WithStatus(bs, id, status);
    forall v | v in ActiveView(ss, ps, bs') ensures v.id != id {
      ActiveViewFrom(ss, ps, bs', v);
      var b :| b in bs' && b.status == Active && v == Joined(ss, ps, b);
    }
    forall b | b in bs && b.status == Active && b.id != id
      ensures Joined(ss, ps, b) in ActiveView(ss, ps, bs')
    {
      var i :| 0 <= i < |bs| && bs[i] == b;
      assert bs'[i] == b;
      ActiveViewMembers(ss, ps, bs', b);
    }
  }

  // ---------------------------------------------------------------------
  // Product deletion (only the product row: the cascade to its batches is the
  // data store's)

  function WithoutProduct(ps: seq<Product>, id: Id): (r: seq<Product>)
    ensures forall p :: p in r <==> p in ps && p.id != id
  {
    if ps == [] then []
    else (if ps[0].id == id then [] else [ps[0]]) + WithoutProduct(ps[1..], id)
  }

  lemma {:induction false} WithoutProductUnique(ps: seq<Product>, id: Id)
    requires ProductsUnique(ps)
    ensures ProductsUnique(WithoutProduct(ps, id))
  {
    if ps != [] {
      WithoutProductUnique(ps[1..], id);
      var rest := WithoutProduct(ps[1..], id);
      if ps[0].id != id {
        var r := [ps[0]] + rest;
        forall i, j | 0 <= i < j < |r| ensures ProductPairOk(r[i], r[j]) {
          if i == 0 {
            assert r[j] in ps[1..];
            var k :| 0 <= k < |ps[1..]| && ps[1..][k] == r[j];
            assert ProductPairOk(ps[0], ps[k + 1]);
          } else {
            assert r[i] == rest[i - 1] && r[j] == rest[j - 1];
          }
        }
      }
    }
  }

  // ---------------------------------------------------------------------
  // The store

  /** One row of the bulk import: `{ section, product }`. */
  datatype ImportItem = ImportItem(section: string, product: string)

  const NotAuthenticated: string := "User not authenticated"

  /** An item is registered when a section matches its trimmed section name
      case-insensitively and a product of that section matches its trimmed
      product name case-insensitively. */
  predicate Registered(ss: seq<Section>, ps: seq<Product>, item: ImportItem) {
    var s := FindSection(ss, Normalize(item.section));
    s.Some? && FindProduct(ps, ss[s.value].id, Normalize(item.product)).Some?
  }

  predicate AllRegistered(ss: seq<Section>, ps: seq<Product>, items: seq<ImportItem>) {
    forall k :: 0 <= k < |items| ==> Registered(ss, ps, items[k])
  }

  lemma RegisteredExtend(ss: seq<Section>, ps: seq<Product>, ss': seq<Section>, ps': seq<Product>, item: ImportItem)
    requires ss <= ss' && ps <= ps' && Registered(ss, ps, item)
    ensures Registered(ss', ps', item)
  {
    var i := FindSection(ss, Normalize(item.section)).value;
    FindSectionExtend(ss, ss', Normalize(item.section));
    assert ss'[i] == ss[i];
    FindProductExtend(ps, ps', ss[i].id, Normalize(item.product));
  }

  /** The shape of a section row the bulk import inserts for one of `items`. */
  predicate ImportedSection(s: Section, items: seq<ImportItem>) {
    exists k :: 0 <= k < |items| && s.name == Normalize(items[k].section)
  }

  /** The shape of a product row the bulk import inserts for one of `items`,
      in section `ss`. */
  predicate ImportedProduct(p: Product, ss: seq<Section>, items: seq<ImportItem>) {
    exists k :: 0 <= k < |items| && ImportedProductFor(p, ss, items[k])
  }

  predicate ImportedProductFor(p: Product, ss: seq<Section>, item: ImportItem) {
    && p.name == Normalize(item.product)
    && p.category == Some(Normalize(item.section))
    && p.minStockAlert == Some(5)
    && p.imageUrl == None
    && p.sectionId == SectionIdFor(ss, Normalize(item.section))
    && p.sectionId.Some?
  }

  /** A product row imported for some item stays so as sections are appended. */
  lemma ImportedProductExtend(p: Product, ss: seq<Section>, ss': seq<Section>, items: seq<ImportItem>)
    requires ss <= ss' && ImportedProduct(p, ss, items)
    ensures ImportedProduct(p, ss', items)
  {
    var k :| 0 <= k < |items| && ImportedProductFor(p, ss, items[k]);
    FindSectionExtend(ss, ss', Normalize(items[k].section));
    assert ImportedProductFor(p, ss', items[k]);
  }

  predicate RegisteredUpTo(ss: seq<Section>, ps: seq<Product>, items: seq<ImportItem>, i: nat)
    requires i <= |items|
  {
    forall k :: 0 <= k < i ==> Registered(ss, ps, items[k])
  }

  /** The section rows after the first `|ss0|` were inserted for `items`. */
  predicate SectionsImported(ss0: seq<Section>, ss: seq<Section>, items: seq<ImportItem>) {
    forall j :: |ss0| <= j < |ss| ==> ImportedSection(ss[j], items)
  }

  /** The product rows after the first `|ps0|` were inserted for `items`. */
  predicate ProductsImported(ps0: seq<Product>, ps: seq<Product>, ss: seq<Section>, items: seq<ImportItem>) {
    forall j :: |ps0| <= j < |ps| ==> ImportedProduct(ps[j], ss, items)
  }

  /** What the bulk import has achieved after its first `i` items, starting
      from tables `ss0` and `ps0`. */
  predicate ImportProgress(ss0: seq<Section>, ps0: seq<Product>, ss: seq<Section>, ps: seq<Product>,
                           items: seq<ImportItem>, i: nat)
  {
    && i <= |items|
    && ss0 <= ss && ps0 <= ps
    && RegisteredUpTo(ss, ps, items, i)
    && SectionsImported(ss0, ss, items)
    && ProductsImported(ps0, ps, ss, items)
    && (AllRegistered(ss0, ps0, items) ==> ss == ss0 && ps == ps0)
  }

  lemma RegisteredUpToStep(ss: seq<Section>, ps: seq<Product>, ss': seq<Section>, ps': seq<Product>,
                           items: seq<ImportItem>, i: nat)
    requires i < |items| && RegisteredUpTo(ss, ps, items, i)
    requires ss <= ss' && ps <= ps' && Registered(ss', ps', items[i])
    ensures RegisteredUpTo(ss', ps', items, i + 1)
  {
    forall k | 0 <= k < i ensures Registered(ss', ps', items[k]) {
      RegisteredExtend(ss, ps, ss', ps', items[k]);
    }
  }

  lemma SectionsImportedStep(ss0: seq<Section>, ss: seq<Section>, ss': seq<Section>, items: seq<ImportItem>, i: nat)
    requires i < |items| && ss <= ss' && SectionsImported(ss0, ss, items)
    requires forall j :: |ss| <= j < |ss'| ==> ss'[j].name == Normalize(items[i].section)
    ensures SectionsImported(ss0, ss', items)
  {
    forall j | |ss0| <= j < |ss'| ensures ImportedSection(ss'[j], items) {
      if j >= |ss| {
        assert ss'[j].name == Normalize(items[i].section);
      } else {
        assert ss'[j] == ss[j];
      }
    }
  }

  lemma ProductsImportedStep(ps0: seq<Product>, ps: seq<Product>, ps': seq<Product>,
                             ss: seq<Section>, ss': seq<Section>, items: seq<ImportItem>, i: nat)
    requires i < |items| && ss <= ss' && ps <= ps' && ProductsImported(ps0, ps, ss, items)
    requires forall j :: |ps| <= j < |ps'| ==> ImportedProductFor(ps'[j], ss', items[i])
    ensures ProductsImported(ps0, ps', ss', items)
  {
    forall j | |ps0| <= j < |ps'| ensures ImportedProduct(ps'[j], ss', items) {
      if j < |ps| {
        assert ps'[j] == ps[j];
        ImportedProductExtend(ps[j], ss, ss', items);
      } else {
        assert ImportedProductFor(ps'[j], ss', items[i]);
      }
    }
  }

  /** Registering item `i` extends the progress to the first `i + 1` items. */
  lemma ImportProgressStep(ss0: seq<Section>, ps0: seq<Product>, ss: seq<Section>, ps: seq<Product>,
                           ss': seq<Section>, ps': seq<Product>, items: seq<ImportItem>, i: nat)
    requires ImportProgress(ss0, ps0, ss, ps, items, i) && i < |items|
    requires ss <= ss' && ps <= ps' && Registered(ss', ps', items[i])
    requires forall j :: |ss| <= j < |ss'| ==> ss'[j].name == Normalize(items[i].section)
    requires forall j :: |ps| <= j < |ps'| ==> ImportedProductFor(ps'[j], ss', items[i])
    requires Registered(ss, ps, items[i]) ==> ss' == ss && ps' == ps
    ensures ImportProgress(ss0, ps0, ss', ps', items, i + 1)
  {
    RegisteredUpToStep(ss, ps, ss', ps', items, i);
    SectionsImportedStep(ss0, ss, ss', items, i);
    ProductsImportedStep(ps0, ps, ps', ss, ss', items, i);
    if AllRegistered(ss0, ps0, items) {
      assert Registered(ss, ps, items[i]);
    }
  }

  class Store {
    /** The account the session belongs to; the row-level security of the
        data store shows this account only its own rows. */
    const owner: Id
    var signedIn: bool
    var sections: seq<Section>
    var products: seq<Product>
    var batches: seq<Batch>
    /** Source of fresh identifiers for inserted rows. */
    var nextId: nat

    ghost predicate Valid()
      reads this
    {
      && (forall i :: 0 <= i < |sections| ==> sections[i].userId == owner && sections[i].id < nextId)
      && (forall i :: 0 <= i < |products| ==> products[i].userId == owner && products[i].id < nextId)
      && (forall i :: 0 <= i < |batches| ==> batches[i].id < nextId)
      && SectionsUnique(sections)
      && ProductsUnique(products)
      && BatchIdsDistinct(batches)
    }

    constructor (owner: Id, signedIn: bool)
      ensures Valid()
      ensures this.owner == owner && this.signedIn == signedIn
      ensures sections == [] && products == [] && batches == []
    {
      this.owner := owner;
      this.signedIn := signedIn;
      sections, products, batches := [], [], [];
      nextId := 0;
    }

    method InsertSection(name: string) returns (id: Id)
      requires Valid() && FindSection(sections, name).None?
      modifies this
      ensures Valid()
      ensures id == old(nextId) && nextId == id + 1
      ensures sections == old(sections) + [Section(id, owner, name)]
      ensures products == old(products) && batches == old(batches) && signedIn == old(signedIn)
    {
      id := nextId;
      var s := Section(id, owner, name);
      forall i | 0 <= i < |sections| ensures SectionPairOk(sections[i], s) {
        assert !CiEq(sections[i].name, name);
      }
      sections := sections + [s];
      nextId := nextId + 1;
    }

    method InsertProduct(sectionId: Id, name: string, category: string) returns (id: Id)
      requires Valid() && FindProduct(products, sectionId, name).None?
      modifies this
      ensures Valid()
      ensures id == old(nextId) && nextId == id + 1
      ensures products == old(products) + [Product(id, owner, Some(sectionId), name, Some(category), None, Some(5), None)]
      ensures sections == old(sections) && batches == old(batches) && signedIn == old(signedIn)
    {
      id := nextId;
      var p := Product(id, owner, Some(sectionId), name, Some(category), None, Some(5), None);
      forall i | 0 <= i < |products| ensures ProductPairOk(products[i], p) {
        assert !ProductMatches(products[i], sectionId, name);
      }
      products := products + [p];
      nextId := nextId + 1;
    }

    method InsertBatch(productId: Id, quantity: int, expirationDate: string, expiresAt: int)
      requires Valid()
      modifies this
      ensures Valid()
      ensures batches == old(batches) + [Batch(old(nextId), productId, quantity, expirationDate, expiresAt, Active, None)]
      ensures nextId == old(nextId) + 1
      ensures sections == old(sections) && products == old(products) && signedIn == old(signedIn)
    {
      batches := batches + [Batch(nextId, productId, quantity, expirationDate, expiresAt, Active, None)];
      nextId := nextId + 1;
    }

    /** `getAllBatches`: the active batches, joined with their product and
        section, in ascending order of expiration. */
    method GetAllBatches() returns (r: Result<seq<Batch>, string>)
      ensures r.Err? <==> !signedIn
      ensures r.Err? ==> r.error == NotAuthenticated
      ensures r.Ok? ==> SortedByExpiry(r.value)
      ensures r.Ok? ==> multiset(r.value) == multiset(ActiveView(sections, products, batches))
    {
      if !signedIn {
        return Err(NotAuthenticated);
      }
      r := Ok(SortByExpiry(ActiveView(sections, products, batches)));
    }

    /** `getSections`: no rows without a session; otherwise every section,
        ascending by name. */
    method GetSections() returns (r: seq<Section>)
      ensures !signedIn ==> r == []
      ensures signedIn ==> SortedByKey(r, NameOfSection) && multiset(r) == multiset(sections)
    {
      if !signedIn {
        return [];
      }
      r := SortByKey(sections, NameOfSection);
    }

    /** `getProductsBySection`: the products of one section, ascending by name. */
    method GetProductsBySection(sectionId: Id) returns (r: seq<Product>)
      ensures SortedByKey(r, NameOfProduct)
      ensures forall p :: p in r <==> p in products && p.sectionId == Some(sectionId)
      ensures multiset(r) == multiset(ProductsIn(products, sectionId))
    {
      var ps := ProductsIn(products, sectionId);
      r := SortByKey(ps, NameOfProduct);
      assert forall p :: p in r <==> p in multiset(r);
      assert forall p :: p in ps <==> p in multiset(ps);
    }

    /** `createBatch`: resolves the section, then the product within it, by
        case-insensitive name, inserting each that is missing under the name
        exactly as given, and then inserts one active batch of that product. */
    method CreateBatch(sectionName: string, productName: string, quantity: int,
                       expirationDate: string, expiresAt: int) returns (r: Outcome<string>)
      requires Valid()
      modifies this
      ensures Valid() && signedIn == old(signedIn)
      ensures !old(signedIn) ==>
        r == Fail(NotAuthenticated) && sections == old(sections) && products == old(products) && batches == old(batches)
      ensures old(signedIn) ==> r == Pass
      // the section: found, or inserted with the given name
      ensures old(signedIn) ==> old(sections) <= sections
      ensures old(signedIn) && FindSection(old(sections), sectionName).Some? ==> sections == old(sections)
      ensures old(signedIn) && FindSection(old(sections), sectionName).None? ==>
        |sections| == |old(sections)| + 1 && sections[|old(sections)|].name == sectionName
      ensures old(signedIn) ==> SectionIdFor(sections, sectionName).Some?
      // the product: found in that section, or inserted with the given name
      ensures old(signedIn) ==> old(products) <= products
      ensures old(signedIn) ==>
        var sid := SectionIdFor(sections, sectionName).value;
        && (FindProduct(old(products), sid, productName).Some? ==> products == old(products))
        && (FindProduct(old(products), sid, productName).None? ==>
              |products| == |old(products)| + 1
              && var p := products[|old(products)|];
              p.name == productName && p.sectionId == Some(sid) && p.category == Some(sectionName)
              && p.minStockAlert == Some(5) && p.imageUrl == None)
        && ProductIdFor(products, sid, productName).Some?
      // the batch
      ensures old(signedIn) ==>
        var sid := SectionIdFor(sections, sectionName).value;
        && |batches| == |old(batches)| + 1 && batches[..|old(batches)|] == old(batches)
        && var b := batches[|old(batches)|];
        b.productId == ProductIdFor(products, sid, productName).value
        && b.quantity == quantity && b.expirationDate == expirationDate && b.expiresAt == expiresAt
        && b.status == Active && b.products == None
    {
      if !signedIn {
        return Fail(NotAuthenticated);
      }
      // 1. Resolve section
      var sectionId: Id;
      var existingSection := FindSection(sections, sectionName);
      if existingSection.Some? {
        sectionId := sections[existingSection.value].id;
      } else {
        sectionId := InsertSection(sectionName);
        FindSectionAppended(old(sections), Section(sectionId, owner, sectionName), sectionName);
      }
      assert SectionIdFor(sections, sectionName) == Some(sectionId);
      // 2. Resolve product
      var productId: Id;
      var existingProduct := FindProduct(products, sectionId, productName);
      if existingProduct.Some? {
        productId := products[existingProduct.value].id;
      } else {
        ghost var before := products;
        productId := InsertProduct(sectionId, productName, sectionName);
        FindProductAppended(before, products[|before|], sectionId, productName);
      }
      assert ProductIdFor(products, sectionId, productName) == Some(productId);
      // 3. Create batch
      InsertBatch(productId, quantity, expirationDate, expiresAt);
      r := Pass;
    }

    /** `updateBatchStatus`: sets the status of the batch with that id. */
    method UpdateBatchStatus(batchId: Id, status: Status)
      requires Valid() && status != Active
      modifies this
      ensures Valid()
      ensures batches == WithStatus(old(batches), batchId, status)
      ensures sections == old(sections) && products == old(products)
      ensures signedIn == old(signedIn) && nextId == old(nextId)
    {
      batches := WithStatus(batches, batchId, status);
    }

    /** `addBatchToProduct`: inserts one active batch of an existing product. */
    method AddBatchToProduct(productId: Id, quantity: int, expirationDate: string, expiresAt: int)
      requires Valid()
      modifies this
      ensures Valid()
      ensures |batches| == |old(batches)| + 1 && batches[..|old(batches)|] == old(batches)
      ensures var b := batches[|old(batches)|];
        b.productId == productId && b.quantity == quantity && b.expirationDate == expirationDate
        && b.expiresAt == expiresAt && b.status == Active
      ensures sections == old(sections) && products == old(products) && signedIn == old(signedIn)
    {
      InsertBatch(productId, quantity, expirationDate, expiresAt);
    }

    /** `deleteProduct`: removes the product row with that id. */
    method DeleteProduct(productId: Id)
      requires Valid()
      modifies this
      ensures Valid()
      ensures products == WithoutProduct(old(products), productId)
      ensures forall p :: p in products <==> p in old(products) && p.id != productId
      ensures sections == old(sections) && batches == old(batches) && signedIn == old(signedIn)
    {
      WithoutProductUnique(products, productId);
      products := WithoutProduct(products, productId);
    }

    /** One iteration of the `importProducts` loop: resolves the item's
        normalized section name, inserting the section if no name matches,
        then the normalized product name within that section, inserting the
        product if none matches. */
    method RegisterItem(item: ImportItem)
      requires Valid()
      modifies this
      ensures Valid() && signedIn == old(signedIn) && batches == old(batches)
      ensures old(sections) <= sections && old(products) <= products
      ensures Registered(sections, products, item)
      ensures forall j :: |old(sections)| <= j < |sections| ==> sections[j].name == Normalize(item.section)
      ensures forall j :: |old(products)| <= j < |products| ==> ImportedProductFor(products[j], sections, item)
      ensures Registered(old(sections), old(products), item) ==>
        sections == old(sections) && products == old(products)
    {
      var sectionName := Normalize(item.section);
      var productName := Normalize(item.product);
      // 1. Resolve section
      var sectionId: Id;
      var existingSection := FindSection(sections, sectionName);
      if existingSection.Some? {
        sectionId := sections[existingSection.value].id;
      } else {
        sectionId := InsertSection(sectionName);
        FindSectionAppended(old(sections), Section(sectionId, owner, sectionName), sectionName);
      }
      assert SectionIdFor(sections, sectionName) == Some(sectionId);
      // 2. Resolve product
      var existingProduct := FindProduct(products, sectionId, productName);
      if existingProduct.None? {
        var p := Product(nextId, owner, Some(sectionId), productName, Some(sectionName), None, Some(5), None);
        assert ImportedProductFor(p, sections, item);
        var _ := InsertProduct(sectionId, productName, sectionName);
        FindProductAppended(old(products), p, sectionId, productName);
      }
    }

    /** `importProducts`: registers every item in order, each with its
        section and product names trimmed and upper-cased, and inserts a row
        only where the case-insensitive lookup finds none. */
    method ImportProducts(items: seq<ImportItem>) returns (r: Outcome<string>)
      requires Valid()
      modifies this
      ensures Valid() && signedIn == old(signedIn) && batches == old(batches)
      ensures !old(signedIn) ==>
        r == Fail(NotAuthenticated) && sections == old(sections) && products == old(products)
      ensures old(signedIn) ==> r == Pass && AllRegistered(sections, products, items)
      ensures old(sections) <= sections && old(products) <= products
      ensures forall j :: |old(sections)| <= j < |sections| ==> ImportedSection(sections[j], items)
      ensures forall j :: |old(products)| <= j < |products| ==> ImportedProduct(products[j], sections, items)
      ensures AllRegistered(old(sections), old(products), items) ==>
        sections == old(sections) && products == old(products)
    {
      if !signedIn {
        return Fail(NotAuthenticated);
      }
      var i := 0;
      while i < |items|
        invariant 0 <= i <= |items|
        invariant Valid() && signedIn == old(signedIn) && batches == old(batches)
        invariant ImportProgress(old(sections), old(products), sections, products, items, i)
      {
        ghost var ss0, ps0 := sections, products;
        RegisterItem(items[i]);
        ImportProgressStep(old(sections), old(products), ss0, ps0, sections, products, items, i);
        i := i + 1;
      }
      r := Pass;
      assert RegisteredUpTo(sections, products, items, |items|);
    }
  }

  /** Importing the same items a second time inserts no rows. */
  method ImportTwice(store: Store, items: seq<ImportItem>) returns (secondAddedNothing: bool)
    requires store.Valid()
    modifies store
    ensures store.Valid()
    ensures store.signedIn ==> secondAddedNothing
  {
    var _ := store.ImportProducts(items);
    var ss, ps := store.sections, store.products;
    var _ := store.ImportProducts(items);
    secondAddedNothing := store.sections == ss && store.products == ps;
  }

  /** Items whose names differ only in case or in surrounding whitespace
      share one normalized name; rows imported for such items put at most one
      new section in a table of unique names. */
  lemma OneNewSection(ss0: seq<Section>, ss: seq<Section>, items: seq<ImportItem>)
    requires ss0 <= ss && SectionsUnique(ss) && SectionsImported(ss0, ss, items)
    requires forall k, l :: 0 <= k < |items| && 0 <= l < |items| ==>
      Normalize(items[k].section) == Normalize(items[l].section)
    ensures |ss| <= |ss0| + 1
  {
    assert |ss| > |ss0| + 1 ==> ImportedSection(ss[|ss0|], items) && ImportedSection(ss[|ss0| + 1], items);
  }

  /** Likewise at most one new product for items that share both normalized names. */
  lemma OneNewProduct(ps0: seq<Product>, ps: seq<Product>, ss: seq<Section>, items: seq<ImportItem>)
    requires ps0 <= ps && ProductsUnique(ps) && ProductsImported(ps0, ps, ss, items)
    requires forall k, l :: 0 <= k < |items| && 0 <= l < |items| ==>
      Normalize(items[k].section) == Normalize(items[l].section)
      && Normalize(items[k].product) == Normalize(items[l].product)
    ensures |ps| <= |ps0| + 1
  {
    assert |ps| > |ps0| + 1 ==> ImportedProduct(ps[|ps0|], ss, items) && ImportedProduct(ps[|ps0| + 1], ss, items);
  }

  /** Importing items that differ only in case or in surrounding whitespace
      creates at most one section and one product. */
  method ImportVariants(store: Store, items: seq<ImportItem>) returns (r: Outcome<string>)
    requires store.Valid()
    requires forall k, l :: 0 <= k < |items| && 0 <= l < |items| ==>
      Normalize(items[k].section) == Normalize(items[l].section)
      && Normalize(items[k].product) == Normalize(items[l].product)
    modifies store
    ensures store.Valid()
    ensures |store.sections| <= |old(store.sections)| + 1
    ensures |store.products| <= |old(store.products)| + 1
  {
    r := store.ImportProducts(items);
    OneNewSection(old(store.sections), store.sections, items);
    OneNewProduct(old(store.products), store.products, store.sections, items);
  }
}
