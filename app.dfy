/** The dashboard of src/App.tsx: the critical-batch list, the grouping of
    the loaded batches by section and, inside a section, by product, the
    sorted section list and the distinct-product count. */
module Dashboard {
  import opened Wrappers
  import opened Text
  import opened DatabaseTypes
  import opened BatchService

  // ---------------------------------------------------------------------
  // Filtering

  /** `batches.filter(keep)`: the batches that satisfy `keep`, in their order. */
  function Filter(s: seq<Batch>, keep: Batch -> bool): (r: seq<Batch>)
    ensures |r| <= |s|
    ensures forall b :: b in r <==> b in s && keep(b)
  {
    if s == [] then []
    else
      var init, last := s[..|s| - 1], s[|s| - 1];
      assert s == init + [last];
      Filter(init, keep) + (if keep(last) then [last] else [])
  }

  /** Nothing is kept from a list none of whose elements qualifies. */
  lemma {:induction false} FilterEmpty(s: seq<Batch>, keep: Batch -> bool)
    requires forall b :: b in s ==> !keep(b)
    ensures Filter(s, keep) == []
  {
    if s != [] {
      var init, last := s[..|s| - 1], s[|s| - 1];
      assert s == init + [last];
      FilterEmpty(init, keep);
    }
  }

  lemma FilterAppend(s: seq<Batch>, b: Batch, keep: Batch -> bool)
    ensures Filter(s + [b], keep) == Filter(s, keep) + (if keep(b) then [b] else [])
  {
    assert (s + [b])[..|s|] == s;
  }

  /** Filtering keeps the relative order, so a list ascending by expiration
      stays ascending without re-sorting. */
  lemma {:induction false} FilterSorted(s: seq<Batch>, keep: Batch -> bool)
    requires SortedByExpiry(s)
    ensures SortedByExpiry(Filter(s, keep))
  {
    if s != [] {
      var init, last := s[..|s| - 1], s[|s| - 1];
      FilterSorted(init, keep);
      var f := Filter(init, keep);
      forall i | 0 <= i < |f| ensures f[i].expiresAt <= last.expiresAt {
        assert f[i] in init;
        var j :| 0 <= j < |init| && init[j] == f[i];
        assert s[j] == init[j];
      }
    }
  }

  // ---------------------------------------------------------------------
  // The critical list

  function IsCritical(now: int): Batch -> bool {
    (b: Batch) => ExpiresSoon(b.expiresAt, now)
  }

  /** `batches.filter(b => getDaysRemaining(b.expiration_date) <= 3)`. */
  function Critical(bs: seq<Batch>, now: int): seq<Batch> {
    Filter(bs, IsCritical(now))
  }

  /** The critical list holds exactly the loaded batches with at most three
      days remaining, and keeps the order of the loaded list. */
  lemma CriticalIsExpiring(bs: seq<Batch>, now: int)
    ensures forall b :: b in Critical(bs, now) <==> b in bs && DaysRemaining(b.expiresAt, now) <= 3
    ensures SortedByExpiry(bs) ==> SortedByExpiry(Critical(bs, now))
  {
    if SortedByExpiry(bs) {
      FilterSorted(bs, IsCritical(now));
    }
  }

  // ---------------------------------------------------------------------
  // Grouping by section

  /** The key of batches without a section, or with an empty section name. */
  const NoSection: string := "Sem Sess\U{E3}o"

  /** `batch.products?.sections?.name || 'Sem Sessão'`. */
  function SectionKey(b: Batch): (k: string)
    ensures k != []
  {
    if b.products.Some? && b.products.value.sections.Some? && b.products.value.sections.value.name != []
    then b.products.value.sections.value.name
    else NoSection
  }

  function BySection(key: string): Batch -> bool {
    (b: Batch) => SectionKey(b) == key
  }

  /** The batches of one section group, in the order of the loaded list. */
  function InSection(bs: seq<Batch>, key: string): seq<Batch> {
    Filter(bs, BySection(key))
  }

  /** The total size of the groups named by `keys`. */
  function SectionSizes(bs: seq<Batch>, keys: seq<string>): nat {
    if keys == [] then 0 else |InSection(bs, keys[0])| + SectionSizes(bs, keys[1..])
  }

  /** `groups` holds the non-empty section groups of `bs`, one for the key
      of each batch, and `keys` lists each of its keys once. */
  ghost predicate SectionGroupsOf(bs: seq<Batch>, groups: map<string, seq<Batch>>, keys: seq<string>) {
    && (forall k :: SectionAt(bs, groups, k))
    && (forall x :: x in bs ==> SectionKey(x) in groups)
    && Distinct(keys)
    && (forall k :: k in groups <==> k in keys)
  }

  /** The entry for key `k`, if any, is the non-empty group of that key. */
  ghost predicate SectionAt(bs: seq<Batch>, groups: map<string, seq<Batch>>, k: string) {
    k in groups ==> groups[k] == InSection(bs, k) && groups[k] != []
  }

  /** Pushing the next batch onto the existing group of its key gives the
      groups of the longer list. */
  lemma SectionGroupsKnown(bs: seq<Batch>, b: Batch, groups: map<string, seq<Batch>>, keys: seq<string>)
    requires SectionGroupsOf(bs, groups, keys) && SectionKey(b) in groups
    ensures SectionGroupsOf(bs + [b], groups[SectionKey(b) := groups[SectionKey(b)] + [b]], keys)
  {
    var g := groups[SectionKey(b) := groups[SectionKey(b)] + [b]];
    forall k ensures SectionAt(bs + [b], g, k) {
      if k in g {
        assert SectionAt(bs, groups, k);
        FilterAppend(bs, b, BySection(k));
      }
    }
    forall x | x in bs + [b] ensures SectionKey(x) in g {
      assert x in bs || x == b;
    }
  }

  /** A batch whose key has no group yet starts a new group and a new key. */
  lemma SectionGroupsNew(bs: seq<Batch>, b: Batch, groups: map<string, seq<Batch>>, keys: seq<string>)
    requires SectionGroupsOf(bs, groups, keys) && SectionKey(b) !in groups
    ensures SectionGroupsOf(bs + [b], groups[SectionKey(b) := [b]], keys + [SectionKey(b)])
  {
    var key := SectionKey(b);
    var g := groups[key := [b]];
    forall k ensures SectionAt(bs + [b], g, k) {
      if k in groups {
        assert SectionAt(bs, groups, k);
        FilterAppend(bs, b, BySection(k));
      } else if k == key {
        FilterAppend(bs, b, BySection(key));
        FilterEmpty(bs, BySection(key));
      }
    }
    forall x | x in bs + [b] ensures SectionKey(x) in g {
      assert x in bs || x == b;
    }
    assert key !in keys;
    var keys' := keys + [key];
    forall i, j | 0 <= i < j < |keys'| ensures keys'[i] != keys'[j] {
      if j < |keys| {
        assert keys'[i] == keys[i] && keys'[j] == keys[j];
      } else {
        assert keys'[i] in keys;
      }
    }
    assert forall k :: k in keys' <==> k in keys || k == key;
  }

  /** What the finished loop has built. */
  lemma SectionGroupsDone(batches: seq<Batch>, groups: map<string, seq<Batch>>, keys: seq<string>)
    requires SectionGroupsOf(batches, groups, keys)
    ensures forall k :: k in groups ==> groups[k] == InSection(batches, k) && groups[k] != []
    ensures forall i :: 0 <= i < |batches| ==> SectionKey(batches[i]) in groups
    ensures SectionSizes(batches, keys) == |batches|
  {
    forall k | k in groups ensures groups[k] == InSection(batches, k) && groups[k] != [] {
      assert SectionAt(batches, groups, k);
    }
    forall j | 0 <= j < |batches| ensures SectionKey(batches[j]) in groups {
      assert batches[j] in batches;
    }
    SectionPartition(batches, keys);
  }

  /** The loop that fills `groupedBatches`: one group per section key, in the
      order the keys first appear. */
  method GroupBySection(batches: seq<Batch>) returns (groups: map<string, seq<Batch>>, keys: seq<string>)
    ensures forall k :: k in groups ==> groups[k] == InSection(batches, k) && groups[k] != []
    ensures forall i :: 0 <= i < |batches| ==> SectionKey(batches[i]) in groups
    ensures Distinct(keys) && forall k :: k in groups <==> k in keys
    ensures SectionSizes(batches, keys) == |batches|
  {
    groups, keys := map[], [];
    var i := 0;
    while i < |batches|
      invariant 0 <= i <= |batches|
      invariant SectionGroupsOf(batches[..i], groups, keys)
    {
      var b := batches[i];
      var key := SectionKey(b);
      assert batches[..i + 1] == batches[..i] + [b];
      if key in groups {
        SectionGroupsKnown(batches[..i], b, groups, keys);
        groups := groups[key := groups[key] + [b]];
      } else {
        SectionGroupsNew(batches[..i], b, groups, keys);
        groups := groups[key := [b]];
        keys := keys + [key];
      }
      i := i + 1;
    }
    assert batches[..i] == batches;
    SectionGroupsDone(batches, groups, keys);
  }

  /** The members every object literal inherits from `Object.prototype`:
      looking one of these names up in `groupedBatches` finds the inherited
      member, which is truthy, before any group of that name exists. */
  const ObjectMembers: set<string> := {
    "constructor", "hasOwnProperty", "isPrototypeOf", "propertyIsEnumerable",
    "toLocaleString", "toString", "valueOf", "__proto__",
    "__defineGetter__", "__defineSetter__", "__lookupGetter__", "__lookupSetter__"
  }

  /** The grouping loop as written, over a plain object. For a key that names
      an inherited member, `!groupedBatches[key]` is false, so no own group is
      made, and `push` on the inherited member throws a TypeError, which ends
      the render: `thrown` reports that. The first batch with such a key
      throws, so no group of such a key is ever made. */
  method GroupBySectionAsWritten(batches: seq<Batch>) returns (thrown: bool, groups: map<string, seq<Batch>>, keys: seq<string>)
    ensures thrown <==> exists i :: 0 <= i < |batches| && SectionKey(batches[i]) in ObjectMembers
    ensures !thrown ==> forall k :: k in groups ==> groups[k] == InSection(batches, k) && groups[k] != []
    ensures !thrown ==> forall i :: 0 <= i < |batches| ==> SectionKey(batches[i]) in groups
    ensures !thrown ==> Distinct(keys) && forall k :: k in groups <==> k in keys
  {
    thrown, groups, keys := false, map[], [];
    var i := 0;
    while i < |batches|
      invariant 0 <= i <= |batches|
      invariant SectionGroupsOf(batches[..i], groups, keys)
      invariant forall j :: 0 <= j < i ==> SectionKey(batches[j]) !in ObjectMembers
    {
      var b := batches[i];
      var key := SectionKey(b);
      if key in ObjectMembers {
        thrown := true;
        return;
      }
      assert batches[..i + 1] == batches[..i] + [b];
      if key in groups {
        SectionGroupsKnown(batches[..i], b, groups, keys);
        groups := groups[key := groups[key] + [b]];
      } else {
        SectionGroupsNew(batches[..i], b, groups, keys);
        groups := groups[key := [b]];
        keys := keys + [key];
      }
      i := i + 1;
    }
    assert batches[..i] == batches;
    SectionGroupsDone(batches, groups, keys);
  }

  /** A section named "constructor" is one such key: a dashboard holding a
      batch of a product in that section throws instead of rendering. */
  lemma ConstructorSectionThrows(b: Batch)
    requires b.products.Some? && b.products.value.sections.Some?
    requires b.products.value.sections.value.name == "constructor"
    ensures SectionKey(b) in ObjectMembers
  {
  }

  /** Every batch lands in the group of its own key and in no other. */
  lemma OneSectionEach(bs: seq<Batch>, b: Batch, key: string)
    requires b in bs
    ensures b in InSection(bs, key) <==> key == SectionKey(b)
  {
  }

  /** The group sizes add up to the number of batches: grouping neither
      drops nor repeats a batch. */
  lemma {:induction false} SectionPartition(bs: seq<Batch>, keys: seq<string>)
    requires Distinct(keys)
    requires forall b :: b in bs ==> SectionKey(b) in keys
    ensures SectionSizes(bs, keys) == |bs|
  {
    if bs == [] {
      NoSections(keys);
    } else {
      var init, last := bs[..|bs| - 1], bs[|bs| - 1];
      assert bs == init + [last];
      SectionPartition(init, keys);
      SectionSizesStep(init, last, keys);
    }
  }

  lemma {:induction false} NoSections(keys: seq<string>)
    ensures SectionSizes([], keys) == 0
  {
    if keys != [] {
      NoSections(keys[1..]);
    }
  }

  /** A new batch adds one to its own group and to no other. */
  lemma {:induction false} SectionSizesStep(bs: seq<Batch>, b: Batch, keys: seq<string>)
    requires Distinct(keys)
    ensures SectionSizes(bs + [b], keys) == SectionSizes(bs, keys) + (if SectionKey(b) in keys then 1 else 0)
  {
    if keys != [] {
      FilterAppend(bs, b, BySection(keys[0]));
      assert Distinct(keys[1..]);
      SectionSizesStep(bs, b, keys[1..]);
      assert SectionKey(b) in keys <==> SectionKey(b) == keys[0] || SectionKey(b) in keys[1..];
      if SectionKey(b) == keys[0] {
        assert SectionKey(b) !in keys[1..];
      }
    }
  }

  /** `Object.keys(groupedBatches).sort()`: every section key once, in
      ascending order. */
  lemma SortedSections(keys: seq<string>)
    requires Distinct(keys)
    ensures var sections := SortStrings(keys);
      && (forall i, j :: 0 <= i < j < |sections| ==> LexLess(sections[i], sections[j]))
      && (forall k :: k in sections <==> k in keys)
      && |sections| == |keys|
  {
    SortDistinct(keys);
  }

  /** `sortedSections`: the key of every loaded batch, each once, in
      ascending order. */
  method SectionList(batches: seq<Batch>) returns (sections: seq<string>)
    ensures forall i, j :: 0 <= i < j < |sections| ==> LexLess(sections[i], sections[j])
    ensures forall k :: k in sections <==> exists i :: 0 <= i < |batches| && SectionKey(batches[i]) == k
  {
    var groups, keys := GroupBySection(batches);
    SortedSections(keys);
    sections := SortStrings(keys);
    forall k | k in sections ensures exists i :: 0 <= i < |batches| && SectionKey(batches[i]) == k {
      var x := groups[k][0];
      assert x in InSection(batches, k);
      var i :| 0 <= i < |batches| && batches[i] == x;
    }
  }

  // ---------------------------------------------------------------------
  // Grouping by product inside a section

  datatype ProductGroup = ProductGroup(name: string, batches: seq<Batch>)

  /** The name of products without one. */
  const NoName: string := "Item sem nome"

  /** `batch.products?.name || 'Item sem nome'`. */
  function ProductName(b: Batch): (n: string)
    ensures n != []
  {
    if b.products.Some? && b.products.value.name != [] then b.products.value.name else NoName
  }

  function ProductIds(bs: seq<Batch>): set<Id> {
    set b | b in bs :: b.productId
  }

  lemma ProductIdsAppend(bs: seq<Batch>, b: Batch)
    ensures ProductIds(bs + [b]) == ProductIds(bs) + {b.productId}
  {
    assert forall x :: x in bs + [b] <==> x in bs || x == b;
  }

  function ByProduct(id: Id): Batch -> bool {
    (b: Batch) => b.productId == id
  }

  /** The batches of one product group, in the order of the section group. */
  function ForProduct(bs: seq<Batch>, id: Id): seq<Batch> {
    Filter(bs, ByProduct(id))
  }

  /** The position of the first batch of a product, or `|bs|` if there is none. */
  function FirstIndex(bs: seq<Batch>, id: Id): (r: nat)
    ensures id in ProductIds(bs) ==>
      r < |bs| && bs[r].productId == id && forall q :: 0 <= q < r ==> bs[q].productId != id
    ensures id !in ProductIds(bs) ==> r == |bs|
  {
    if bs == [] then 0
    else if bs[0].productId == id then 0
    else
      assert ProductIds(bs) == ProductIds(bs[1..]) + {bs[0].productId} by {
        assert forall x :: x in bs <==> x in bs[1..] || x == bs[0];
      }
      1 + FirstIndex(bs[1..], id)
  }

  /** The product ids in the order of their first batch: the key order of
      `groupedByProduct`, whose keys are not array indices. */
  function ProductOrder(bs: seq<Batch>): (r: seq<Id>)
    ensures Distinct(r)
    ensures forall id :: id in r <==> id in ProductIds(bs)
  {
    if bs == [] then []
    else
      var init, last := bs[..|bs| - 1], bs[|bs| - 1];
      assert bs == init + [last];
      ProductIdsAppend(init, last);
      var o := ProductOrder(init);
      if last.productId in o then o else o + [last.productId]
  }

  /** The first batch of a product, if it is in `bs`, is its first batch in
      any extension of `bs`. */
  lemma FirstIndexAppend(bs: seq<Batch>, b: Batch, id: Id)
    requires id in ProductIds(bs)
    ensures FirstIndex(bs + [b], id) == FirstIndex(bs, id)
  {
    ProductIdsAppend(bs, b);
    var i, i' := FirstIndex(bs, id), FirstIndex(bs + [b], id);
    assert (bs + [b])[i] == bs[i];
  }

  /** Products appear in the order in which their first batches appear. */
  lemma {:induction false} ProductOrderByFirstBatch(bs: seq<Batch>, i: nat, j: nat)
    requires i < j < |ProductOrder(bs)|
    ensures FirstIndex(bs, ProductOrder(bs)[i]) < FirstIndex(bs, ProductOrder(bs)[j])
  {
    var init, last := bs[..|bs| - 1], bs[|bs| - 1];
    assert bs == init + [last];
    var o := ProductOrder(init);
    ProductIdsAppend(init, last);
    assert o[i] in ProductIds(init);
    FirstIndexAppend(init, last, o[i]);
    if last.productId in o || j < |o| {
      FirstIndexAppend(init, last, o[j]);
      ProductOrderByFirstBatch(init, i, j);
    } else {
      assert ProductOrder(bs)[j] == last.productId;
      assert last.productId !in ProductIds(init);
    }
  }

  /** The group of one product: named after its first batch, holding its
      batches in order. */
  function Group(bs: seq<Batch>, id: Id): ProductGroup
    requires id in ProductIds(bs)
  {
    ProductGroup(ProductName(bs[FirstIndex(bs, id)]), ForProduct(bs, id))
  }

  /** `groups` holds the product groups of `bs` and nothing else. */
  ghost predicate ProductGroupsOf(bs: seq<Batch>, groups: map<Id, ProductGroup>) {
    && (forall id :: id in groups <==> id in ProductIds(bs))
    && (forall id :: GroupAt(bs, groups, id))
  }

  /** The entry for `id`, if any, is the group of that product. */
  ghost predicate GroupAt(bs: seq<Batch>, groups: map<Id, ProductGroup>, id: Id) {
    id in groups ==> id in ProductIds(bs) && groups[id] == Group(bs, id)
  }

  /** A product already present keeps its name; only its own group grows. */
  lemma GroupKept(bs: seq<Batch>, b: Batch, id: Id)
    requires id in ProductIds(bs)
    ensures id in ProductIds(bs + [b])
    ensures Group(bs + [b], id) ==
      if id == b.productId then Group(bs, id).(batches := Group(bs, id).batches + [b]) else Group(bs, id)
  {
    ProductIdsAppend(bs, b);
    FilterAppend(bs, b, ByProduct(id));
    FirstIndexAppend(bs, b, id);
    assert (bs + [b])[FirstIndex(bs, id)] == bs[FirstIndex(bs, id)];
  }

  /** A new product's group holds just the batch that introduced it. */
  lemma GroupNew(bs: seq<Batch>, b: Batch)
    requires b.productId !in ProductIds(bs)
    ensures b.productId in ProductIds(bs + [b])
    ensures Group(bs + [b], b.productId) == ProductGroup(ProductName(b), [b])
  {
    ProductIdsAppend(bs, b);
    FilterAppend(bs, b, ByProduct(b.productId));
    FilterEmpty(bs, ByProduct(b.productId));
    assert FirstIndex(bs + [b], b.productId) == |bs|;
  }

  /** Pushing the next batch onto the existing group of its product gives
      the groups of the longer list. */
  lemma ProductGroupsKnown(bs: seq<Batch>, b: Batch, groups: map<Id, ProductGroup>)
    requires ProductGroupsOf(bs, groups) && b.productId in groups
    ensures var id := b.productId;
      ProductGroupsOf(bs + [b], groups[id := groups[id].(batches := groups[id].batches + [b])])
  {
    var pid := b.productId;
    var g := groups[pid := groups[pid].(batches := groups[pid].batches + [b])];
    ProductIdsAppend(bs, b);
    forall id ensures GroupAt(bs + [b], g, id) {
      if id in groups {
        assert GroupAt(bs, groups, id);
        GroupKept(bs, b, id);
      }
    }
  }

  /** A batch of a product with no group yet starts a group named after it. */
  lemma ProductGroupsNew(bs: seq<Batch>, b: Batch, groups: map<Id, ProductGroup>)
    requires ProductGroupsOf(bs, groups) && b.productId !in groups
    ensures ProductGroupsOf(bs + [b], groups[b.productId := ProductGroup(ProductName(b), [b])])
  {
    var g := groups[b.productId := ProductGroup(ProductName(b), [b])];
    ProductIdsAppend(bs, b);
    forall id ensures GroupAt(bs + [b], g, id) {
      if id in groups {
        assert GroupAt(bs, groups, id);
        GroupKept(bs, b, id);
      } else if id == b.productId {
        GroupNew(bs, b);
      }
    }
  }

  /** The order of first appearance grows by the next batch's product when
      that product is new. */
  lemma ProductOrderStep(bs: seq<Batch>, b: Batch)
    ensures ProductOrder(bs + [b]) ==
      if b.productId in ProductOrder(bs) then ProductOrder(bs) else ProductOrder(bs) + [b.productId]
  {
    var s := bs + [b];
    assert s[..|s| - 1] == bs;
  }

  /** The loop that fills `groupedByProduct`: one group per product id in
      the order of first appearance, named after its first batch. */
  method GroupByProduct(batches: seq<Batch>) returns (groups: map<Id, ProductGroup>, ids: seq<Id>)
    ensures ids == ProductOrder(batches)
    ensures forall id :: id in groups <==> id in ids
    ensures forall id :: id in groups ==>
      groups[id] == ProductGroup(ProductName(batches[FirstIndex(batches, id)]), ForProduct(batches, id))
  {
    groups, ids := map[], [];
    var i := 0;
    while i < |batches|
      invariant 0 <= i <= |batches|
      invariant ids == ProductOrder(batches[..i])
      invariant ProductGroupsOf(batches[..i], groups)
    {
      var b := batches[i];
      assert batches[..i + 1] == batches[..i] + [b];
      ProductOrderStep(batches[..i], b);
      if b.productId in groups {
        ProductGroupsKnown(batches[..i], b, groups);
        groups := groups[b.productId := groups[b.productId].(batches := groups[b.productId].batches + [b])];
      } else {
        ProductGroupsNew(batches[..i], b, groups);
        groups := groups[b.productId := ProductGroup(ProductName(b), [b])];
        ids := ids + [b.productId];
      }
      i := i + 1;
    }
    assert batches[..i] == batches;
    forall id | id in groups
      ensures groups[id] == ProductGroup(ProductName(batches[FirstIndex(batches, id)]), ForProduct(batches, id))
    {
      assert GroupAt(batches, groups, id);
    }
  }

  /** `SectionGroup`: nothing for an empty section; otherwise the product
      groups, in the order of their first batches. */
  method SectionGroup(batches: seq<Batch>) returns (view: Option<seq<ProductGroup>>)
    ensures view.None? <==> batches == []
    ensures view.Some? ==>
      var order := ProductOrder(batches);
      && |view.value| == |order|
      && forall k :: 0 <= k < |order| ==>
           view.value[k] == ProductGroup(ProductName(batches[FirstIndex(batches, order[k])]), ForProduct(batches, order[k]))
  {
    if |batches| == 0 {
      return None;
    }
    var groups, ids := GroupByProduct(batches);
    view := Some(seq(|ids|, k requires 0 <= k < |ids| => groups[ids[k]]));
  }

  /** A product group is never empty and its first batch names it. */
  lemma ProductGroupNamed(bs: seq<Batch>, id: Id)
    requires id in ProductIds(bs)
    ensures var g := ForProduct(bs, id);
      g != [] && ProductName(g[0]) == ProductName(bs[FirstIndex(bs, id)])
  {
    var i := FirstIndex(bs, id);
    var g := ForProduct(bs, id);
    assert bs[i] in g;
    FirstOfFilter(bs, id, i);
  }

  lemma {:induction false} FirstOfFilter(bs: seq<Batch>, id: Id, i: nat)
    requires i < |bs| && bs[i].productId == id && forall q :: 0 <= q < i ==> bs[q].productId != id
    ensures ForProduct(bs, id) != [] && ForProduct(bs, id)[0] == bs[i]
  {
    var init, last := bs[..|bs| - 1], bs[|bs| - 1];
    assert bs == init + [last];
    FilterAppend(init, last, ByProduct(id));
    if i < |init| {
      FirstOfFilter(init, id, i);
    } else {
      forall b | b in init ensures b.productId != id {
        var q :| 0 <= q < |init| && init[q] == b;
        assert bs[q] == b;
      }
      FilterEmpty(init, ByProduct(id));
    }
  }

  /** Groups of an expiration-ascending list are expiration-ascending. */
  lemma GroupsSorted(bs: seq<Batch>, key: string, id: Id)
    requires SortedByExpiry(bs)
    ensures SortedByExpiry(InSection(bs, key))
    ensures SortedByExpiry(ForProduct(InSection(bs, key), id))
  {
    FilterSorted(bs, BySection(key));
    FilterSorted(InSection(bs, key), ByProduct(id));
  }

  // ---------------------------------------------------------------------
  // The distinct-product count

  /** `new Set(batches.map(b => b.product_id)).size`. */
  function TotalProducts(bs: seq<Batch>): nat {
    |ProductIds(bs)|
  }

  /** The count is the number of product groups, and never exceeds the
      number of batches. */
  lemma {:induction false} TotalProductsCount(bs: seq<Batch>)
    ensures TotalProducts(bs) == |ProductOrder(bs)| <= |bs|
  {
    if bs != [] {
      var init, last := bs[..|bs| - 1], bs[|bs| - 1];
      assert bs == init + [last];
      ProductIdsAppend(init, last);
      TotalProductsCount(init);
      if last.productId !in ProductIds(init) {
        assert |ProductIds(init) + {last.productId}| == |ProductIds(init)| + 1;
      }
    }
  }
}
