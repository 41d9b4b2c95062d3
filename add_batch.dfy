/** The form of src/pages/AddBatch.tsx that registers one batch: the
    quantity step buttons, the product suggestions that follow the section
    field, and the submit handler that calls `createBatch`. */
module AddBatch {
  import opened Wrappers
  import opened Text
  import opened Decimal
  import opened DatabaseTypes
  import opened BatchService
  import opened QuantityInput

  const FillAll: string := "Preencha todos os campos"
  const SaveFailed: string := "Erro ao salvar. Tente novamente."

  /** Text the quantity field can hold: empty, or an integer. */
  predicate QuantityText(q: string) {
    q == "" || IsIntText(q)
  }

  /** The −6 and −12 buttons: `Math.max(0, parseInt(quantity || '0') - k).toString()`. */
  function StepDown(q: string, k: int): string
    requires QuantityText(q)
  {
    IntToString(HandleAdd(ParseTyped(q), -k))
  }

  /** The +6 and +12 buttons: `(parseInt(quantity || '0') + k).toString()`. */
  function StepUp(q: string, k: int): string
    requires QuantityText(q)
  {
    IntToString(ParseTyped(q) + k)
  }

  /** Stepping down gives integer text whose value is the old value less
      `k`, but never below zero. */
  lemma StepDownValue(q: string, k: int)
    requires QuantityText(q)
    ensures IsIntText(StepDown(q, k))
    ensures ParseTyped(StepDown(q, k)) >= 0
    ensures ParseTyped(StepDown(q, k)) == if ParseTyped(q) - k >= 0 then ParseTyped(q) - k else 0
  {
    TypedNotClamped(HandleAdd(ParseTyped(q), -k));
  }

  /** Stepping up gives integer text whose value is the old value plus `k`. */
  lemma StepUpValue(q: string, k: int)
    requires QuantityText(q)
    ensures IsIntText(StepUp(q, k))
    ensures ParseTyped(StepUp(q, k)) == ParseTyped(q) + k
  {
    TypedNotClamped(ParseTyped(q) + k);
  }

  /** An empty quantity steps as zero does. */
  lemma EmptyStepsAsZero(k: int)
    ensures StepDown("", k) == StepDown("0", k)
    ensures StepUp("", k) == StepUp("0", k)
  {
    assert ParseTyped("0") == 0 by {
      assert DigitsValue("0"[..0]) == 0;
    }
  }

  /** `existingSections.find(s => s.name === section)`: the first section
      whose name is exactly the text, case included. */
  function FindExact(ss: seq<Section>, name: string): (r: Option<Section>)
    ensures r.Some? ==> r.value in ss && r.value.name == name
    ensures r.Some? ==> exists i :: 0 <= i < |ss| && ss[i] == r.value && forall j :: 0 <= j < i ==> ss[j].name != name
    ensures r.None? ==> forall s :: s in ss ==> s.name != name
  {
    if ss == [] then None
    else if ss[0].name == name then Some(ss[0])
    else
      var r := FindExact(ss[1..], name);
      assert r.Some? ==> exists i :: 0 < i < |ss| && ss[i] == r.value && forall j :: 0 <= j < i ==> ss[j].name != name by {
        if r.Some? {
          var i :| 0 <= i < |ss[1..]| && ss[1..][i] == r.value && forall j :: 0 <= j < i ==> ss[1..][j].name != name;
          assert forall j :: 0 <= j < i + 1 ==> ss[j].name != name by {
            forall j | 0 <= j < i + 1 ensures ss[j].name != name {
              if j > 0 { assert ss[j] == ss[1..][j - 1]; }
            }
          }
          assert ss[i + 1] == r.value;
        }
      }
      r
  }

  class AddBatchForm {
    var loading: bool
    var error: Option<string>
    var section: string
    var name: string
    var quantity: string
    var date: string
    var existingSections: seq<Section>
    var suggested: seq<Product>

    ghost predicate Valid()
      reads this
    {
      QuantityText(quantity)
    }

    constructor ()
      ensures Valid()
      ensures !loading && error == None
      ensures section == "" && name == "" && quantity == "" && date == ""
      ensures existingSections == [] && suggested == []
    {
      loading, error := false, None;
      section, name, quantity, date := "", "", "", "";
      existingSections, suggested := [], [];
    }

    /** The mount effect: `getSections().then(setExistingSections)`. */
    method LoadSections(store: Store)
      modifies this
      ensures !store.signedIn ==> existingSections == []
      ensures store.signedIn ==>
        SortedByKey(existingSections, NameOfSection) && multiset(existingSections) == multiset(store.sections)
      ensures loading == old(loading) && error == old(error) && suggested == old(suggested)
      ensures section == old(section) && name == old(name) && quantity == old(quantity) && date == old(date)
    {
      existingSections := store.GetSections();
    }

    /** The effect on `[section, existingSections]`: no suggestions for an
        empty section; the products of the section whose name is exactly the
        text; otherwise the suggestions are left as they are. */
    method SectionChanged(store: Store)
      modifies this
      ensures section == "" ==> suggested == []
      ensures section != "" && FindExact(existingSections, section).None? ==> suggested == old(suggested)
      ensures section != "" && FindExact(existingSections, section).Some? ==>
        var sid := FindExact(existingSections, section).value.id;
        SortedByKey(suggested, NameOfProduct)
        && (forall p :: p in suggested <==> p in store.products && p.sectionId == Some(sid))
        && multiset(suggested) == multiset(ProductsIn(store.products, sid))
      ensures loading == old(loading) && error == old(error) && existingSections == old(existingSections)
      ensures section == old(section) && name == old(name) && quantity == old(quantity) && date == old(date)
    {
      if section == "" {
        suggested := [];
        return;
      }
      var found := FindExact(existingSections, section);
      if found.Some? {
        suggested := store.GetProductsBySection(found.value.id);
      }
    }

    /** `handleSubmit`: with any field empty, reports it and does nothing
        else; otherwise calls `createBatch` with the section and product
        exactly as typed, and navigates away on success or reports the
        failure. Returns whether it navigated. */
    method HandleSubmit(store: Store, expiresAt: int) returns (navigated: bool)
      requires Valid() && store.Valid()
      modifies this, store
      ensures Valid() && store.Valid()
      ensures section == old(section) && name == old(name) && quantity == old(quantity) && date == old(date)
      ensures existingSections == old(existingSections) && suggested == old(suggested)
      ensures old(section == "" || name == "" || quantity == "" || date == "") ==>
        && error == Some(FillAll) && !navigated && loading == old(loading)
        && store.sections == old(store.sections) && store.products == old(store.products)
        && store.batches == old(store.batches)
      ensures old(section != "" && name != "" && quantity != "" && date != "") ==>
        && !loading
        && (navigated <==> old(store.signedIn))
        && (navigated ==> error == None)
        && (!navigated ==> error == Some(SaveFailed))
      ensures old(section != "" && name != "" && quantity != "" && date != "") && navigated ==>
        && SectionIdFor(store.sections, section).Some?
        && var sid := SectionIdFor(store.sections, section).value;
        ProductIdFor(store.products, sid, name).Some?
        && |store.batches| == |old(store.batches)| + 1
        && store.batches[..|old(store.batches)|] == old(store.batches)
        && var b := store.batches[|old(store.batches)|];
        b.productId == ProductIdFor(store.products, sid, name).value
        && b.quantity == ParseInt(quantity) && b.expirationDate == date && b.expiresAt == expiresAt
        && b.status == Active
      ensures old(section != "" && name != "" && quantity != "" && date != "") && !navigated ==>
        store.sections == old(store.sections) && store.products == old(store.products)
        && store.batches == old(store.batches)
    {
      if section == "" || name == "" || quantity == "" || date == "" {
        error := Some(FillAll);
        return false;
      }
      loading := true;
      error := None;
      var outcome := store.CreateBatch(section, name, ParseInt(quantity), date, expiresAt);
      if outcome.Pass? {
        navigated := true;
      } else {
        error := Some(SaveFailed);
        navigated := false;
      }
      loading := false;
    }
  }
}
