/** The product card of src/components/batches/ProductGroupCard.tsx: the
    quantity total, the batch-count label, the expiry markers of its batches
    and the quick-add form that adds a batch to the product. */
module ProductGroupCard {
  import opened Wrappers
  import opened DatabaseTypes
  import opened BatchService
  import Dashboard

  /** `batches.reduce((acc, b) => acc + b.quantity, 0)`. */
  function TotalQuantity(bs: seq<Batch>): int {
    if bs == [] then 0 else TotalQuantity(bs[..|bs| - 1]) + bs[|bs| - 1].quantity
  }

  /** The total of two lists laid end to end is the sum of their totals. */
  lemma {:induction false} TotalQuantityAppend(a: seq<Batch>, b: seq<Batch>)
    ensures TotalQuantity(a + b) == TotalQuantity(a) + TotalQuantity(b)
    decreases |b|
  {
    if b == [] {
      assert a + b == a;
    } else {
      var init := b[..|b| - 1];
      assert (a + b)[..|a + b| - 1] == a + init;
      TotalQuantityAppend(a, init);
    }
  }

  /** With no negative quantities the total is not negative, and it is at
      least the quantity of every single batch. */
  lemma {:induction false} TotalQuantityBounds(bs: seq<Batch>)
    requires forall i :: 0 <= i < |bs| ==> bs[i].quantity >= 0
    ensures TotalQuantity(bs) >= 0
    ensures forall i :: 0 <= i < |bs| ==> bs[i].quantity <= TotalQuantity(bs)
  {
    if bs != [] {
      var init := bs[..|bs| - 1];
      TotalQuantityBounds(init);
      forall i | 0 <= i < |bs| ensures bs[i].quantity <= TotalQuantity(bs) {
        if i < |init| {
          assert bs[i] == init[i];
        }
      }
    }
  }

  /** The word after the batch count. */
  function LotLabel(n: nat): (word: string)
    ensures word == "Lote" <==> n == 1
    ensures word == "Lote" || word == "Lotes"
  {
    if n == 1 then "Lote" else "Lotes"
  }

  /** One marker per listed batch, in order: red when it expires within
      three days. */
  function Markers(bs: seq<Batch>, now: int): (m: seq<bool>)
    ensures |m| == |bs|
  {
    seq(|bs|, i requires 0 <= i < |bs| => ExpiresSoon(bs[i].expiresAt, now))
  }

  /** A card marks a batch red exactly when the dashboard lists that batch
      among the critical ones, and exactly when it has at most three days left. */
  lemma MarkersAgreeWithDashboard(all: seq<Batch>, bs: seq<Batch>, now: int)
    requires forall b :: b in bs ==> b in all
    ensures forall i :: 0 <= i < |bs| ==>
      (Markers(bs, now)[i] <==> bs[i] in Dashboard.Critical(all, now))
      && (Markers(bs, now)[i] <==> DaysRemaining(bs[i].expiresAt, now) <= 3)
  {
    Dashboard.CriticalIsExpiring(all, now);
  }

  /** The request the form hands to `onAddBatch`. */
  datatype AddRequest = AddRequest(productId: Id, quantity: int, date: string)

  /** The quick-add form of one product card. */
  class QuickAdd {
    const productId: Id
    var isAdding: bool
    var newQty: int
    var newDate: string
    var loading: bool

    constructor (productId: Id)
      ensures this.productId == productId
      ensures !isAdding && newQty == 0 && newDate == "" && !loading
    {
      this.productId := productId;
      isAdding, newQty, newDate, loading := false, 0, "", false;
    }

    /** The guard of `handleSave`: a positive quantity and a date. */
    predicate CanSave()
      reads this
    {
      newQty > 0 && newDate != ""
    }

    /** `disabled={loading || newQty <= 0 || !newDate}` of the Confirm button. */
    predicate ConfirmDisabled()
      reads this
    {
      loading || newQty <= 0 || newDate == ""
    }

    /** The Confirm button is enabled exactly when it is not loading and
        `handleSave` would pass its guard. */
    lemma ConfirmMatchesGuard()
      ensures ConfirmDisabled() <==> loading || !CanSave()
    {
    }

    /** The toggle button. */
    method Toggle()
      modifies this
      ensures isAdding == !old(isAdding)
      ensures newQty == old(newQty) && newDate == old(newDate) && loading == old(loading)
    {
      isAdding := !isAdding;
    }

    /** The Cancel button: closes the form and keeps what was typed. */
    method Cancel()
      modifies this
      ensures !isAdding
      ensures newQty == old(newQty) && newDate == old(newDate) && loading == old(loading)
    {
      isAdding := false;
    }

    /** `handleSave`. `succeeds` is the outcome of the `onAddBatch` call,
        which the card awaits. Returns the request made, if any. */
    method HandleSave(succeeds: bool) returns (request: Option<AddRequest>)
      modifies this
      ensures !old(CanSave()) ==>
        request == None && isAdding == old(isAdding) && newQty == old(newQty)
        && newDate == old(newDate) && loading == old(loading)
      ensures old(CanSave()) ==> request == Some(AddRequest(productId, old(newQty), old(newDate))) && !loading
      ensures old(CanSave()) && succeeds ==> !isAdding && newQty == 0 && newDate == ""
      ensures old(CanSave()) && !succeeds ==>
        isAdding == old(isAdding) && newQty == old(newQty) && newDate == old(newDate)
    {
      if newQty <= 0 || newDate == "" {
        return None;
      }
      loading := true;
      request := Some(AddRequest(productId, newQty, newDate));
      if succeeds {
        isAdding := false;
        newQty := 0;
        newDate := "";
      }
      loading := false;
    }
  }
}
