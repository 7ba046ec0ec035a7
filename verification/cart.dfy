/**
 * The shopping cart: adding a product from its card (divert, merge or
 * insert), the quantity buttons and removal of a cart line, the user-scoped
 * cart fetch, and the total as a fold over the fetched lines.
 */
module Cart {
  import opened Common
  import opened Catalog

  /** A `cart_items` row. */
  datatype CartRow = CartRow(id: Id, userId: Id, productId: Id, quantity: int)

  predicate AllPositive(rows: seq<CartRow>) {
    forall i :: 0 <= i < |rows| ==> rows[i].quantity >= 1
  }

  predicate UniqueIds(rows: seq<CartRow>) {
    forall i, j :: 0 <= i < j < |rows| ==> rows[i].id != rows[j].id
  }

  function PairOf(user: Id, product: Id): CartRow -> bool {
    (r: CartRow) => r.userId == user && r.productId == product
  }

  /** The rows the existing-item lookup selects for a user and a product. */
  function PairRows(rows: seq<CartRow>, user: Id, product: Id): seq<CartRow> {
    Filter(rows, PairOf(user, product))
  }

  /** `update({quantity: q}).eq('id', id)`: every row with that id gets quantity `q`. */
  function SetQuantity(rows: seq<CartRow>, id: Id, q: int): (r: seq<CartRow>)
    ensures |r| == |rows|
    ensures forall i :: 0 <= i < |rows| ==> r[i] == if rows[i].id == id then rows[i].(quantity := q) else rows[i]
  {
    seq(|rows|, i requires 0 <= i < |rows| => if rows[i].id == id then rows[i].(quantity := q) else rows[i])
  }

  function OtherRow(id: Id): CartRow -> bool {
    (r: CartRow) => r.id != id
  }

  /** `delete().eq('id', id)`. */
  function DeleteRow(rows: seq<CartRow>, id: Id): (r: seq<CartRow>)
    ensures forall x :: x in r <==> x in rows && x.id != id
    ensures multiset(r) <= multiset(rows)
  {
    Filter(rows, OtherRow(id))
  }

  // ---------------------------------------------------------------------
  // Adding from a product card
  // ---------------------------------------------------------------------

  /** The navigation state handed to the prescription page. */
  datatype PrescriptionRequest = PrescriptionRequest(productId: Id, productName: string, price: int)

  datatype AddOutcome =
    | AddLoginRequired
    | AddNeedsPrescription(request: PrescriptionRequest)
    | Merged
    | Inserted
    | AddFailed

  datatype AddResult = AddResult(outcome: AddOutcome, rows: seq<CartRow>, navigate: Option<Path>)

  /**
   * `handleAddToCart`. The existing-item lookup is a `.single()`, so it finds
   * a row only when exactly one matches; otherwise a new row is inserted.
   * `lookupOk` is whether that read got an answer at all: its error is never
   * checked, so a failed read also takes the insert branch. `writeOk` is the
   * reply of the one write the step makes.
   */
  function AddToCart(rows: seq<CartRow>, session: Option<Id>, p: Product, freshId: Id, lookupOk: bool,
                     writeOk: bool): (r: AddResult)
    ensures session.None? ==> r == AddResult(AddLoginRequired, rows, Some(AuthPage))
    ensures session.Some? && p.prescriptionRequired ==>
      r == AddResult(AddNeedsPrescription(PrescriptionRequest(p.id, p.name, p.price)), rows, Some(PrescriptionPage))
    ensures session.Some? && !p.prescriptionRequired ==> r.navigate.None?
    ensures r.outcome == Merged <==>
      session.Some? && !p.prescriptionRequired && lookupOk && |PairRows(rows, session.value, p.id)| == 1 && writeOk
    ensures r.outcome == Merged ==>
      var e := PairRows(rows, session.value, p.id)[0];
      r.rows == SetQuantity(rows, e.id, e.quantity + 1)
    ensures r.outcome == Inserted <==>
      session.Some? && !p.prescriptionRequired && !(lookupOk && |PairRows(rows, session.value, p.id)| == 1) && writeOk
    ensures r.outcome == Inserted ==> r.rows == rows + [CartRow(freshId, session.value, p.id, 1)]
    ensures r.outcome != Merged && r.outcome != Inserted ==> r.rows == rows
  {
    match session
    case None => AddResult(AddLoginRequired, rows, Some(AuthPage))
    case Some(uid) =>
      if p.prescriptionRequired then
        AddResult(AddNeedsPrescription(PrescriptionRequest(p.id, p.name, p.price)), rows, Some(PrescriptionPage))
      else
        var existing := if lookupOk then PairRows(rows, uid, p.id) else [];
        if !writeOk then AddResult(AddFailed, rows, None)
        else if |existing| == 1 then AddResult(Merged, SetQuantity(rows, existing[0].id, existing[0].quantity + 1), None)
        else AddResult(Inserted, rows + [CartRow(freshId, uid, p.id, 1)], None)
  }

  /** A merge raises the matched row by exactly one and, with unique ids, touches no other row. */
  lemma MergeChangesOneRow(rows: seq<CartRow>, uid: Id, p: Product, freshId: Id, lookupOk: bool)
    requires UniqueIds(rows)
    requires AddToCart(rows, Some(uid), p, freshId, lookupOk, true).outcome == Merged
    ensures var e := PairRows(rows, uid, p.id)[0];
      var after := AddToCart(rows, Some(uid), p, freshId, lookupOk, true).rows;
      |after| == |rows| &&
      exists k :: 0 <= k < |rows| && rows[k] == e && after[k] == e.(quantity := e.quantity + 1) &&
        forall i :: 0 <= i < |rows| && i != k ==> after[i] == rows[i]
  {
    var e := PairRows(rows, uid, p.id)[0];
    assert e in PairRows(rows, uid, p.id);
    var k :| 0 <= k < |rows| && rows[k] == e;
  }

  /** After a successful add the user holds a row for the product with a positive quantity. */
  lemma AddedPairIsPresent(rows: seq<CartRow>, uid: Id, p: Product, freshId: Id, lookupOk: bool)
    requires AllPositive(rows)
    requires AddToCart(rows, Some(uid), p, freshId, lookupOk, true).outcome in {Merged, Inserted}
    ensures var after := AddToCart(rows, Some(uid), p, freshId, lookupOk, true).rows;
      exists i :: 0 <= i < |after| && after[i].userId == uid && after[i].productId == p.id && after[i].quantity >= 1
  {
    var after := AddToCart(rows, Some(uid), p, freshId, lookupOk, true).rows;
    var m := PairRows(rows, uid, p.id);
    if lookupOk && |m| == 1 {
      var e := m[0];
      assert e in m;
      var k :| 0 <= k < |rows| && rows[k] == e;
      assert after[k].userId == uid && after[k].productId == p.id && after[k].quantity >= 1;
    } else {
      assert after[|rows|] == CartRow(freshId, uid, p.id, 1);
    }
  }

  /** Appending a line for a user and a product adds one to that pair's rows. */
  lemma AppendedLineIsAnotherPair(cart: seq<CartRow>, freshId: Id, uid: Id, pid: Id)
    ensures |PairRows(cart + [CartRow(freshId, uid, pid, 1)], uid, pid)| == |PairRows(cart, uid, pid)| + 1
  {
    var line := CartRow(freshId, uid, pid, 1);
    FilterConcat(cart, [line], PairOf(uid, pid));
    assert [line][1..] == [];
    assert Filter([line], PairOf(uid, pid)) == [line];
  }

  /**
   * A failed existing-line lookup is read as "no line yet", so a user who
   * already holds one line for the product ends up with two.
   */
  lemma FailedLookupAddsSecondLine(rows: seq<CartRow>, uid: Id, p: Product, freshId: Id)
    requires !p.prescriptionRequired && |PairRows(rows, uid, p.id)| == 1
    ensures var r := AddToCart(rows, Some(uid), p, freshId, false, true);
      r.outcome == Inserted && |PairRows(r.rows, uid, p.id)| == 2
  {
    AppendedLineIsAnotherPair(rows, freshId, uid, p.id);
  }

  /** Adding keeps every quantity positive and, with a fresh id, the ids unique. */
  lemma AddPreservesInvariants(rows: seq<CartRow>, session: Option<Id>, p: Product, freshId: Id, lookupOk: bool,
                               ok: bool)
    requires AllPositive(rows) && UniqueIds(rows)
    requires forall i :: 0 <= i < |rows| ==> rows[i].id != freshId
    ensures AllPositive(AddToCart(rows, session, p, freshId, lookupOk, ok).rows)
    ensures UniqueIds(AddToCart(rows, session, p, freshId, lookupOk, ok).rows)
  {
    var r := AddToCart(rows, session, p, freshId, lookupOk, ok);
    if r.outcome == Merged {
      var m := PairRows(rows, session.value, p.id);
      assert m[0] in m;
      SetQuantityKeepsInvariants(rows, m[0].id, m[0].quantity + 1);
    } else if r.outcome == Inserted {
      AppendFreshKeepsInvariants(rows, CartRow(freshId, session.value, p.id, 1));
    }
  }

  lemma SetQuantityKeepsInvariants(rows: seq<CartRow>, id: Id, q: int)
    requires AllPositive(rows) && UniqueIds(rows) && q >= 1
    ensures AllPositive(SetQuantity(rows, id, q)) && UniqueIds(SetQuantity(rows, id, q))
  {
  }

  lemma AppendFreshKeepsInvariants(rows: seq<CartRow>, row: CartRow)
    requires AllPositive(rows) && UniqueIds(rows) && row.quantity >= 1
    requires forall i :: 0 <= i < |rows| ==> rows[i].id != row.id
    ensures AllPositive(rows + [row]) && UniqueIds(rows + [row])
  {
  }

  // ---------------------------------------------------------------------
  // The quantity buttons of a cart line
  // ---------------------------------------------------------------------

  datatype QuantityOutcome = RowRemoved | QuantitySet | QuantityFailed

  datatype QuantityResult = QuantityResult(outcome: QuantityOutcome, rows: seq<CartRow>)

  /** `removeFromCart` for the line `id`. */
  function RemoveFromCart(rows: seq<CartRow>, id: Id, ok: bool): (r: QuantityResult)
    ensures !ok ==> r == QuantityResult(QuantityFailed, rows)
    ensures ok ==> r.outcome == RowRemoved && r.rows == DeleteRow(rows, id)
  {
    if ok then QuantityResult(RowRemoved, DeleteRow(rows, id)) else QuantityResult(QuantityFailed, rows)
  }

  /** `updateQuantity`: a request below 1 removes the line instead of storing it. */
  function UpdateQuantity(rows: seq<CartRow>, id: Id, q: int, ok: bool): (r: QuantityResult)
    ensures q < 1 ==> r == RemoveFromCart(rows, id, ok)
    ensures q >= 1 && ok ==> r == QuantityResult(QuantitySet, SetQuantity(rows, id, q))
    ensures !ok ==> r.rows == rows
    ensures r.outcome == QuantitySet ==> q >= 1
  {
    if q < 1 then RemoveFromCart(rows, id, ok)
    else if ok then QuantityResult(QuantitySet, SetQuantity(rows, id, q))
    else QuantityResult(QuantityFailed, rows)
  }

  datatype Click = MinusClick | PlusClick

  /** The quantity a button requests, from the quantity the line shows. */
  function Requested(c: Click, shown: int): int {
    match c
    case MinusClick => shown - 1
    case PlusClick => shown + 1
  }

  /** A stored quantity never becomes zero or negative: it stays at least 1 or the line goes. */
  lemma UpdateKeepsQuantitiesPositive(rows: seq<CartRow>, id: Id, q: int, ok: bool)
    requires AllPositive(rows)
    ensures AllPositive(UpdateQuantity(rows, id, q, ok).rows)
  {
    var after := UpdateQuantity(rows, id, q, ok).rows;
    if q < 1 && ok {
      forall i | 0 <= i < |after| ensures after[i].quantity >= 1 {
        assert after[i] in rows;
      }
    }
  }

  /**
   * The line `id` after a sequence of button clicks, each of which reads the
   * quantity the line currently shows (the page refetches after every write).
   */
  function ApplyClicks(rows: seq<CartRow>, id: Id, clicks: seq<Click>, ok: seq<bool>): seq<CartRow>
    requires |ok| == |clicks|
    decreases |clicks|
  {
    if |clicks| == 0 then rows
    else
      var line := Filter(rows, (r: CartRow) => r.id == id);
      var next := if |line| == 0 then rows else UpdateQuantity(rows, id, Requested(clicks[0], line[0].quantity), ok[0]).rows;
      ApplyClicks(next, id, clicks[1..], ok[1..])
  }

  /** Any sequence of clicks, successful or not, keeps every stored quantity at least 1. */
  lemma {:induction false} ClicksKeepQuantitiesPositive(rows: seq<CartRow>, id: Id, clicks: seq<Click>, ok: seq<bool>)
    requires |ok| == |clicks|
    requires AllPositive(rows)
    ensures AllPositive(ApplyClicks(rows, id, clicks, ok))
    decreases |clicks|
  {
    if |clicks| > 0 {
      var line := Filter(rows, (r: CartRow) => r.id == id);
      if |line| > 0 {
        UpdateKeepsQuantitiesPositive(rows, id, Requested(clicks[0], line[0].quantity), ok[0]);
      }
      var next := if |line| == 0 then rows else UpdateQuantity(rows, id, Requested(clicks[0], line[0].quantity), ok[0]).rows;
      ClicksKeepQuantitiesPositive(next, id, clicks[1..], ok[1..]);
    }
  }

  /** Minus on a line showing 1 removes it; on a larger quantity it lowers it by one. */
  lemma MinusAtOneRemoves(rows: seq<CartRow>, line: CartRow)
    requires line in rows
    ensures line.quantity == 1 ==>
      UpdateQuantity(rows, line.id, Requested(MinusClick, line.quantity), true).rows == DeleteRow(rows, line.id)
    ensures line.quantity > 1 ==>
      UpdateQuantity(rows, line.id, Requested(MinusClick, line.quantity), true).rows == SetQuantity(rows, line.id, line.quantity - 1)
  {
  }

  // ---------------------------------------------------------------------
  // The cart page
  // ---------------------------------------------------------------------

  function OwnedBy(uid: Id): CartRow -> bool {
    (r: CartRow) => r.userId == uid
  }

  /** The cart fetch `.eq('user_id', uid)`. */
  function UserRows(rows: seq<CartRow>, uid: Id): (r: seq<CartRow>)
    ensures forall x :: x in r <==> x in rows && x.userId == uid
  {
    Filter(rows, OwnedBy(uid))
  }

  /** Every line's product is known, so the fold can read its price. */
  predicate Priced(lines: seq<CartRow>, prices: map<Id, int>) {
    forall i :: 0 <= i < |lines| ==> lines[i].productId in prices
  }

  /** Σ price × quantity, folded from the left as `reduce` does. */
  function Total(lines: seq<CartRow>, prices: map<Id, int>): (r: int)
    requires Priced(lines, prices)
    ensures AllPositive(lines) && (forall k :: k in prices ==> prices[k] >= 0) ==> r >= 0
    decreases |lines|
  {
    if |lines| == 0 then 0
    else
      var last := lines[|lines| - 1];
      Total(lines[..|lines| - 1], prices) + prices[last.productId] * last.quantity
  }

  /** The total of two carts laid end to end is the sum of their totals. */
  lemma {:induction false} TotalConcat(a: seq<CartRow>, b: seq<CartRow>, prices: map<Id, int>)
    requires Priced(a, prices) && Priced(b, prices)
    ensures Priced(a + b, prices)
    ensures Total(a + b, prices) == Total(a, prices) + Total(b, prices)
    decreases |b|
  {
    assert Priced(a + b, prices) by {
      forall i | 0 <= i < |a + b| ensures (a + b)[i].productId in prices {
        if i >= |a| { assert (a + b)[i] == b[i - |a|]; }
      }
    }
    if |b| > 0 {
      var b' := b[..|b| - 1];
      assert (a + b)[..|a + b| - 1] == a + b';
      assert Priced(b', prices) by {
        forall i | 0 <= i < |b'| ensures b'[i].productId in prices { assert b'[i] == b[i]; }
      }
      TotalConcat(a, b', prices);
    } else {
      assert a + b == a;
    }
  }

  /** With non-negative prices and positive quantities the total is never negative. */
  lemma {:induction false} TotalNonNegative(lines: seq<CartRow>, prices: map<Id, int>)
    requires Priced(lines, prices) && AllPositive(lines)
    requires forall k :: k in prices ==> prices[k] >= 0
    ensures Total(lines, prices) >= 0
    decreases |lines|
  {
    if |lines| > 0 {
      var init := lines[..|lines| - 1];
      assert Priced(init, prices) && AllPositive(init) by {
        forall i | 0 <= i < |init| ensures init[i] == lines[i] { }
      }
      TotalNonNegative(init, prices);
    }
  }

  /** The loop the page runs, computing the fold. */
  method ComputeTotal(lines: seq<CartRow>, prices: map<Id, int>) returns (sum: int)
    requires Priced(lines, prices)
    ensures sum == Total(lines, prices)
  {
    sum := 0;
    var i := 0;
    while i < |lines|
      invariant 0 <= i <= |lines|
      invariant Priced(lines[..i], prices)
      invariant sum == Total(lines[..i], prices)
    {
      assert lines[..i + 1][..i] == lines[..i];
      sum := sum + prices[lines[i].productId] * lines[i].quantity;
      i := i + 1;
    }
    assert lines[..|lines|] == lines;
  }

  datatype CartPageState = CartPageState(loading: bool, items: seq<CartRow>, total: int)

  const InitialCartPage := CartPageState(true, [], 0)

  datatype CartFetch = CartFetch(state: CartPageState, navigate: Option<Path>)

  /**
   * `fetchCartItems`. `store` is the cart table (None when the query fails).
   * The lines are stored before the total is folded; when a line's product is
   * missing the fold throws and the previous total stays. The `finally`
   * ends loading on every path, the early return without a session included.
   */
  function FetchCart(s: CartPageState, session: Option<Id>, store: Option<seq<CartRow>>, prices: map<Id, int>): (r: CartFetch)
    ensures !r.state.loading
    ensures session.None? ==> r == CartFetch(s.(loading := false), Some(AuthPage))
    ensures session.Some? ==> r.navigate.None?
    ensures session.Some? && store.None? ==> r.state.items == s.items && r.state.total == s.total
    ensures session.Some? && store.Some? ==>
      (forall x :: x in r.state.items <==> x in store.value && x.userId == session.value) &&
      (Priced(r.state.items, prices) ==> r.state.total == Total(r.state.items, prices)) &&
      (!Priced(r.state.items, prices) ==> r.state.total == s.total)
    ensures session.Some? && store.Some? && r.state.items == [] ==> r.state.total == 0
  {
    match session
    case None => CartFetch(s.(loading := false), Some(AuthPage))
    case Some(uid) =>
      match store
      case None => CartFetch(s.(loading := false), None)
      case Some(rows) =>
        var items := UserRows(rows, uid);
        var total := if Priced(items, prices) then Total(items, prices) else s.total;
        CartFetch(CartPageState(false, items, total), None)
  }

  /** The cart page never shows another user's line. */
  lemma CartIsUserScoped(s: CartPageState, uid: Id, rows: seq<CartRow>, prices: map<Id, int>, other: Id)
    requires other != uid
    ensures forall x :: x in FetchCart(s, Some(uid), Some(rows), prices).state.items ==> x.userId != other
  {
  }
}
