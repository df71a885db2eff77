/** The browser cart (`CartService`): a live list of cart lines, a flag that
    says whether the list has been read from storage, and one persisted
    `localStorage` slot under the key `eternal_bears_cart`. Every operation is
    specified by a function on a `CartState` value; the `CartService` class
    carries the same state in fields and its methods are proved to move it
    exactly as those functions say. JSON (de)serialisation of the slot is
    taken to be an identity round trip, and the JavaScript availability probe
    is the `jsAvailable` capability. */
module Cart {
  import opened Common

  /** The storage key of the cart slot. */
  const CartKey: string := "eternal_bears_cart"

  /** A cart line: a product, how many of it, and when the line was added and
      last changed. */
  datatype CartItem = CartItem(productId: Int32, quantity: Int32, addedAt: Timestamp, updatedAt: Timestamp)

  /** What a cart operation does outside the object, in order: write the
      slot, delete the slot, or raise `OnCartChanged`. */
  datatype Effect = SlotWritten(contents: seq<CartItem>) | SlotRemoved | CartChanged

  /** The exceptions the mutating operations rethrow. */
  datatype CartError =
    | InvalidProductId  // `ArgumentException`: the product id is not positive
    | Unavailable       // `InvalidOperationException`: JavaScript is not available (prerendering)

  /** The whole observable state of the cart: the live list, the
      initialised flag, the slot (`None` when the key is absent), whether
      JavaScript is available, and the effects performed so far. */
  datatype CartState = CartState(
    items: seq<CartItem>,
    initialized: bool,
    slot: Option<seq<CartItem>>,
    jsAvailable: bool,
    effects: seq<Effect>)

  /** The state after a mutating operation and whether it threw. */
  datatype Step = Step(state: CartState, outcome: Outcome<CartError>)

  /** The state after a query and the value it returned. */
  datatype Query<T> = Query(state: CartState, value: T)

  /** The filter applied to a loaded blob: only positive product ids are kept. */
  predicate HasValidId(x: CartItem)
  {
    x.productId > 0
  }

  /** The live list that reading the slot produces: nothing for an absent
      slot, otherwise the stored lines with a positive id, in stored order. */
  function Loaded(slot: Option<seq<CartItem>>): (r: seq<CartItem>)
    ensures forall x :: x in r ==> HasValidId(x)
    ensures slot.Some? ==> IsSubsequence(r, slot.value)
  {
    match slot
    case None => []
    case Some(stored) =>
      FilterIsSubsequence(stored, HasValidId);
      Filter(stored, HasValidId)
  }

  /** Reading the slot dropped something, so the cleaned list is written back. */
  predicate LoadRewrites(slot: Option<seq<CartItem>>)
  {
    slot.Some? && |Filter(slot.value, HasValidId)| != |slot.value|
  }

  /** `SaveCartAsync`: the live list is written to the slot, unless JavaScript
      is unavailable, in which case nothing happens. */
  function Save(s: CartState): CartState
  {
    if !s.jsAvailable then s
    else s.(slot := Some(s.items), effects := s.effects + [SlotWritten(s.items)])
  }

  /** `GetCartItemsAsync`: without JavaScript, an empty list and no change;
      otherwise the live list is replaced by what the slot holds (cleaned,
      and written back if cleaning dropped a line), the cart is marked
      initialised, and the live list is returned. */
  function LoadSpec(s: CartState): Query<seq<CartItem>>
  {
    if !s.jsAvailable then Query(s, [])
    else
      var s1 := s.(items := Loaded(s.slot));
      var s2 := if LoadRewrites(s.slot) then Save(s1) else s1;
      Query(s2.(initialized := true), s2.items)
  }

  /** The lazy load at the start of add, update and remove. */
  function EnsureLoaded(s: CartState): CartState
  {
    if s.initialized then s else LoadSpec(s).state
  }

  /** `FirstOrDefault(x => x.ProductId == productId)`, as a position. */
  function FirstIndex(items: seq<CartItem>, productId: int): (r: Option<nat>)
    ensures r.Some? ==> r.value < |items| && items[r.value].productId == productId
    ensures r.Some? ==> forall j | 0 <= j < r.value :: items[j].productId != productId
    ensures r.None? ==> forall j | 0 <= j < |items| :: items[j].productId != productId
  {
    if items == [] then None
    else if items[0].productId == productId then Some(0)
    else
      match FirstIndex(items[1..], productId)
      case None => None
      case Some(i) => Some(i + 1)
  }

  /** `Quantity += 1` on a C# `int` in an unchecked context: the result is the
      successor modulo 2^32, so `int.MaxValue` wraps to `int.MinValue`. */
  function Inc32(q: Int32): (r: Int32)
    ensures (q + 1 - r) % 0x1_0000_0000 == 0
  {
    if q == MaxInt32 then MinInt32 else q + 1
  }

  /** The list change of `AddToCartAsync`: the first line of the product gets
      one more and a new change time, or a new line of one is appended. */
  function AddTo(items: seq<CartItem>, productId: Int32, now: Timestamp): seq<CartItem>
  {
    match FirstIndex(items, productId)
    case Some(i) => items[i := items[i].(quantity := Inc32(items[i].quantity), updatedAt := now)]
    case None => items + [CartItem(productId, 1, now, now)]
  }

  /** The list change of `UpdateQuantityAsync` on the line at `i`. */
  function SetQuantity(items: seq<CartItem>, i: nat, quantity: Int32, now: Timestamp): seq<CartItem>
    requires i < |items|
  {
    items[i := items[i].(quantity := quantity, updatedAt := now)]
  }

  /** `List.Remove` of the line at `i`. */
  function RemoveAt(items: seq<CartItem>, i: nat): seq<CartItem>
    requires i < |items|
  {
    items[..i] + items[i + 1..]
  }

  /** `OnCartChanged?.Invoke()` at the end of a successful mutation. */
  function Notify(s: CartState): Step
  {
    Step(s.(effects := s.effects + [CartChanged]), Pass)
  }

  /** `AddToCartAsync`: a non-positive id is refused first, then missing
      JavaScript; otherwise load if needed, add, save, notify. */
  function AddSpec(s: CartState, productId: Int32, now: Timestamp): Step
  {
    if productId <= 0 then Step(s, Fail(InvalidProductId))
    else if !s.jsAvailable then Step(s, Fail(Unavailable))
    else
      var s1 := EnsureLoaded(s);
      Notify(Save(s1.(items := AddTo(s1.items, productId, now))))
  }

  /** `RemoveFromCartAsync`: load if needed; the first line of the product is
      removed, saved and notified; an absent product changes nothing more. */
  function RemoveSpec(s: CartState, productId: Int32): Step
  {
    if !s.jsAvailable then Step(s, Fail(Unavailable))
    else
      var s1 := EnsureLoaded(s);
      match FirstIndex(s1.items, productId)
      case None => Step(s1, Pass)
      case Some(i) => Notify(Save(s1.(items := RemoveAt(s1.items, i))))
  }

  /** `UpdateQuantityAsync`: load if needed; for a present product a quantity
      of zero or less removes it, any other sets it; an absent product
      changes nothing more. */
  function UpdateSpec(s: CartState, productId: Int32, quantity: Int32, now: Timestamp): Step
  {
    if !s.jsAvailable then Step(s, Fail(Unavailable))
    else
      var s1 := EnsureLoaded(s);
      match FirstIndex(s1.items, productId)
      case None => Step(s1, Pass)
      case Some(i) =>
        if quantity <= 0 then RemoveSpec(s1, productId)
        else Notify(Save(s1.(items := SetQuantity(s1.items, i, quantity, now))))
  }

  /** `ClearCartAsync`: the live list is emptied, the slot key deleted and
      the change notified; the initialised flag is left as it is. */
  function ClearSpec(s: CartState): Step
  {
    if !s.jsAvailable then Step(s, Fail(Unavailable))
    else Notify(s.(items := [], slot := None, effects := s.effects + [SlotRemoved]))
  }

  /** `Enumerable.Sum` over the quantities, from the left, in a checked
      context: `None` when a partial sum leaves the `int` range (the
      `OverflowException`). */
  function CheckedSumFrom(acc: Int32, items: seq<CartItem>): Option<Int32>
    decreases |items|
  {
    if items == [] then Some(acc)
    else
      var t := acc + items[0].quantity;
      if t < MinInt32 || t > MaxInt32 then None else CheckedSumFrom(t, items[1..])
  }

  function CheckedSum(items: seq<CartItem>): Option<Int32>
  {
    CheckedSumFrom(0, items)
  }

  /** The mathematical sum of the quantities. */
  function QuantitySum(items: seq<CartItem>): int
  {
    if items == [] then 0 else items[0].quantity + QuantitySum(items[1..])
  }

  /** The keys of `GroupBy(x => x.ProductId)`: the product ids that occur. */
  function ProductIds(items: seq<CartItem>): (r: set<int>)
    ensures forall x :: x in items ==> x.productId in r
    ensures forall id :: id in r ==> exists x :: x in items && x.productId == id
  {
    if items == [] then {} else {items[0].productId} + ProductIds(items[1..])
  }

  /** `GetCartItemCountAsync`: 0 without JavaScript; otherwise the list is
      re-read and the number of distinct product ids returned. The log line
      also sums the quantities, so an overflowing total makes the count 0 too. */
  function ItemCountSpec(s: CartState): Query<int>
  {
    if !s.jsAvailable then Query(s, 0)
    else
      var l := LoadSpec(s);
      if CheckedSum(l.value).None? then Query(l.state, 0) else Query(l.state, |ProductIds(l.value)|)
  }

  /** `GetCartTotalQuantityAsync`: 0 without JavaScript; otherwise the list is
      re-read and its quantities summed, with 0 when the sum overflows. */
  function TotalQuantitySpec(s: CartState): Query<int>
  {
    if !s.jsAvailable then Query(s, 0)
    else
      var l := LoadSpec(s);
      match CheckedSum(l.value)
      case None => Query(l.state, 0)
      case Some(t) => Query(l.state, t)
  }

  /** No two lines share a product id. */
  predicate DistinctIds(items: seq<CartItem>)
  {
    forall i, j | 0 <= i < j < |items| :: items[i].productId != items[j].productId
  }

  /** The shape that add, update and remove keep: distinct positive product
      ids and quantities of at least one. */
  predicate WellFormed(items: seq<CartItem>)
  {
    && DistinctIds(items)
    && (forall i | 0 <= i < |items| :: items[i].quantity >= 1)
    && (forall i | 0 <= i < |items| :: HasValidId(items[i]))
  }

  /** The live list and the slot agree: every line has a positive id, and
      once loaded the slot holds exactly the live list (or is absent while
      that list is empty). */
  predicate Synced(s: CartState)
  {
    && (forall x :: x in s.items ==> HasValidId(x))
    && (s.initialized ==> (s.slot == None && s.items == []) || s.slot == Some(s.items))
  }

  // ---------------------------------------------------------------------
  // The service object

  /** `CartService` with its fields; `Snapshot` is its current `CartState`. */
  class CartService {
    var items: seq<CartItem>
    var initialized: bool
    var slot: Option<seq<CartItem>>
    var jsAvailable: bool
    var effects: seq<Effect>

    function Snapshot(): CartState
      reads this
    {
      CartState(items, initialized, slot, jsAvailable, effects)
    }

    /** A new service over the given storage: empty, not yet initialised. */
    constructor (storage: Option<seq<CartItem>>, js: bool)
      ensures Snapshot() == CartState([], false, storage, js, [])
    {
      items, initialized, slot, jsAvailable, effects := [], false, storage, js, [];
    }

    /** `SaveCartAsync`. */
    method SaveCart()
      modifies this
      ensures Snapshot() == Save(old(Snapshot()))
    {
      if !jsAvailable {
        return;
      }
      slot := Some(items);
      effects := effects + [SlotWritten(items)];
    }

    /** `GetCartItemsAsync`. */
    method GetCartItems() returns (r: seq<CartItem>)
      modifies this
      ensures Query(Snapshot(), r) == LoadSpec(old(Snapshot()))
    {
      if !jsAvailable {
        return [];
      }
      match slot {
        case None =>
          items := [];
        case Some(stored) =>
          items := Filter(stored, HasValidId);
          if |items| != |stored| {
            SaveCart();
          }
      }
      initialized := true;
      r := items;
    }

    /** `AddToCartAsync`. */
    method AddToCart(productId: Int32, now: Timestamp) returns (outcome: Outcome<CartError>)
      modifies this
      ensures Step(Snapshot(), outcome) == AddSpec(old(Snapshot()), productId, now)
    {
      if productId <= 0 {
        return Fail(InvalidProductId);
      }
      if !jsAvailable {
        return Fail(Unavailable);
      }
      if !initialized {
        var _ := GetCartItems();
      }
      match FirstIndex(items, productId) {
        case Some(i) =>
          items := items[i := items[i].(quantity := Inc32(items[i].quantity), updatedAt := now)];
        case None =>
          items := items + [CartItem(productId, 1, now, now)];
      }
      SaveCart();
      effects := effects + [CartChanged];
      outcome := Pass;
    }

    /** `RemoveFromCartAsync`. */
    method RemoveFromCart(productId: Int32) returns (outcome: Outcome<CartError>)
      modifies this
      ensures Step(Snapshot(), outcome) == RemoveSpec(old(Snapshot()), productId)
    {
      if !jsAvailable {
        return Fail(Unavailable);
      }
      if !initialized {
        var _ := GetCartItems();
      }
      match FirstIndex(items, productId) {
        case None =>
        case Some(i) =>
          items := items[..i] + items[i + 1..];
          SaveCart();
          effects := effects + [CartChanged];
      }
      outcome := Pass;
    }

    /** `UpdateQuantityAsync`. */
    method UpdateQuantity(productId: Int32, quantity: Int32, now: Timestamp) returns (outcome: Outcome<CartError>)
      modifies this
      ensures Step(Snapshot(), outcome) == UpdateSpec(old(Snapshot()), productId, quantity, now)
    {
      if !jsAvailable {
        return Fail(Unavailable);
      }
      if !initialized {
        var _ := GetCartItems();
      }
      match FirstIndex(items, productId) {
        case None =>
          outcome := Pass;
        case Some(i) =>
          if quantity <= 0 {
            outcome := RemoveFromCart(productId);
          } else {
            items := items[i := items[i].(quantity := quantity, updatedAt := now)];
            SaveCart();
            effects := effects + [CartChanged];
            outcome := Pass;
          }
      }
    }

    /** `ClearCartAsync`. */
    method ClearCart() returns (outcome: Outcome<CartError>)
      modifies this
      ensures Step(Snapshot(), outcome) == ClearSpec(old(Snapshot()))
    {
      if !jsAvailable {
        return Fail(Unavailable);
      }
      items := [];
      slot := None;
      effects := effects + [SlotRemoved, CartChanged];
      outcome := Pass;
    }

    /** `GetCartItemCountAsync`. */
    method GetCartItemCount() returns (count: int)
      modifies this
      ensures Query(Snapshot(), count) == ItemCountSpec(old(Snapshot()))
    {
      if !jsAvailable {
        return 0;
      }
      var current := GetCartItems();
      var unique := |ProductIds(current)|;
      if CheckedSum(current).None? {
        return 0;
      }
      count := unique;
    }

    /** `GetCartTotalQuantityAsync`. */
    method GetCartTotalQuantity() returns (total: int)
      modifies this
      ensures Query(Snapshot(), total) == TotalQuantitySpec(old(Snapshot()))
    {
      if !jsAvailable {
        return 0;
      }
      var current := GetCartItems();
      match CheckedSum(current) {
        case None => total := 0;
        case Some(t) => total := t;
      }
    }
  }

  // ---------------------------------------------------------------------
  // Properties

  /** A non-positive product id is refused before anything else is looked
      at: the state is unchanged, whether or not JavaScript is available. */
  lemma AddRejectsInvalidId(s: CartState, productId: Int32, now: Timestamp, js: bool)
    requires productId <= 0
    ensures AddSpec(s, productId, now) == Step(s, Fail(InvalidProductId))
    ensures AddSpec(s.(jsAvailable := js), productId, now).outcome == Fail(InvalidProductId)
  {
  }

  /** Without JavaScript the mutations throw and change nothing, and the
      queries return an empty list or 0 and change nothing. */
  lemma UnavailableChangesNothing(s: CartState, productId: Int32, quantity: Int32, now: Timestamp)
    requires !s.jsAvailable
    ensures productId > 0 ==> AddSpec(s, productId, now) == Step(s, Fail(Unavailable))
    ensures UpdateSpec(s, productId, quantity, now) == Step(s, Fail(Unavailable))
    ensures RemoveSpec(s, productId) == Step(s, Fail(Unavailable))
    ensures ClearSpec(s) == Step(s, Fail(Unavailable))
    ensures LoadSpec(s) == Query(s, [])
    ensures ItemCountSpec(s) == Query(s, 0) && TotalQuantitySpec(s) == Query(s, 0)
  {
  }

  /** Reading an absent slot, or one holding an empty list, gives an empty
      live list without writing anything back. */
  lemma LoadEmpty(s: CartState)
    requires s.jsAvailable && (s.slot == None || s.slot == Some([]))
    ensures LoadSpec(s) == Query(s.(items := [], initialized := true), [])
  {
  }

  /** Reading a stored list keeps exactly its lines with a positive id, in
      stored order, and writes the slot back if and only if a line was
      dropped; before that write, and apart from it, nothing is done. */
  lemma LoadFilters(s: CartState, stored: seq<CartItem>)
    requires s.jsAvailable && s.slot == Some(stored)
    ensures var l := LoadSpec(s);
      && l.value == l.state.items == Filter(stored, HasValidId)
      && IsSubsequence(l.value, stored)
      && l.state.initialized
      && (forall x :: x in stored && HasValidId(x) ==> x in l.value)
      && (l.state.slot != s.slot <==> (exists x :: x in stored && !HasValidId(x)))
      && l.state.effects == s.effects + (if l.state.slot != s.slot then [SlotWritten(l.value)] else [])
  {
    var kept := Filter(stored, HasValidId);
    FilterIsSubsequence(stored, HasValidId);
    forall x | x in stored && HasValidId(x)
      ensures x in kept
    {
      FilterKeepsAll(stored, HasValidId, x);
    }
    if exists x :: x in stored && !HasValidId(x) {
      var x :| x in stored && !HasValidId(x);
      if |kept| == |stored| {
        FilterSameLength(stored, HasValidId);
        assert false;
      }
    } else {
      FilterAll(stored, HasValidId);
    }
  }

  /** A blob with a bad line, a repeated product and a zero quantity: the bad
      line is dropped and the slot rewritten, but the repetition and the zero
      survive, and the count still sees one product. */
  lemma LoadKeepsDuplicatesAndZeros(s: CartState)
    requires s.jsAvailable
    requires s.slot == Some([CartItem(-1, 1, 0, 0), CartItem(5, 0, 0, 0), CartItem(5, 2, 0, 0)])
    ensures LoadSpec(s).value == [CartItem(5, 0, 0, 0), CartItem(5, 2, 0, 0)]
    ensures LoadSpec(s).state.slot == Some([CartItem(5, 0, 0, 0), CartItem(5, 2, 0, 0)])
    ensures !WellFormed(LoadSpec(s).value)
    ensures ItemCountSpec(s).value == 1 && TotalQuantitySpec(s).value == 2
  {
    var kept := [CartItem(5, 0, 0, 0), CartItem(5, 2, 0, 0)];
    assert Filter(s.slot.value, HasValidId) == kept;
    assert ProductIds(kept) == {5};
  }

  /** Adding a product already in the loaded cart raises its first line's
      quantity by one (modulo 2^32), stamps the change time, keeps its add
      time and every other line, then saves and notifies once. */
  lemma AddExisting(s: CartState, productId: Int32, now: Timestamp, i: nat)
    requires productId > 0 && s.jsAvailable
    requires FirstIndex(EnsureLoaded(s).items, productId) == Some(i)
    ensures var before := EnsureLoaded(s).items; var r := AddSpec(s, productId, now);
      && r.outcome == Pass
      && |r.state.items| == |before|
      && r.state.items[i].productId == productId
      && r.state.items[i].quantity == Inc32(before[i].quantity)
      && r.state.items[i].addedAt == before[i].addedAt
      && r.state.items[i].updatedAt == now
      && (forall j | 0 <= j < |before| && j != i :: r.state.items[j] == before[j])
      && r.state.slot == Some(r.state.items)
      && r.state.effects == EnsureLoaded(s).effects + [SlotWritten(r.state.items), CartChanged]
  {
  }

  /** Adding a product not in the loaded cart appends one line of quantity
      one whose add and change times are both `now`. */
  lemma AddNew(s: CartState, productId: Int32, now: Timestamp)
    requires productId > 0 && s.jsAvailable
    requires FirstIndex(EnsureLoaded(s).items, productId) == None
    ensures var r := AddSpec(s, productId, now);
      && r.outcome == Pass
      && r.state.items == EnsureLoaded(s).items + [CartItem(productId, 1, now, now)]
      && r.state.slot == Some(r.state.items)
      && r.state.effects == EnsureLoaded(s).effects + [SlotWritten(r.state.items), CartChanged]
  {
  }

  /** The increment is unchecked: a line at `int.MaxValue` wraps to `int.MinValue`. */
  lemma AddWrapsAround(now: Timestamp)
    ensures var s := CartState([CartItem(7, MaxInt32 as Int32, 0, 0)], true, None, true, []);
      AddSpec(s, 7, now).state.items == [CartItem(7, MinInt32 as Int32, 0, now)]
  {
  }

  /** `UpdateQuantityAsync` with a quantity of zero or less does exactly what
      `RemoveFromCartAsync` does, in every state. */
  lemma UpdateNonPositiveIsRemove(s: CartState, productId: Int32, quantity: Int32, now: Timestamp)
    requires quantity <= 0
    ensures UpdateSpec(s, productId, quantity, now) == RemoveSpec(s, productId)
  {
    if s.jsAvailable {
      var s1 := EnsureLoaded(s);
      assert s1.initialized;
      assert EnsureLoaded(s1) == s1;
    }
  }

  /** A positive quantity on a present product sets that line's quantity and
      change time only, then saves and notifies once. */
  lemma UpdatePositive(s: CartState, productId: Int32, quantity: Int32, now: Timestamp, i: nat)
    requires s.jsAvailable && quantity > 0
    requires FirstIndex(EnsureLoaded(s).items, productId) == Some(i)
    ensures var before := EnsureLoaded(s).items; var r := UpdateSpec(s, productId, quantity, now);
      && r.outcome == Pass
      && |r.state.items| == |before|
      && r.state.items[i] == before[i].(quantity := quantity, updatedAt := now)
      && (forall j | 0 <= j < |before| && j != i :: r.state.items[j] == before[j])
      && r.state.effects == EnsureLoaded(s).effects + [SlotWritten(r.state.items), CartChanged]
  {
  }

  /** Updating or removing a product that is not in the cart only loads it:
      nothing is saved and nothing is notified. */
  lemma AbsentProductIsNoOp(s: CartState, productId: Int32, quantity: Int32, now: Timestamp)
    requires s.jsAvailable
    requires forall x :: x in EnsureLoaded(s).items ==> x.productId != productId
    ensures UpdateSpec(s, productId, quantity, now) == Step(EnsureLoaded(s), Pass)
    ensures RemoveSpec(s, productId) == Step(EnsureLoaded(s), Pass)
  {
  }

  /** Removing deletes only the first line of the product: the lines before
      and after it keep their order, and a later line of the same product
      stays in the cart. */
  lemma RemoveFirstOnly(s: CartState, productId: Int32, i: nat)
    requires s.jsAvailable
    requires FirstIndex(EnsureLoaded(s).items, productId) == Some(i)
    ensures var before := EnsureLoaded(s).items; var r := RemoveSpec(s, productId);
      && r.state.items == before[..i] + before[i + 1..]
      && |r.state.items| == |before| - 1
      && (forall j | i < j < |before| :: before[j] in r.state.items)
      && r.state.effects == EnsureLoaded(s).effects + [SlotWritten(r.state.items), CartChanged]
  {
    var before := EnsureLoaded(s).items;
    var after := before[..i] + before[i + 1..];
    forall j | i < j < |before|
      ensures before[j] in after
    {
      assert after[j - 1] == before[j];
    }
  }

  /** A cart holding the same product twice loses only the first line. */
  lemma RemoveDuplicateExample()
    ensures var s := CartState([CartItem(3, 1, 0, 0), CartItem(4, 1, 0, 0), CartItem(3, 2, 0, 0)], true, None, true, []);
      RemoveSpec(s, 3).state.items == [CartItem(4, 1, 0, 0), CartItem(3, 2, 0, 0)]
  {
  }

  /** Clearing empties the list, deletes the slot key (rather than writing an
      empty list), notifies once, and leaves the flag as it was; the count
      and total read afterwards are both 0. */
  lemma ClearEmptiesCart(s: CartState)
    requires s.jsAvailable
    ensures var r := ClearSpec(s);
      && r.outcome == Pass
      && r.state.items == [] && r.state.slot == None
      && r.state.initialized == s.initialized
      && r.state.effects == s.effects + [SlotRemoved, CartChanged]
      && ItemCountSpec(r.state).value == 0
      && TotalQuantitySpec(r.state).value == 0
  {
  }

  /** A sum that has not overflowed is the mathematical sum. */
  lemma {:induction false} CheckedSumFromIsExact(acc: Int32, items: seq<CartItem>)
    ensures CheckedSumFrom(acc, items).Some? ==> CheckedSumFrom(acc, items).value == acc + QuantitySum(items)
    decreases |items|
  {
    if items != [] {
      var t := acc + items[0].quantity;
      if MinInt32 <= t <= MaxInt32 {
        CheckedSumFromIsExact(t, items[1..]);
      }
    }
  }

  /** With no negative quantity, the checked sum overflows exactly when the
      mathematical sum leaves the `int` range. */
  lemma {:induction false} CheckedSumFromOverflow(acc: Int32, items: seq<CartItem>)
    requires acc >= 0
    requires forall x :: x in items ==> x.quantity >= 0
    ensures CheckedSumFrom(acc, items).None? <==> acc + QuantitySum(items) > MaxInt32
    decreases |items|
  {
    if items != [] {
      assert items[0] in items;
      assert forall x :: x in items[1..] ==> x in items;
      NonNegativeSum(items[1..]);
      var t := acc + items[0].quantity;
      if t <= MaxInt32 {
        CheckedSumFromOverflow(t, items[1..]);
      }
    }
  }

  lemma {:induction false} NonNegativeSum(items: seq<CartItem>)
    requires forall x :: x in items ==> x.quantity >= 0
    ensures QuantitySum(items) >= 0
  {
    if items != [] {
      assert items[0] in items;
      assert forall x :: x in items[1..] ==> x in items;
      NonNegativeSum(items[1..]);
    }
  }

  /** The total quantity is the sum of all quantities whenever that sum is an
      `int`; with no negative quantity, it is 0 exactly when the sum is not. */
  lemma TotalIsSum(s: CartState)
    requires s.jsAvailable
    ensures var items := LoadSpec(s).value;
      && (CheckedSum(items).Some? ==> TotalQuantitySpec(s).value == QuantitySum(items))
      && ((forall x :: x in items ==> x.quantity >= 0) && QuantitySum(items) <= MaxInt32 ==>
            TotalQuantitySpec(s).value == QuantitySum(items))
  {
    var items := LoadSpec(s).value;
    CheckedSumFromIsExact(0, items);
    if forall x :: x in items ==> x.quantity >= 0 {
      CheckedSumFromOverflow(0, items);
    }
  }

  /** Lines with distinct product ids are each their own group. */
  lemma {:induction false} DistinctCount(items: seq<CartItem>)
    requires DistinctIds(items)
    ensures |ProductIds(items)| == |items|
  {
    if items != [] {
      var rest := items[1..];
      assert DistinctIds(rest);
      DistinctCount(rest);
    }
  }

  /** On a well-formed cart whose total is an `int`, the count is the number
      of lines. */
  lemma CountOfWellFormed(s: CartState)
    requires s.jsAvailable
    requires WellFormed(LoadSpec(s).value) && CheckedSum(LoadSpec(s).value).Some?
    ensures ItemCountSpec(s).value == |LoadSpec(s).value|
  {
    DistinctCount(LoadSpec(s).value);
  }

  /** A stored cart of product 1 three times and product 2 once has two
      products and four articles. */
  lemma CountAndTotalExample(s: CartState)
    requires s.jsAvailable && s.slot == Some([CartItem(1, 3, 0, 0), CartItem(2, 1, 0, 0)])
    ensures ItemCountSpec(s).value == 2 && TotalQuantitySpec(s).value == 4
  {
    var stored := s.slot.value;
    assert Filter(stored, HasValidId) == stored;
    assert ProductIds(stored) == {1, 2};
  }

  /** Whenever summing the loaded quantities overflows, the total is 0 and so
      is the count, because the count's log line computes the same sum; with
      no negative quantity this is exactly when the sum exceeds `int.MaxValue`. */
  lemma OverflowZeroesCount(s: CartState)
    requires s.jsAvailable
    ensures var items := LoadSpec(s).value;
      CheckedSum(items).None? ==> TotalQuantitySpec(s).value == 0 && ItemCountSpec(s).value == 0
    ensures var items := LoadSpec(s).value;
      (forall x :: x in items ==> x.quantity >= 0) && QuantitySum(items) > MaxInt32 ==>
        TotalQuantitySpec(s).value == 0 && ItemCountSpec(s).value == 0
  {
    var items := LoadSpec(s).value;
    if forall x :: x in items ==> x.quantity >= 0 {
      CheckedSumFromOverflow(0, items);
    }
  }

  /** A stored line at `int.MaxValue` and one more article overflow the sum. */
  lemma OverflowExample(s: CartState)
    requires s.jsAvailable && s.slot == Some([CartItem(1, MaxInt32 as Int32, 0, 0), CartItem(2, 1, 0, 0)])
    ensures TotalQuantitySpec(s).value == 0 && ItemCountSpec(s).value == 0
  {
    var stored := s.slot.value;
    assert Filter(stored, HasValidId) == stored;
    assert stored[1..] == [CartItem(2, 1, 0, 0)];
    assert CheckedSumFrom(MaxInt32 as Int32, stored[1..]) == None;
    assert CheckedSum(stored) == None;
    OverflowZeroesCount(s);
  }

  /** Reading the slot never notifies, and writes it at most once. */
  lemma LoadNeverNotifies(s: CartState)
    ensures var l := LoadSpec(s).state;
      l.effects == s.effects || l.effects == s.effects + [SlotWritten(l.items)]
  {
  }

  lemma AddToWellFormed(items: seq<CartItem>, productId: Int32, now: Timestamp)
    requires WellFormed(items) && productId > 0
    requires FirstIndex(items, productId).Some? ==> items[FirstIndex(items, productId).value].quantity < MaxInt32
    ensures WellFormed(AddTo(items, productId, now))
  {
  }

  lemma SetQuantityWellFormed(items: seq<CartItem>, i: nat, quantity: Int32, now: Timestamp)
    requires WellFormed(items) && i < |items| && quantity >= 1
    ensures WellFormed(SetQuantity(items, i, quantity, now))
  {
  }

  lemma RemoveAtWellFormed(items: seq<CartItem>, i: nat)
    requires WellFormed(items) && i < |items|
    ensures WellFormed(RemoveAt(items, i))
  {
    var r := RemoveAt(items, i);
    assert forall k | 0 <= k < |r| :: r[k] == items[if k < i then k else k + 1];
  }

  /** Starting from a well-formed loaded cart, add (short of the wrap-around),
      update, remove and clear all leave it well-formed. */
  lemma MutationsKeepWellFormed(s: CartState, productId: Int32, quantity: Int32, now: Timestamp)
    requires WellFormed(s.items) && WellFormed(EnsureLoaded(s).items)
    requires forall x :: x in EnsureLoaded(s).items ==> x.quantity < MaxInt32
    ensures WellFormed(AddSpec(s, productId, now).state.items)
    ensures WellFormed(UpdateSpec(s, productId, quantity, now).state.items)
    ensures WellFormed(RemoveSpec(s, productId).state.items)
    ensures WellFormed(ClearSpec(s).state.items)
  {
    var items := EnsureLoaded(s).items;
    match FirstIndex(items, productId) {
      case None =>
      case Some(i) =>
        assert items[i] in items;
        RemoveAtWellFormed(items, i);
        if quantity > 0 {
          SetQuantityWellFormed(items, i, quantity, now);
        }
    }
    if productId > 0 {
      AddToWellFormed(items, productId, now);
    }
  }

  /** Writing the live list leaves live list and slot in agreement. */
  lemma SaveSynced(s: CartState)
    requires forall x :: x in s.items ==> HasValidId(x)
    requires s.jsAvailable
    ensures Synced(Save(s).(initialized := true))
  {
  }

  /** Reading the slot always leaves live list and slot in agreement. */
  lemma LoadSynced(s: CartState)
    requires Synced(s)
    ensures Synced(LoadSpec(s).state)
    ensures Synced(EnsureLoaded(s))
  {
    if s.jsAvailable && s.slot.Some? && !LoadRewrites(s.slot) {
      FilterSameLength(s.slot.value, HasValidId);
    }
  }

  /** Adding keeps live list and slot in agreement. */
  lemma AddKeepsSynced(s: CartState, productId: Int32, now: Timestamp)
    requires Synced(s)
    ensures Synced(AddSpec(s, productId, now).state)
  {
    LoadSynced(s);
    if productId > 0 && s.jsAvailable {
      var items := EnsureLoaded(s).items;
      var added := AddTo(items, productId, now);
      forall x | x in added
        ensures HasValidId(x)
      {
        var k :| 0 <= k < |added| && added[k] == x;
        if k < |items| {
          assert added[k].productId == items[k].productId;
          assert items[k] in items;
        }
      }
    }
  }

  /** Removing keeps live list and slot in agreement. */
  lemma RemoveKeepsSynced(s: CartState, productId: Int32)
    requires Synced(s)
    ensures Synced(RemoveSpec(s, productId).state)
  {
    LoadSynced(s);
    if s.jsAvailable {
      var items := EnsureLoaded(s).items;
      if FirstIndex(items, productId).Some? {
        var removed := RemoveAt(items, FirstIndex(items, productId).value);
        assert forall x :: x in removed ==> x in items;
      }
    }
  }

  /** Updating keeps live list and slot in agreement. */
  lemma UpdateKeepsSynced(s: CartState, productId: Int32, quantity: Int32, now: Timestamp)
    requires Synced(s)
    ensures Synced(UpdateSpec(s, productId, quantity, now).state)
  {
    LoadSynced(s);
    if s.jsAvailable {
      var s1 := EnsureLoaded(s);
      var items := s1.items;
      if FirstIndex(items, productId).Some? {
        var i := FirstIndex(items, productId).value;
        if quantity <= 0 {
          assert EnsureLoaded(s1) == s1;
          RemoveKeepsSynced(s1, productId);
        } else {
          var changed := SetQuantity(items, i, quantity, now);
          forall x | x in changed
            ensures HasValidId(x)
          {
            var k :| 0 <= k < |changed| && changed[k] == x;
            assert changed[k].productId == items[k].productId;
            assert items[k] in items;
          }
        }
      }
    }
  }

  /** Clearing and the two queries keep live list and slot in agreement. */
  lemma ClearAndQueriesKeepSynced(s: CartState)
    requires Synced(s)
    ensures Synced(ClearSpec(s).state)
    ensures Synced(ItemCountSpec(s).state) && Synced(TotalQuantitySpec(s).state)
  {
    LoadSynced(s);
  }

  /** Once the cart is loaded and in agreement with its slot, reading it
      again, as every count and total does, changes nothing and returns the
      live list. */
  lemma ReloadIsStable(s: CartState)
    requires Synced(s) && s.initialized && s.jsAvailable
    ensures LoadSpec(s) == Query(s, s.items)
  {
    if s.slot.Some? {
      FilterAll(s.slot.value, HasValidId);
    }
  }
}
