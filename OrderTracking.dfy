/** The order confirmation page's simulated tracking
    (src/pages/OrderConfirmationAndTrackingPage.tsx): loading the placeholder order,
    resuming or initialising its stage in the session store, and the interval tick that
    walks the four stages. The store is a `map<string, string>`; the timers become an
    explicit constructor call (the load) and explicit `Tick` calls. */
module OrderTracking {
  import opened Wrappers
  import opened Lists
  import opened OrderStatus

  datatype OrderItem = OrderItem(id: string, name: string, quantity: int, price: real)

  datatype OrderDetails = OrderDetails(
    orderId: string,
    items: seq<OrderItem>,
    totalAmount: real,
    estimatedDelivery: string,
    deliveryAddress: string,
    currentStatusKey: string)

  const PlaceholderOrder: OrderDetails := OrderDetails(
    "ORD-123456",
    [OrderItem("m1", "Margherita Pizza", 1, 12.99), OrderItem("m3", "Garlic Bread", 2, 5.99)],
    24.97,
    "30-40 minutes",
    "123 Main St, Anytown, USA",
    "confirmed")

  /** `defaultOrderStatuses.map(s => s.key)`. */
  const StatusKeys: seq<string> := Keys(DefaultOrderStatuses)

  const Delivered: string := "delivered"
  const Cancelled: string := "cancelled"

  function ItemsTotal(items: seq<OrderItem>): real {
    if items == [] then 0.0 else items[0].price * items[0].quantity as real + ItemsTotal(items[1..])
  }

  /** How the route parameter reads inside a template literal: a missing one prints "undefined". */
  function RouteText(routeId: Option<string>): string {
    match routeId
    case Some(s) => s
    case None => "undefined"
  }

  /** `orderStatus_${orderId}`. */
  function StoreKey(routeId: Option<string>): string {
    "orderStatus_" + RouteText(routeId)
  }

  /** `{ ...placeholderOrder, orderId: orderId || placeholderOrder.orderId }`. */
  function FetchedOrder(routeId: Option<string>): OrderDetails {
    PlaceholderOrder.(orderId := if routeId.Some? && routeId.value != "" then routeId.value
                                 else PlaceholderOrder.orderId)
  }

  /** `sessionStorage.getItem(key)` is truthy: present and not the empty string. */
  predicate StoreHolds(store: map<string, string>, key: string) {
    key in store && store[key] != ""
  }

  /** The stage key the loaded order starts at. */
  function LoadedKey(routeId: Option<string>, store: map<string, string>): string {
    var key := StoreKey(routeId);
    if StoreHolds(store, key) then store[key] else PlaceholderOrder.currentStatusKey
  }

  /** The session store after the load. */
  function LoadedStore(routeId: Option<string>, store: map<string, string>): map<string, string> {
    var key := StoreKey(routeId);
    if StoreHolds(store, key) then store else store[key := PlaceholderOrder.currentStatusKey]
  }

  /** The interval is started only for an order that is neither delivered nor cancelled. */
  predicate StartsTicking(key: string) {
    key != Delivered && key != Cancelled
  }

  /** Position of a key among the stages, -1 for an unknown key. */
  function StageIndex(key: string): int {
    IndexOf(StatusKeys, key)
  }

  /** One tick: the next stage, or `None` when the tick stops the interval instead. */
  function NextKey(key: string): Option<string> {
    var i := StageIndex(key);
    if i < |StatusKeys| - 1 then Some(StatusKeys[i + 1]) else None
  }

  /** The stage key after `n` ticks (a stopped interval ticks no more). */
  function AfterTicks(key: string, n: nat): string
    decreases n
  {
    if n == 0 then key
    else match NextKey(key)
      case Some(next) => AfterTicks(next, n - 1)
      case None => key
  }

  // ---------------------------------------------------------------------------

  /** The placeholder's `totalAmount` is the sum of its items' price times quantity. */
  lemma PlaceholderTotalMatchesItems()
    ensures ItemsTotal(PlaceholderOrder.items) == PlaceholderOrder.totalAmount
  {
    var items := PlaceholderOrder.items;
    assert items[1..][1..] == [];
  }

  lemma StatusKeysValue()
    ensures StatusKeys == ["confirmed", "preparing", "out_for_delivery", "delivered"]
    ensures Distinct(StatusKeys)
  {
    DefaultStatusesShape();
  }

  /** The loaded order carries the route id when one is given, else "ORD-123456"; it resumes at
      the stored key when the store holds a non-empty one under `orderStatus_<id>`, and otherwise
      starts at "confirmed" and writes that key back. No other store entry changes. */
  lemma LoadRule(routeId: Option<string>, store: map<string, string>)
    ensures FetchedOrder(routeId).orderId ==
            (if routeId.Some? && routeId.value != "" then routeId.value else "ORD-123456")
    ensures StoreHolds(store, StoreKey(routeId)) ==>
            LoadedKey(routeId, store) == store[StoreKey(routeId)] && LoadedStore(routeId, store) == store
    ensures !StoreHolds(store, StoreKey(routeId)) ==>
            LoadedKey(routeId, store) == "confirmed"
    ensures StoreKey(routeId) in LoadedStore(routeId, store)
    ensures LoadedStore(routeId, store)[StoreKey(routeId)] == LoadedKey(routeId, store)
    ensures forall k :: k != StoreKey(routeId) ==>
              (k in LoadedStore(routeId, store) <==> k in store) &&
              (k in store ==> LoadedStore(routeId, store)[k] == store[k])
  {
  }

  /** A tick at stage i < 3 moves to stage i + 1; at "delivered" it stops; an unknown key moves
      to "confirmed". */
  lemma NextKeyRule(key: string)
    ensures 0 <= StageIndex(key) < 3 ==>
            NextKey(key) == Some(StatusKeys[StageIndex(key) + 1]) &&
            StageIndex(NextKey(key).value) == StageIndex(key) + 1
    ensures key == Delivered ==> NextKey(key) == None
    ensures key !in StatusKeys ==> NextKey(key) == Some("confirmed")
    ensures NextKey(key).Some? ==> NextKey(key).value in StatusKeys && NextKey(key).value != Cancelled
    ensures NextKey(key).None? <==> key == Delivered
  {
    StatusKeysValue();
    var i := StageIndex(key);
    if 0 <= i < 3 {
      assert StatusKeys[i + 1] == StatusKeys[i + 1];
      assert IndexOf(StatusKeys, StatusKeys[i + 1]) == i + 1;
    }
  }

  /** From a known stage, n ticks reach stage min(i + n, 3): the stage never decreases,
      and the walk stops at "delivered". */
  lemma {:induction false} AfterTicksStage(key: string, n: nat)
    requires key in StatusKeys
    ensures 0 <= StageIndex(key)
    ensures AfterTicks(key, n) ==
            StatusKeys[if StageIndex(key) + n < 3 then StageIndex(key) + n else 3]
    decreases n
  {
    StatusKeysValue();
    NextKeyRule(key);
    var i := StageIndex(key);
    if n > 0 && i < 3 {
      AfterTicksStage(NextKey(key).value, n - 1);
    }
  }

  /** From "confirmed" exactly three ticks reach "delivered"; an unknown key needs four. */
  lemma ThreeTicksToDelivered(unknown: string)
    requires unknown !in StatusKeys
    ensures AfterTicks("confirmed", 3) == Delivered
    ensures forall n: nat :: n < 3 ==> AfterTicks("confirmed", n) != Delivered
    ensures AfterTicks(unknown, 4) == Delivered && AfterTicks(unknown, 3) != Delivered
  {
    StatusKeysValue();
    assert "confirmed" in StatusKeys;
    forall n: nat | n <= 3
      ensures AfterTicks("confirmed", n) == StatusKeys[n]
    {
      AfterTicksStage("confirmed", n);
    }
    NextKeyRule(unknown);
    AfterTicksStage("confirmed", 2);
  }

  // ---------------------------------------------------------------------------

  class OrderTracker {
    const routeId: Option<string>
    const storeKey: string
    var order: OrderDetails
    var store: map<string, string>
    var ticking: bool

    /** The stored key always mirrors the in-memory stage; only `currentStatusKey` ever differs
        from the fetched placeholder; a running interval is never on "cancelled", and a stopped
        one is on "delivered" or "cancelled". */
    ghost predicate Valid()
      reads this
    {
      && storeKey == StoreKey(routeId)
      && storeKey in store && store[storeKey] == order.currentStatusKey
      && order == FetchedOrder(routeId).(currentStatusKey := order.currentStatusKey)
      && (ticking ==> order.currentStatusKey != Cancelled)
      && (!ticking ==> order.currentStatusKey == Delivered || order.currentStatusKey == Cancelled)
    }

    /** The load: fetch the placeholder, resume or initialise the stage in the store, and start
        the interval unless the stage is terminal. */
    constructor Load(routeId: Option<string>, sessionStore: map<string, string>)
      ensures Valid() && this.routeId == routeId
      ensures order == FetchedOrder(routeId).(currentStatusKey := LoadedKey(routeId, sessionStore))
      ensures store == LoadedStore(routeId, sessionStore)
      ensures ticking == StartsTicking(order.currentStatusKey)
    {
      this.routeId := routeId;
      var key := StoreKey(routeId);
      storeKey := key;
      var fetched := FetchedOrder(routeId);
      if StoreHolds(sessionStore, key) {
        fetched := fetched.(currentStatusKey := sessionStore[key]);
        store := sessionStore;
      } else {
        store := sessionStore[key := fetched.currentStatusKey];
      }
      order := fetched;
      ticking := fetched.currentStatusKey != Delivered && fetched.currentStatusKey != Cancelled;
    }

    /** One firing of the interval: advance one stage and write it to the store, or, at the last
        stage, leave everything as it is and clear the interval. */
    method Tick()
      requires Valid() && ticking
      modifies this
      ensures Valid()
      ensures NextKey(old(order.currentStatusKey)).Some? ==>
        var next := NextKey(old(order.currentStatusKey)).value;
        && order == old(order).(currentStatusKey := next)
        && store == old(store)[storeKey := next]
        && ticking
      ensures NextKey(old(order.currentStatusKey)).None? ==>
        order == old(order) && store == old(store) && !ticking
      ensures StageIndex(order.currentStatusKey) >= StageIndex(old(order.currentStatusKey))
    {
      NextKeyRule(order.currentStatusKey);
      var currentIndex := IndexOf(StatusKeys, order.currentStatusKey);
      if currentIndex < |StatusKeys| - 1 {
        var nextStatus := StatusKeys[currentIndex + 1];
        store := store[storeKey := nextStatus];
        order := order.(currentStatusKey := nextStatus);
        return;
      }
      ticking := false;
    }
  }
}
