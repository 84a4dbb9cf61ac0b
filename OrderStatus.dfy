/** The order-status visualizer's display rule (src/components/OrderStatusVisualizer.tsx):
    the four default stages, the cancelled override, the lookup of the current key, and
    the per-step active / current / connector / circle decisions. Icons and class names
    are reduced to the colour each decision selects. */
module OrderStatus {
  import opened Wrappers

  datatype StatusStep = StatusStep(key: string, caption: string)
  // `caption` is the source's `label`, a reserved word in Dafny

  const DefaultOrderStatuses: seq<StatusStep> := [
    StatusStep("confirmed", "Order Confirmed"),
    StatusStep("preparing", "Preparing Food"),
    StatusStep("out_for_delivery", "Out for Delivery"),
    StatusStep("delivered", "Delivered")
  ]

  const CancelledStatus: StatusStep := StatusStep("cancelled", "Cancelled")

  datatype Color = Red | Green | Gray

  /** What the component renders once it passed its validity check. */
  datatype StatusView = StatusView(displayStatuses: seq<StatusStep>, currentStatusIndex: int, isCancelled: bool)

  /** The component's output: the step row, or the "Invalid order status" error paragraph. */
  datatype Rendered = Steps(view: StatusView) | InvalidStatus(key: string)

  /** The keys of a stage list, in order. */
  function Keys(statuses: seq<StatusStep>): (keys: seq<string>)
    ensures |keys| == |statuses|
    ensures forall i :: 0 <= i < |statuses| ==> keys[i] == statuses[i].key
  {
    if statuses == [] then [] else [statuses[0].key] + Keys(statuses[1..])
  }

  /** `statuses.findIndex(s => s.key === key)`. */
  function FindIndex(statuses: seq<StatusStep>, key: string): (r: int)
    ensures -1 <= r < |statuses|
    ensures r == -1 <==> forall i :: 0 <= i < |statuses| ==> statuses[i].key != key
    ensures 0 <= r ==> statuses[r].key == key && forall j :: 0 <= j < r ==> statuses[j].key != key
  {
    if statuses == [] then -1
    else if statuses[0].key == key then 0
    else
      var k := FindIndex(statuses[1..], key);
      if k == -1 then -1 else k + 1
  }

  /** The component: `statuses` defaults to the four stages and `isCancelled` to false. */
  function Visualize(currentStatusKey: string, statuses: seq<StatusStep> := DefaultOrderStatuses,
                     isCancelled: bool := false): (r: Rendered)
    ensures isCancelled ==> r == Steps(StatusView([CancelledStatus], 0, true))
    ensures !isCancelled ==>
      (r.InvalidStatus? <==> forall i :: 0 <= i < |statuses| ==> statuses[i].key != currentStatusKey)
    ensures !isCancelled && r.Steps? ==>
      && r.view.displayStatuses == statuses && !r.view.isCancelled
      && 0 <= r.view.currentStatusIndex < |statuses|
      && statuses[r.view.currentStatusIndex].key == currentStatusKey
      && forall j :: 0 <= j < r.view.currentStatusIndex ==> statuses[j].key != currentStatusKey
  {
    var displayStatuses := if isCancelled then [CancelledStatus] else statuses;
    var currentStatusIndex := if isCancelled then 0 else FindIndex(displayStatuses, currentStatusKey);
    if !isCancelled && currentStatusIndex == -1 then InvalidStatus(currentStatusKey)
    else Steps(StatusView(displayStatuses, currentStatusIndex, isCancelled))
  }

  /** A view the component can produce: a valid index into a non-empty step list. */
  predicate WellFormed(v: StatusView) {
    0 <= v.currentStatusIndex < |v.displayStatuses| && (v.isCancelled ==> |v.displayStatuses| == 1)
  }

  predicate IsActive(v: StatusView, index: int) {
    if v.isCancelled then true else index <= v.currentStatusIndex
  }

  predicate IsCurrent(v: StatusView, index: int) {
    if v.isCancelled then true else index == v.currentStatusIndex
  }

  /** The connector drawn before step `index`: none before the first step. */
  function Connector(v: StatusView, index: int): Option<Color> {
    if index > 0 then
      Some(if v.isCancelled && index == 0 then Red
           else if IsActive(v, index) && index <= v.currentStatusIndex then Green
           else Gray)
    else None
  }

  /** The colour of step `index`'s circle and icon. */
  function CircleColor(v: StatusView, index: int): Color {
    if v.isCancelled then Red else if IsActive(v, index) then Green else Gray
  }

  /** Whether step `index` carries the highlight ring. */
  predicate HasRing(v: StatusView, index: int) {
    IsCurrent(v, index) && !v.isCancelled
  }

  // ---------------------------------------------------------------------------

  /** Every view the component produces is well formed. */
  lemma VisualizeWellFormed(currentStatusKey: string, statuses: seq<StatusStep>, isCancelled: bool)
    ensures Visualize(currentStatusKey, statuses, isCancelled).Steps? ==>
            WellFormed(Visualize(currentStatusKey, statuses, isCancelled).view)
  {
  }

  /** The four default stages, in order, with pairwise distinct keys none of which is "cancelled". */
  lemma DefaultStatusesShape()
    ensures Keys(DefaultOrderStatuses) == ["confirmed", "preparing", "out_for_delivery", "delivered"]
    ensures forall i, j :: 0 <= i < j < |DefaultOrderStatuses| ==>
              DefaultOrderStatuses[i].key != DefaultOrderStatuses[j].key
    ensures forall i :: 0 <= i < |DefaultOrderStatuses| ==> DefaultOrderStatuses[i].key != CancelledStatus.key
  {
  }

  /** With distinct keys, the step found for key `statuses[i].key` is `i` itself. */
  lemma FindIndexOfDistinct(statuses: seq<StatusStep>, i: int)
    requires 0 <= i < |statuses|
    requires forall a, b :: 0 <= a < b < |statuses| ==> statuses[a].key != statuses[b].key
    ensures FindIndex(statuses, statuses[i].key) == i
  {
  }

  /** Active steps form a prefix ending at the current step, and exactly one step is current. */
  lemma ActiveIsPrefixAndOneCurrent(v: StatusView)
    requires WellFormed(v)
    ensures forall i :: 0 <= i < |v.displayStatuses| ==> (IsActive(v, i) <==> i <= v.currentStatusIndex)
    ensures forall i :: 0 <= i < |v.displayStatuses| ==> (IsCurrent(v, i) <==> i == v.currentStatusIndex)
    ensures (set i | 0 <= i < |v.displayStatuses| && IsCurrent(v, i)) == {v.currentStatusIndex}
  {
  }

  /** A connector stands before each step but the first; it is green exactly when its step is
      active, and never red (the red branch needs `index === 0`, which has no connector). */
  lemma ConnectorRule(v: StatusView, index: int)
    requires WellFormed(v) && 0 <= index < |v.displayStatuses|
    ensures Connector(v, index).Some? <==> index > 0
    ensures index > 0 ==> (Connector(v, index) == Some(Green) <==> IsActive(v, index))
    ensures Connector(v, index) != Some(Red)
  {
  }

  /** In the cancelled view the single step is red and un-ringed; otherwise only the current step
      is ringed and the circles are green up to it and grey after it. */
  lemma CircleRule(v: StatusView, index: int)
    requires WellFormed(v) && 0 <= index < |v.displayStatuses|
    ensures v.isCancelled ==> CircleColor(v, index) == Red && !HasRing(v, index)
    ensures !v.isCancelled ==> (HasRing(v, index) <==> index == v.currentStatusIndex)
    ensures !v.isCancelled ==> (CircleColor(v, index) == Green <==> index <= v.currentStatusIndex)
  {
  }

  /** The defaults: calling with only a key looks it up among the four stages. */
  lemma DefaultArguments(currentStatusKey: string)
    ensures Visualize(currentStatusKey) == Visualize(currentStatusKey, DefaultOrderStatuses, false)
    ensures Visualize("preparing") == Steps(StatusView(DefaultOrderStatuses, 1, false))
    ensures Visualize("cancelled") == InvalidStatus("cancelled")
  {
  }
}
