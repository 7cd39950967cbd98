/**
 * The drift between CF and Kubernetes, the plan a pass makes from it, and what running that plan does to it
 * under any schedule of faults.
 */
module RouteDrift {
  import opened Common
  import opened RouteTranslator
  import opened Cluster
  import opened PeriodicSyncController

  // ---- Drift: the GUIDs on which Kubernetes and CF disagree --------------------------------------------------

  /** What CF wants under a GUID agrees with what is managed under that name; labels and metadata do not matter. */
  predicate InSyncAt(slot: Option<StoredRoute>, want: Option<StoredRoute>) {
    var managed := slot.Some? && IsManaged(slot.value);
    match want
    case Some(route) => managed && slot.value.spec == route.spec
    case None => !managed
  }

  function Lookup(m: RouteIndex, g: string): Option<StoredRoute> {
    if g in m then Some(m[g]) else None
  }

  function SlotOf(routes: Store, namespace: string, g: string): Option<StoredRoute> {
    Slot(routes, ObjectKey(namespace, g))
  }

  ghost function Drift(routes: Store, namespace: string, desired: RouteIndex): set<string> {
    set g | g in Managed(routes, namespace).Keys + desired.Keys
            && !InSyncAt(SlotOf(routes, namespace, g), Lookup(desired, g))
  }

  lemma DriftMember(routes: Store, namespace: string, desired: RouteIndex, g: string)
    ensures g in Drift(routes, namespace, desired) <==>
            !InSyncAt(SlotOf(routes, namespace, g), Lookup(desired, g))
  {
    ManagedSlot(routes, namespace, g);
  }

  /** No drift: the managed names are exactly the CF GUIDs and every spec is its translation. */
  lemma NoDriftMeaning(routes: Store, namespace: string, desired: RouteIndex)
    ensures Drift(routes, namespace, desired) == {} <==>
            && Managed(routes, namespace).Keys == desired.Keys
            && forall g :: g in desired ==> Managed(routes, namespace)[g].spec == desired[g].spec
  {
    var managed := Managed(routes, namespace);
    forall g
      ensures g in managed <==>
              SlotOf(routes, namespace, g).Some? && IsManaged(SlotOf(routes, namespace, g).value)
    {
      ManagedSlot(routes, namespace, g);
    }
    if Drift(routes, namespace, desired) == {} {
      forall g ensures InSyncAt(SlotOf(routes, namespace, g), Lookup(desired, g)) {
        DriftMember(routes, namespace, desired, g);
      }
      assert forall g :: g in managed <==> g in desired;
    }
    if managed.Keys == desired.Keys && forall g :: g in desired ==> managed[g].spec == desired[g].spec {
      forall g ensures g !in Drift(routes, namespace, desired) {
        assert g in managed <==> g in desired;
        DriftMember(routes, namespace, desired, g);
      }
    }
  }

  // ---- The write a GUID needs --------------------------------------------------------------------------------

  function Needed(slot: Option<StoredRoute>, want: Option<StoredRoute>, key: ObjectKey): Option<Op> {
    var managed := slot.Some? && IsManaged(slot.value);
    match want
    case Some(route) =>
      if !managed then Some(Create(route))
      else if route.spec != slot.value.spec then Some(Update(slot.value.(spec := route.spec)))
      else None
    case None => if managed then Some(Delete(key)) else None
  }

  function NeededAt(routes: Store, namespace: string, desired: RouteIndex, g: string): Option<Op> {
    Needed(SlotOf(routes, namespace, g), Lookup(desired, g), ObjectKey(namespace, g))
  }

  /** Translated routes carry their key and the managed-by label. */
  ghost predicate ProperTarget(desired: RouteIndex, namespace: string) {
    forall g :: g in desired ==> desired[g].Key() == ObjectKey(namespace, g) && IsManaged(desired[g])
  }

  lemma DesiredIsProper(list: RouteList, namespace: string)
    requires Closed(list)
    ensures ProperTarget(Desired(list, namespace), namespace)
    ensures Desired(list, namespace).Keys == RoutesOf(list).Keys
  {
    IndexKeys(list.resources, (r: CfRoute) => r.guid);
  }

  /** `ops` is, in some order, the one write each drifting GUID needs and nothing else. */
  ghost predicate Covers(ops: seq<Op>, routes: Store, namespace: string, desired: RouteIndex) {
    && (forall i :: 0 <= i < |ops| ==>
          && ops[i].Target().namespace == namespace
          && NeededAt(routes, namespace, desired, ops[i].Target().name) == Some(ops[i]))
    && (forall g :: NeededAt(routes, namespace, desired, g).Some? ==>
          NeededAt(routes, namespace, desired, g).value in ops)
    && DistinctTargets(ops)
  }

  ghost predicate UpdatesExactly(
    ops: seq<Op>, order: seq<string>, desired: RouteIndex, listed: RouteIndex,
    namespace: string)
  {
    && (forall i :: 0 <= i < |ops| ==>
          var g := ops[i].Target().name;
          && ops[i].Target() == ObjectKey(namespace, g) && g in order && g in desired && g in listed
          && desired[g].spec != listed[g].spec && ops[i] == Update(listed[g].(spec := desired[g].spec)))
    && (forall g :: g in order && g in desired && g in listed && desired[g].spec != listed[g].spec ==>
          Update(listed[g].(spec := desired[g].spec)) in ops)
    && DistinctTargets(ops)
  }

  lemma UpdateOpsFacts(
    order: seq<string>, desired: RouteIndex, listed: RouteIndex, namespace: string)
    requires forall g :: g in listed ==> listed[g].Key() == ObjectKey(namespace, g)
    requires Distinct(order)
    ensures UpdatesExactly(UpdateOps(order, desired, listed), order, desired, listed, namespace)
  {
    if order != [] {
      UpdateOpsFacts(order[..|order| - 1], desired, listed, namespace);
    }
  }

  ghost predicate Distinct(s: seq<string>) {
    forall i, j :: 0 <= i < j < |s| ==> s[i] != s[j]
  }

  lemma WithoutDistinct(order: seq<string>, present: set<string>)
    requires Distinct(order)
    ensures Distinct(Without(order, present))
  {
    if order != [] {
      WithoutDistinct(order[..|order| - 1], present);
      WithoutMembers(order[..|order| - 1], present);
    }
  }

  lemma ListedFacts(routes: Store, namespace: string)
    requires Keyed(routes)
    ensures var listed := Managed(routes, namespace);
            && (forall g :: g in listed ==> listed[g].Key() == ObjectKey(namespace, g))
            && (forall g :: g in listed <==>
                  SlotOf(routes, namespace, g).Some? && IsManaged(SlotOf(routes, namespace, g).value))
            && (forall g :: g in listed ==> SlotOf(routes, namespace, g) == Some(listed[g]))
  {
    forall g {
      ManagedSlot(routes, namespace, g);
    }
  }

  /** What is known of the three parts of a plan. */
  ghost predicate Parts(
    us: seq<Op>, missing: seq<string>, extra: seq<string>, namespace: string, order: seq<string>,
    desired: RouteIndex, listed: RouteIndex)
  {
    && UpdatesExactly(us, order, desired, listed, namespace)
    && (forall g :: g in order <==> g in desired)
    && (forall g :: g in missing <==> g in desired && g !in listed) && Distinct(missing)
    && (forall g :: g in extra <==> g in listed && g !in desired) && Distinct(extra)
  }

  /** The write a GUID needs, from the two indexes the pass builds. */
  ghost function NeededFrom(
    desired: RouteIndex, listed: RouteIndex, namespace: string, g: string): Option<Op>
  {
    if g in desired && g in listed then
      if desired[g].spec != listed[g].spec then Some(Update(listed[g].(spec := desired[g].spec))) else None
    else if g in desired then Some(Create(desired[g]))
    else if g in listed then Some(Delete(ObjectKey(namespace, g)))
    else None
  }

  lemma NeededFromListed(routes: Store, namespace: string, desired: RouteIndex, g: string)
    requires Keyed(routes)
    ensures NeededAt(routes, namespace, desired, g) == NeededFrom(desired, Managed(routes, namespace), namespace, g)
  {
    ManagedSlot(routes, namespace, g);
  }

  lemma PartsComplete(
    us: seq<Op>, missing: seq<string>, extra: seq<string>, namespace: string, order: seq<string>,
    desired: RouteIndex, listed: RouteIndex, g: string)
    requires Parts(us, missing, extra, namespace, order, desired, listed)
    requires NeededFrom(desired, listed, namespace, g).Some?
    ensures NeededFrom(desired, listed, namespace, g).value in
            us + CreateOps(missing, desired) + DeleteOps(extra, namespace)
  {
    var op := NeededFrom(desired, listed, namespace, g).value;
    if g in desired && g in listed {
      assert op in us;
    } else if g in desired {
      var i :| 0 <= i < |missing| && missing[i] == g;
      assert CreateOps(missing, desired)[i] == op;
    } else {
      var i :| 0 <= i < |extra| && extra[i] == g;
      assert DeleteOps(extra, namespace)[i] == op;
    }
  }

  lemma PartsSound(
    us: seq<Op>, missing: seq<string>, extra: seq<string>, namespace: string, order: seq<string>,
    desired: RouteIndex, listed: RouteIndex, i: nat)
    requires Parts(us, missing, extra, namespace, order, desired, listed) && ProperTarget(desired, namespace)
    requires i < |us| + |missing| + |extra|
    ensures var op := (us + CreateOps(missing, desired) + DeleteOps(extra, namespace))[i];
            && op.Target().namespace == namespace
            && NeededFrom(desired, listed, namespace, op.Target().name) == Some(op)
  {
    var m, n := |us|, |us| + |missing|;
    if m <= i < n {
      assert missing[i - m] in missing;
    } else if n <= i {
      assert extra[i - n] in extra;
    }
  }

  lemma PartsDistinct(
    us: seq<Op>, missing: seq<string>, extra: seq<string>, namespace: string, order: seq<string>,
    desired: RouteIndex, listed: RouteIndex, i: nat, j: nat)
    requires Parts(us, missing, extra, namespace, order, desired, listed) && ProperTarget(desired, namespace)
    requires i < j < |us| + |missing| + |extra|
    ensures var ops := us + CreateOps(missing, desired) + DeleteOps(extra, namespace);
            ops[i].Target() != ops[j].Target()
  {
    var m, n := |us|, |us| + |missing|;
    if m <= i < n { assert missing[i - m] in missing; }
    if m <= j < n { assert missing[j - m] in missing; }
    if n <= j { assert extra[j - n] in extra; }
    if n <= i { assert extra[i - n] in extra; }
  }

  /** Whatever the iteration orders, a pass plans exactly the writes its drift calls for, each once. */
  lemma PlanCovers(
    routes: Store, namespace: string, desired: RouteIndex,
    updateOrder: seq<string>, deleteOrder: seq<string>)
    requires Keyed(routes) && ProperTarget(desired, namespace)
    requires Enumerates(updateOrder, desired.Keys) && Enumerates(deleteOrder, Managed(routes, namespace).Keys)
    ensures Covers(Plan(desired, Managed(routes, namespace), namespace, updateOrder, deleteOrder),
                   routes, namespace, desired)
  {
    var listed := Managed(routes, namespace);
    var us, missing, extra :=
      UpdateOps(updateOrder, desired, listed), Without(updateOrder, listed.Keys), Without(deleteOrder, desired.Keys);
    assert Parts(us, missing, extra, namespace, updateOrder, desired, listed) by {
      ListedFacts(routes, namespace);
      UpdateOpsFacts(updateOrder, desired, listed, namespace);
      WithoutMembers(updateOrder, listed.Keys);
      WithoutDistinct(updateOrder, listed.Keys);
      WithoutMembers(deleteOrder, desired.Keys);
      WithoutDistinct(deleteOrder, desired.Keys);
    }
    var ops := us + CreateOps(missing, desired) + DeleteOps(extra, namespace);
    forall i | 0 <= i < |ops|
      ensures ops[i].Target().namespace == namespace
      ensures NeededAt(routes, namespace, desired, ops[i].Target().name) == Some(ops[i])
    {
      PartsSound(us, missing, extra, namespace, updateOrder, desired, listed, i);
      NeededFromListed(routes, namespace, desired, ops[i].Target().name);
    }
    forall g | NeededAt(routes, namespace, desired, g).Some?
      ensures NeededAt(routes, namespace, desired, g).value in ops
    {
      NeededFromListed(routes, namespace, desired, g);
      PartsComplete(us, missing, extra, namespace, updateOrder, desired, listed, g);
    }
    forall i, j | 0 <= i < j < |ops| ensures ops[i].Target() != ops[j].Target() {
      PartsDistinct(us, missing, extra, namespace, updateOrder, desired, listed, i, j);
    }
  }

  /** There is nothing to write exactly when nothing drifts. */
  lemma NoOpsIff(ops: seq<Op>, routes: Store, namespace: string, desired: RouteIndex)
    requires Covers(ops, routes, namespace, desired)
    ensures ops == [] <==> Drift(routes, namespace, desired) == {}
  {
    if ops != [] {
      DriftMember(routes, namespace, desired, ops[0].Target().name);
    }
    forall g | g in Drift(routes, namespace, desired) ensures ops != [] {
      DriftMember(routes, namespace, desired, g);
      assert NeededAt(routes, namespace, desired, g).Some?;
    }
  }

  // ---- Running the writes ------------------------------------------------------------------------------------

  ghost function FaultOf(st: ClusterState, ops: seq<Op>, faults: Schedule, i: nat): Fault
    requires i < |ops|
  {
    faults(|st.calls| + i, ops[i])
  }

  /** The calls a run adds to the history, each answered as if it were the only one. */
  ghost function Replies(st: ClusterState, ops: seq<Op>, faults: Schedule): seq<Call> {
    seq(|ops|, i requires 0 <= i < |ops| =>
      Call(ops[i], Deliver(Slot(st.routes, ops[i].Target()), ops[i], FaultOf(st, ops, faults, i)).1))
  }

  ghost predicate DistinctTargets(ops: seq<Op>) {
    forall i, j :: 0 <= i < j < |ops| ==> ops[i].Target() != ops[j].Target()
  }

  lemma {:induction false} ExecuteKeepsStatus(st: ClusterState, ops: seq<Op>, faults: Schedule)
    ensures var after := Execute(st, ops, faults);
            after.syncs == st.syncs && after.statusWrites == st.statusWrites && |after.calls| == |st.calls| + |ops|
  {
    if ops != [] {
      ExecuteKeepsStatus(st, ops[..|ops| - 1], faults);
    }
  }

  /** A slot that no operation targets stays as it was. */
  lemma {:induction false} ExecuteUntouched(st: ClusterState, ops: seq<Op>, faults: Schedule, k: ObjectKey)
    requires forall i :: 0 <= i < |ops| ==> ops[i].Target() != k
    ensures Slot(Execute(st, ops, faults).routes, k) == Slot(st.routes, k)
  {
    if ops != [] {
      ExecuteUntouched(st, ops[..|ops| - 1], faults, k);
    }
  }

  /** With distinct targets, each operation meets its slot as it was at the start, and has the last word on it. */
  lemma {:induction false} SlotAfter(
    st: ClusterState, ops: seq<Op>, faults: Schedule, i: nat, slot: Option<StoredRoute>)
    requires DistinctTargets(ops)
    requires i < |ops| && slot == Slot(st.routes, ops[i].Target())
    ensures Slot(Execute(st, ops, faults).routes, ops[i].Target())
         == Deliver(slot, ops[i], FaultOf(st, ops, faults, i)).0
  {
    var n := |ops| - 1;
    ExecuteKeepsStatus(st, ops[..n], faults);
    if i == n {
      ExecuteUntouched(st, ops[..n], faults, ops[i].Target());
    } else {
      SlotAfter(st, ops[..n], faults, i, slot);
      assert ops[n].Target() != ops[i].Target();
    }
  }

  /** The history a run adds is one answered call per operation, in order. */
  lemma {:induction false} ExecuteReplies(st: ClusterState, ops: seq<Op>, faults: Schedule)
    requires DistinctTargets(ops)
    ensures Execute(st, ops, faults).calls == st.calls + Replies(st, ops, faults)
  {
    if ops != [] {
      var rest, op := ops[..|ops| - 1], ops[|ops| - 1];
      ExecuteReplies(st, rest, faults);
      ExecuteKeepsStatus(st, rest, faults);
      ExecuteUntouched(st, rest, faults, op.Target());
      assert Replies(st, ops, faults)[..|rest|] == Replies(st, rest, faults);
    }
  }

  lemma ExecuteKeyed(st: ClusterState, ops: seq<Op>, faults: Schedule)
    requires Keyed(st.routes)
    ensures Keyed(Execute(st, ops, faults).routes)
  {
    if ops != [] {
      ExecuteKeyed(st, ops[..|ops| - 1], faults);
    }
  }

  // ---- What one delivery of a needed write does --------------------------------------------------------------

  predicate Foreign(slot: Option<StoredRoute>) {
    slot.Some? && !IsManaged(slot.value)
  }

  lemma DeliverySettles(slot: Option<StoredRoute>, want: Option<StoredRoute>, key: ObjectKey, op: Op, fault: Fault)
    requires Needed(slot, want, key) == Some(op)
    requires want.Some? ==> IsManaged(want.value)
    ensures var (after, reply) := Deliver(slot, op, fault);
            && !InSyncAt(slot, want)
            && (TookEffect(slot, op, fault) ==> InSyncAt(after, want))
            && (!TookEffect(slot, op, fault) ==> after == slot)
            && (Succeeded(Call(op, reply)) ==> TookEffect(slot, op, fault))
            && (Foreign(slot) ==> after == slot && !Succeeded(Call(op, reply)))
            && (fault.Clean? && !Foreign(slot) ==> Succeeded(Call(op, reply)))
            && (slot.Some? && after.Some? ==> after.value == slot.value.(spec := after.value.spec))
  {}

  /** The GUIDs whose write changed the store. */
  ghost function Effective(st: ClusterState, ops: seq<Op>, faults: Schedule): set<string> {
    set i | 0 <= i < |ops|
            && TookEffect(Slot(st.routes, ops[i].Target()), ops[i], faults(|st.calls| + i, ops[i]))
      :: ops[i].Target().name
  }

  lemma NeededTarget(routes: Store, namespace: string, desired: RouteIndex, g: string)
    requires Keyed(routes) && ProperTarget(desired, namespace)
    requires NeededAt(routes, namespace, desired, g).Some?
    ensures NeededAt(routes, namespace, desired, g).value.Target() == ObjectKey(namespace, g)
  {}

  /** With distinct targets, one call decides whether its GUID is in `Effective`. */
  lemma EffectiveAt(st: ClusterState, ops: seq<Op>, faults: Schedule, namespace: string, i: nat)
    requires DistinctTargets(ops) && i < |ops|
    requires forall j :: 0 <= j < |ops| ==> ops[j].Target().namespace == namespace
    ensures ops[i].Target().name in Effective(st, ops, faults) <==>
            TookEffect(Slot(st.routes, ops[i].Target()), ops[i], FaultOf(st, ops, faults, i))
  {
    var g := ops[i].Target().name;
    if g in Effective(st, ops, faults) {
      var j :| 0 <= j < |ops| && ops[j].Target().name == g
               && TookEffect(Slot(st.routes, ops[j].Target()), ops[j], faults(|st.calls| + j, ops[j]));
      assert ops[j].Target() == ops[i].Target();
    }
  }

  /** A drifting GUID has one write in the plan, and it decides whether the GUID is in `Effective`. */
  lemma WriteFor(
    st: ClusterState, ops: seq<Op>, faults: Schedule, namespace: string, desired: RouteIndex, g: string)
    returns (i: nat)
    requires Keyed(st.routes) && Covers(ops, st.routes, namespace, desired) && ProperTarget(desired, namespace)
    requires NeededAt(st.routes, namespace, desired, g).Some?
    ensures i < |ops| && ops[i] == NeededAt(st.routes, namespace, desired, g).value
    ensures ops[i].Target() == ObjectKey(namespace, g)
    ensures g in Effective(st, ops, faults) <==>
            TookEffect(SlotOf(st.routes, namespace, g), ops[i], FaultOf(st, ops, faults, i))
  {
    var op := NeededAt(st.routes, namespace, desired, g).value;
    NeededTarget(st.routes, namespace, desired, g);
    assert op in ops;
    i :| 0 <= i < |ops| && ops[i] == op;
    EffectiveAt(st, ops, faults, namespace, i);
  }

  lemma SlotUntouched(
    st: ClusterState, ops: seq<Op>, faults: Schedule, namespace: string, desired: RouteIndex, g: string)
    requires Keyed(st.routes) && Covers(ops, st.routes, namespace, desired) && ProperTarget(desired, namespace)
    requires NeededAt(st.routes, namespace, desired, g).None?
    ensures SlotOf(Execute(st, ops, faults).routes, namespace, g) == SlotOf(st.routes, namespace, g)
    ensures g !in Effective(st, ops, faults)
  {
    assert forall i :: 0 <= i < |ops| ==> ops[i].Target().name != g;
    ExecuteUntouched(st, ops, faults, ObjectKey(namespace, g));
  }

  /** One GUID across the writes of a pass. */
  lemma ExecuteAt(
    st: ClusterState, ops: seq<Op>, faults: Schedule, namespace: string, desired: RouteIndex, g: string)
    requires Keyed(st.routes) && Covers(ops, st.routes, namespace, desired) && ProperTarget(desired, namespace)
    ensures var after := Execute(st, ops, faults);
            var slot, slot' := SlotOf(st.routes, namespace, g), SlotOf(after.routes, namespace, g);
            && (InSyncAt(slot', Lookup(desired, g)) <==>
                InSyncAt(slot, Lookup(desired, g)) || g in Effective(st, ops, faults))
            && (g in Effective(st, ops, faults) ==> !InSyncAt(slot, Lookup(desired, g)))
            && (g !in Effective(st, ops, faults) ==> slot' == slot)
            && (Foreign(slot) ==> slot' == slot)
            && (slot.Some? && slot'.Some? ==> slot'.value == slot.value.(spec := slot'.value.spec))
  {
    var slot, want := SlotOf(st.routes, namespace, g), Lookup(desired, g);
    if NeededAt(st.routes, namespace, desired, g).Some? {
      var i := WriteFor(st, ops, faults, namespace, desired, g);
      SlotAfter(st, ops, faults, i, slot);
      DeliverySettles(slot, want, ObjectKey(namespace, g), ops[i], FaultOf(st, ops, faults, i));
    } else {
      SlotUntouched(st, ops, faults, namespace, desired, g);
    }
  }

  /** A pass removes from the drift exactly the GUIDs whose write took effect, and adds none. */
  lemma ExecuteDrift(
    st: ClusterState, ops: seq<Op>, faults: Schedule, namespace: string, desired: RouteIndex)
    requires Keyed(st.routes) && Covers(ops, st.routes, namespace, desired) && ProperTarget(desired, namespace)
    ensures Effective(st, ops, faults) <= Drift(st.routes, namespace, desired)
    ensures Drift(Execute(st, ops, faults).routes, namespace, desired) ==
            Drift(st.routes, namespace, desired) - Effective(st, ops, faults)
  {
    var after := Execute(st, ops, faults);
    forall g
      ensures g in Drift(after.routes, namespace, desired) <==>
              g in Drift(st.routes, namespace, desired) && g !in Effective(st, ops, faults)
      ensures g in Effective(st, ops, faults) ==> g in Drift(st.routes, namespace, desired)
    {
      ExecuteAt(st, ops, faults, namespace, desired, g);
      DriftMember(st.routes, namespace, desired, g);
      DriftMember(after.routes, namespace, desired, g);
    }
  }

  /** What a reply says about the GUID it answers for. */
  lemma ReplyAt(
    st: ClusterState, ops: seq<Op>, faults: Schedule, namespace: string, desired: RouteIndex, i: nat)
    requires Keyed(st.routes) && Covers(ops, st.routes, namespace, desired) && ProperTarget(desired, namespace)
    requires i < |ops|
    ensures var g, call := ops[i].Target().name, Replies(st, ops, faults)[i];
            var slot := SlotOf(st.routes, namespace, g);
            && (Foreign(slot) ==> !Succeeded(call))
            && (FaultOf(st, ops, faults, i).Clean? && !Foreign(slot) ==> Succeeded(call))
            && (Succeeded(call) ==> TookEffect(slot, ops[i], FaultOf(st, ops, faults, i)))
  {
    var g := ops[i].Target().name;
    assert ops[i].Target() == ObjectKey(namespace, g);
    DeliverySettles(SlotOf(st.routes, namespace, g), Lookup(desired, g), ObjectKey(namespace, g), ops[i],
                    FaultOf(st, ops, faults, i));
  }

  /** When every reply counts as success, every drifting GUID had an effective write. */
  lemma SuccessIsEffective(
    st: ClusterState, ops: seq<Op>, faults: Schedule, namespace: string, desired: RouteIndex)
    requires Keyed(st.routes) && Covers(ops, st.routes, namespace, desired) && ProperTarget(desired, namespace)
    requires AllSucceeded(Replies(st, ops, faults))
    ensures Drift(st.routes, namespace, desired) <= Effective(st, ops, faults)
  {
    forall g | g in Drift(st.routes, namespace, desired) ensures g in Effective(st, ops, faults) {
      DriftMember(st.routes, namespace, desired, g);
      var i := WriteFor(st, ops, faults, namespace, desired, g);
      ReplyAt(st, ops, faults, namespace, desired, i);
      assert Replies(st, ops, faults)[i] in Replies(st, ops, faults);
    }
  }

  /** Without faults, the calls all succeed exactly when no wanted name belongs to a foreign route. */
  lemma CleanSuccessIff(
    st: ClusterState, ops: seq<Op>, faults: Schedule, namespace: string, desired: RouteIndex)
    requires Keyed(st.routes) && Covers(ops, st.routes, namespace, desired) && ProperTarget(desired, namespace)
    requires forall n, op :: faults(n, op) == Clean
    ensures AllSucceeded(Replies(st, ops, faults)) <==>
            forall g :: g in desired ==> !Foreign(SlotOf(st.routes, namespace, g))
  {
    var calls := Replies(st, ops, faults);
    forall g | g in desired && Foreign(SlotOf(st.routes, namespace, g)) ensures !AllSucceeded(calls) {
      var i := WriteFor(st, ops, faults, namespace, desired, g);
      ReplyAt(st, ops, faults, namespace, desired, i);
      assert calls[i] in calls;
    }
    if forall g :: g in desired ==> !Foreign(SlotOf(st.routes, namespace, g)) {
      forall i | 0 <= i < |calls| ensures Succeeded(calls[i]) {
        ReplyAt(st, ops, faults, namespace, desired, i);
        assert NeededAt(st.routes, namespace, desired, ops[i].Target().name) == Some(ops[i]);
      }
    }
  }
}
