/** Two more facts about a pass: the map iteration orders do not matter, and only one page of routes is seen. */
module PeriodicSyncOrder {
  import opened Common
  import opened RouteTranslator
  import opened Cluster
  import opened PeriodicSyncController
  import opened RouteDrift
  import opened PeriodicSyncTheorems

  // ---- Order independence ------------------------------------------------------------------------------------

  /** What happens to a call depends on the call, not on how many came before it. */
  ghost predicate Timeless(faults: Schedule) {
    forall m, n, op :: faults(m, op) == faults(n, op)
  }

  lemma SlotsDetermineStore(a: Store, b: Store)
    requires forall k :: Slot(a, k) == Slot(b, k)
    ensures a == b
  {
    assert forall k :: k in a <==> Slot(a, k).Some?;
    assert forall k :: k in b <==> Slot(b, k).Some?;
    forall k | k in a ensures k in b && a[k] == b[k] {
      assert Slot(a, k) == Slot(b, k);
    }
  }

  /** Two orders of the same writes leave the same slot behind. */
  lemma SameSlot(
    st: ClusterState, ops: seq<Op>, ops': seq<Op>, faults: Schedule, namespace: string,
    desired: RouteIndex, k: ObjectKey)
    requires Keyed(st.routes) && ProperTarget(desired, namespace) && Timeless(faults)
    requires Covers(ops, st.routes, namespace, desired) && Covers(ops', st.routes, namespace, desired)
    ensures Slot(Execute(st, ops, faults).routes, k) == Slot(Execute(st, ops', faults).routes, k)
  {
    if k.namespace != namespace {
      ExecuteUntouched(st, ops, faults, k);
      ExecuteUntouched(st, ops', faults, k);
    } else if NeededAt(st.routes, namespace, desired, k.name).None? {
      SlotUntouched(st, ops, faults, namespace, desired, k.name);
      SlotUntouched(st, ops', faults, namespace, desired, k.name);
    } else {
      var i := WriteFor(st, ops, faults, namespace, desired, k.name);
      var j := WriteFor(st, ops', faults, namespace, desired, k.name);
      SlotAfter(st, ops, faults, i, Slot(st.routes, k));
      SlotAfter(st, ops', faults, j, Slot(st.routes, k));
      assert FaultOf(st, ops, faults, i) == FaultOf(st, ops', faults, j);
    }
  }

  /** Every call of one order is also a call, with the same reply, of the other. */
  lemma SameReplies(
    st: ClusterState, ops: seq<Op>, ops': seq<Op>, faults: Schedule, namespace: string,
    desired: RouteIndex)
    requires Keyed(st.routes) && ProperTarget(desired, namespace) && Timeless(faults)
    requires Covers(ops, st.routes, namespace, desired) && Covers(ops', st.routes, namespace, desired)
    ensures forall c :: c in Replies(st, ops, faults) ==> c in Replies(st, ops', faults)
  {
    var calls, calls' := Replies(st, ops, faults), Replies(st, ops', faults);
    forall i | 0 <= i < |calls| ensures calls[i] in calls' {
      assert NeededAt(st.routes, namespace, desired, ops[i].Target().name) == Some(ops[i]);
      var j := WriteFor(st, ops', faults, namespace, desired, ops[i].Target().name);
      assert FaultOf(st, ops, faults, i) == FaultOf(st, ops', faults, j);
      assert calls'[j] == calls[i];
    }
  }

  lemma SameWrites(
    st: ClusterState, ops: seq<Op>, ops': seq<Op>, faults: Schedule, namespace: string,
    desired: RouteIndex)
    requires Keyed(st.routes) && ProperTarget(desired, namespace) && Timeless(faults)
    requires Covers(ops, st.routes, namespace, desired) && Covers(ops', st.routes, namespace, desired)
    ensures Execute(st, ops, faults).routes == Execute(st, ops', faults).routes
    ensures AllSucceeded(Replies(st, ops, faults)) <==> AllSucceeded(Replies(st, ops', faults))
  {
    forall k ensures Slot(Execute(st, ops, faults).routes, k) == Slot(Execute(st, ops', faults).routes, k) {
      SameSlot(st, ops, ops', faults, namespace, desired, k);
    }
    SlotsDetermineStore(Execute(st, ops, faults).routes, Execute(st, ops', faults).routes);
    SameReplies(st, ops, ops', faults, namespace, desired);
    SameReplies(st, ops', ops, faults, namespace, desired);
  }

  /** Equal up to the order of the recorded route calls. */
  predicate SameButCalls(a: ClusterState, b: ClusterState) {
    a.routes == b.routes && a.syncs == b.syncs && a.statusWrites == b.statusWrites
  }

  lemma ConcludeAlike(a: ClusterState, b: ClusterState, earlier: nat, sync: PeriodicSync, fault: StatusFault)
    requires SameButCalls(a, b) && earlier <= |a.calls| && earlier <= |b.calls|
    requires AllSucceeded(a.calls[earlier..]) <==> AllSucceeded(b.calls[earlier..])
    ensures SameButCalls(Conclude(a, earlier, sync, fault).0, Conclude(b, earlier, sync, fault).0)
    ensures Conclude(a, earlier, sync, fault).1 == Conclude(b, earlier, sync, fault).1
  {}

  /** The stores, the status and the result of a pass do not depend on the order in which Go ranges over its maps. */
  lemma {:induction false} OrderIndependence(
    p: PassInput, q: PassInput, st: ClusterState, namespace: string, desired: RouteIndex)
    requires Fits(p, st, namespace, desired) && Fits(q, st, namespace, desired)
    requires p.request == q.request && p.env == q.env && Timeless(p.env.writes)
    ensures SameButCalls(After(p, st, namespace, desired), After(q, st, namespace, desired))
    ensures OutcomeOf(p, st, namespace, desired) == OutcomeOf(q, st, namespace, desired)
  {
    if ReadsSucceed(st, p.request, p.env) {
      var faults, ops, ops' := p.env.writes, OpsOf(p, st, namespace, desired), OpsOf(q, st, namespace, desired);
      OpsCover(p, st, namespace, desired);
      OpsCover(q, st, namespace, desired);
      SameWrites(st, ops, ops', faults, namespace, desired);
      PassConcludes(p, st, namespace, desired);
      PassConcludes(q, st, namespace, desired);
      ConcludeAlike(Execute(st, ops, faults), Execute(st, ops', faults), |st.calls|, st.syncs[p.request], p.env.status);
    }
  }

  // ---- The page bound ----------------------------------------------------------------------------------------

  /** `client.go:48`; ListRoutes sends one request and never asks for a second page (`client.go:103-131`). */
  const MAX_RESULTS_PER_PAGE: nat := 5000

  function FirstPage(all: seq<CfRoute>): seq<CfRoute> {
    if |all| <= MAX_RESULTS_PER_PAGE then all else all[..MAX_RESULTS_PER_PAGE]
  }

  function Guids(routes: seq<CfRoute>): set<string> {
    set r | r in routes :: r.guid
  }

  ghost predicate DistinctGuids(routes: seq<CfRoute>) {
    forall i, j :: 0 <= i < j < |routes| ==> routes[i].guid != routes[j].guid
  }

  lemma PageGuids(all: seq<CfRoute>)
    requires DistinctGuids(all)
    ensures Guids(FirstPage(all)) == Guids(all) <==> |all| <= MAX_RESULTS_PER_PAGE
    ensures forall i :: MAX_RESULTS_PER_PAGE <= i < |all| ==> all[i].guid !in Guids(FirstPage(all))
  {
    var page := FirstPage(all);
    forall i | MAX_RESULTS_PER_PAGE <= i < |all| ensures all[i].guid !in Guids(page) && all[i].guid in Guids(all) {
      assert forall j :: 0 <= j < |page| ==> page[j] == all[j] && page[j].guid != all[i].guid;
    }
    if |all| > MAX_RESULTS_PER_PAGE {
      assert all[MAX_RESULTS_PER_PAGE].guid in Guids(all);
    }
  }

  /**
   * A successful pass manages exactly the first page of CF's routes: that is all of them if and only if there are
   * at most 5000, and every route beyond the page is gone from Kubernetes.
   */
  lemma {:induction false} PageBound(
    p: PassInput, st: ClusterState, namespace: string, list: RouteList, all: seq<CfRoute>)
    requires Closed(list) && Fits(p, st, namespace, Desired(list, namespace))
    requires list.resources == FirstPage(all) && DistinctGuids(all)
    requires p.request in st.syncs && st.syncs[p.request].key == p.request
    requires OutcomeOf(p, st, namespace, Desired(list, namespace)).err.None?
    ensures var managed := Managed(After(p, st, namespace, Desired(list, namespace)).routes, namespace).Keys;
            && managed == Guids(FirstPage(all))
            && (managed == Guids(all) <==> |all| <= 5000)
            && (forall i :: 0 <= i < |all| ==> (all[i].guid in managed <==> i < 5000))
  {
    HonestSuccess(p, st, namespace, Desired(list, namespace));
    DesiredIsProper(list, namespace);
    ListedGuids(list);
    PageGuids(all);
  }

  lemma ListedGuids(list: RouteList)
    ensures RoutesOf(list).Keys == Guids(list.resources)
  {
    IndexKeys(list.resources, (r: CfRoute) => r.guid);
  }
}
