/**
 * What a pass of the route reconciler, and any run of passes, guarantees. Everything is stated about
 * `PeriodicSyncController.Pass`, which the imperative `Reconcile` is proved to perform.
 */
module PeriodicSyncTheorems {
  import opened Common
  import opened RouteTranslator
  import opened Cluster
  import opened PeriodicSyncController
  import opened RouteDrift

  /** Everything that parametrises one pass besides the state it starts from. */
  datatype PassInput =
    PassInput(request: ObjectKey, env: PassEnv, updateOrder: seq<string>, deleteOrder: seq<string>)

  /** `p` may be run from `st`, when what CF asks for is `desired`. */
  ghost predicate Fits(p: PassInput, st: ClusterState, namespace: string, desired: RouteIndex) {
    && Keyed(st.routes)
    && ProperTarget(desired, namespace)
    && ValidOrders(st, namespace, desired, p.updateOrder, p.deleteOrder)
  }

  ghost function After(p: PassInput, st: ClusterState, namespace: string, desired: RouteIndex): ClusterState
    requires Fits(p, st, namespace, desired)
  {
    Pass(st, p.request, namespace, desired, p.env, p.updateOrder, p.deleteOrder).0
  }

  ghost function OutcomeOf(p: PassInput, st: ClusterState, namespace: string, desired: RouteIndex): Outcome
    requires Fits(p, st, namespace, desired)
  {
    Pass(st, p.request, namespace, desired, p.env, p.updateOrder, p.deleteOrder).1
  }

  /** The route writes of the pass: none unless it gets past its reads. */
  ghost function OpsOf(p: PassInput, st: ClusterState, namespace: string, desired: RouteIndex): seq<Op>
    requires Fits(p, st, namespace, desired)
  {
    if ReadsSucceed(st, p.request, p.env)
    then Plan(desired, Managed(st.routes, namespace), namespace, p.updateOrder, p.deleteOrder) else []
  }

  /** The GUIDs on which one of the pass's writes changed the store. */
  ghost function EffectsOf(p: PassInput, st: ClusterState, namespace: string, desired: RouteIndex): set<string>
    requires Fits(p, st, namespace, desired)
  {
    Effective(st, OpsOf(p, st, namespace, desired), p.env.writes)
  }

  /** Only the planned route writes touch the route store. */
  lemma PassIsItsOps(p: PassInput, st: ClusterState, namespace: string, desired: RouteIndex)
    requires Fits(p, st, namespace, desired)
    ensures var ran := Execute(st, OpsOf(p, st, namespace, desired), p.env.writes);
            After(p, st, namespace, desired).routes == ran.routes && After(p, st, namespace, desired).calls == ran.calls
  {
    if ReadsSucceed(st, p.request, p.env) {
      var ran := Execute(st, OpsOf(p, st, namespace, desired), p.env.writes);
      assert After(p, st, namespace, desired) == Conclude(ran, |st.calls|, st.syncs[p.request], p.env.status).0;
    }
  }

  lemma PassKeepsKeys(p: PassInput, st: ClusterState, namespace: string, desired: RouteIndex)
    requires Fits(p, st, namespace, desired)
    ensures Keyed(After(p, st, namespace, desired).routes)
  {
    PassIsItsOps(p, st, namespace, desired);
    ExecuteKeyed(st, OpsOf(p, st, namespace, desired), p.env.writes);
  }

  lemma OpsCover(p: PassInput, st: ClusterState, namespace: string, desired: RouteIndex)
    requires Fits(p, st, namespace, desired) && ReadsSucceed(st, p.request, p.env)
    ensures Covers(OpsOf(p, st, namespace, desired), st.routes, namespace, desired)
  {
    PlanCovers(st.routes, namespace, desired, p.updateOrder, p.deleteOrder);
  }

  // ---- Convergence under faults ------------------------------------------------------------------------------

  /** Two steps of removal are one. */
  lemma SubtractTwice<T>(d0: set<T>, e1: set<T>, d1: set<T>, e2: set<T>, d2: set<T>)
    requires e1 <= d0 && d1 == d0 - e1 && e2 <= d1 && d2 == d1 - e2
    ensures e1 + e2 <= d0 && d2 == d0 - (e1 + e2)
  {}

  lemma SubtractCardinality<T>(a: set<T>, b: set<T>)
    requires b <= a
    ensures |a - b| == |a| - |b|
  {
    assert a == (a - b) + b;
  }

  /**
   * Whatever fails, one pass takes out of the drift exactly the GUIDs whose write took effect; the drift never
   * grows and shrinks by one per such GUID.
   */
  lemma {:induction false} PassDrift(p: PassInput, st: ClusterState, namespace: string, desired: RouteIndex)
    requires Fits(p, st, namespace, desired)
    ensures var effects := EffectsOf(p, st, namespace, desired);
            var before, after :=
              Drift(st.routes, namespace, desired), Drift(After(p, st, namespace, desired).routes, namespace, desired);
            && effects <= before
            && after == before - effects
            && |after| == |before| - |effects|
  {
    PassIsItsOps(p, st, namespace, desired);
    var ops := OpsOf(p, st, namespace, desired);
    if ReadsSucceed(st, p.request, p.env) {
      OpsCover(p, st, namespace, desired);
      ExecuteDrift(st, ops, p.env.writes, namespace, desired);
    }
    SubtractCardinality(Drift(st.routes, namespace, desired), EffectsOf(p, st, namespace, desired));
  }

  ghost predicate ValidRun(passes: seq<PassInput>, st: ClusterState, namespace: string, desired: RouteIndex)
    decreases passes
  {
    passes != [] ==>
      && Fits(passes[0], st, namespace, desired)
      && ValidRun(passes[1..], After(passes[0], st, namespace, desired), namespace, desired)
  }

  ghost function RunAll(passes: seq<PassInput>, st: ClusterState, namespace: string, desired: RouteIndex): ClusterState
    requires ValidRun(passes, st, namespace, desired)
    decreases passes
  {
    if passes == [] then st else RunAll(passes[1..], After(passes[0], st, namespace, desired), namespace, desired)
  }

  ghost function RunEffects(passes: seq<PassInput>, st: ClusterState, namespace: string, desired: RouteIndex)
    : set<string>
    requires ValidRun(passes, st, namespace, desired)
    decreases passes
  {
    if passes == [] then {} else
    EffectsOf(passes[0], st, namespace, desired)
    + RunEffects(passes[1..], After(passes[0], st, namespace, desired), namespace, desired)
  }

  lemma {:induction false} RunDrift(passes: seq<PassInput>, st: ClusterState, namespace: string, desired: RouteIndex)
    requires ValidRun(passes, st, namespace, desired)
    ensures var effects := RunEffects(passes, st, namespace, desired);
            var before := Drift(st.routes, namespace, desired);
            && effects <= before
            && Drift(RunAll(passes, st, namespace, desired).routes, namespace, desired) == before - effects
    decreases passes
  {
    if passes != [] {
      var p, mid := passes[0], After(passes[0], st, namespace, desired);
      PassDrift(p, st, namespace, desired);
      RunDrift(passes[1..], mid, namespace, desired);
      SubtractTwice(Drift(st.routes, namespace, desired), EffectsOf(p, st, namespace, desired),
                    Drift(mid.routes, namespace, desired), RunEffects(passes[1..], mid, namespace, desired),
                    Drift(RunAll(passes[1..], mid, namespace, desired).routes, namespace, desired));
    }
  }

  /**
   * Convergence: over any run of passes with any faults, what is left of the drift is what has not yet had one
   * effective write. Kubernetes agrees with CF exactly when every GUID of the initial drift has had one.
   */
  lemma {:induction false} Convergence(passes: seq<PassInput>, st: ClusterState, namespace: string, desired: RouteIndex)
    requires ValidRun(passes, st, namespace, desired)
    ensures var effects := RunEffects(passes, st, namespace, desired);
            var before, final := Drift(st.routes, namespace, desired), RunAll(passes, st, namespace, desired).routes;
            && |Drift(final, namespace, desired)| == |before| - |effects|
            && (before == effects <==>
                  && Managed(final, namespace).Keys == desired.Keys
                  && forall g :: g in desired ==> Managed(final, namespace)[g].spec == desired[g].spec)
  {
    var effects := RunEffects(passes, st, namespace, desired);
    var before := Drift(st.routes, namespace, desired);
    RunDrift(passes, st, namespace, desired);
    SubtractCardinality(before, effects);
    NoDriftMeaning(RunAll(passes, st, namespace, desired).routes, namespace, desired);
    if before - effects == {} {
      assert before == effects;
    }
  }

  /**
   * A run never has to end: whatever has happened, whichever object is requested and whatever the world answers, a
   * further pass can be run, with some iteration order of each map. So `Convergence` speaks of runs of any length.
   */
  lemma {:induction false} RunExtends(
    passes: seq<PassInput>, st: ClusterState, namespace: string, desired: RouteIndex, request: ObjectKey, env: PassEnv)
    returns (updateOrder: seq<string>, deleteOrder: seq<string>)
    requires Keyed(st.routes) && ProperTarget(desired, namespace) && ValidRun(passes, st, namespace, desired)
    ensures ValidRun(passes + [PassInput(request, env, updateOrder, deleteOrder)], st, namespace, desired)
    decreases passes
  {
    if passes == [] {
      updateOrder := AnyOrder(desired.Keys);
      deleteOrder := AnyOrder(Managed(st.routes, namespace).Keys);
      assert Fits(PassInput(request, env, updateOrder, deleteOrder), st, namespace, desired);
    } else {
      var mid := After(passes[0], st, namespace, desired);
      PassKeepsKeys(passes[0], st, namespace, desired);
      updateOrder, deleteOrder := RunExtends(passes[1..], mid, namespace, desired, request, env);
      var p := PassInput(request, env, updateOrder, deleteOrder);
      assert (passes + [p])[1..] == passes[1..] + [p];
    }
  }

  // ---- Frame -------------------------------------------------------------------------------------------------

  /** Slots a pass may not touch: other namespaces, and routes without the managed-by label. */
  predicate OffLimits(st: ClusterState, namespace: string, k: ObjectKey) {
    k.namespace != namespace || Foreign(Slot(st.routes, k))
  }

  lemma {:induction false} PassFrame(
    p: PassInput, st: ClusterState, namespace: string, desired: RouteIndex, k: ObjectKey)
    requires Fits(p, st, namespace, desired)
    ensures var slot, slot' := Slot(st.routes, k), Slot(After(p, st, namespace, desired).routes, k);
            && (OffLimits(st, namespace, k) ==> slot' == slot)
            && (slot.Some? && slot'.Some? ==> slot'.value == slot.value.(spec := slot'.value.spec))
  {
    PassIsItsOps(p, st, namespace, desired);
    if ReadsSucceed(st, p.request, p.env) {
      OpsCover(p, st, namespace, desired);
      var ops := OpsOf(p, st, namespace, desired);
      if k.namespace == namespace {
        ExecuteAt(st, ops, p.env.writes, namespace, desired, k.name);
      } else {
        ExecuteUntouched(st, ops, p.env.writes, k);
      }
    }
  }

  /** Over any run, off-limits routes are untouched; a CF GUID whose name is taken by one stays in the drift. */
  lemma {:induction false} RunFrame(
    passes: seq<PassInput>, st: ClusterState, namespace: string, desired: RouteIndex, k: ObjectKey)
    requires ValidRun(passes, st, namespace, desired)
    requires OffLimits(st, namespace, k)
    ensures Slot(RunAll(passes, st, namespace, desired).routes, k) == Slot(st.routes, k)
    ensures k.namespace == namespace && k.name in desired ==>
              k.name in Drift(RunAll(passes, st, namespace, desired).routes, namespace, desired)
    decreases passes
  {
    if passes != [] {
      PassFrame(passes[0], st, namespace, desired, k);
      RunFrame(passes[1..], After(passes[0], st, namespace, desired), namespace, desired, k);
    } else if k.namespace == namespace {
      DriftMember(st.routes, namespace, desired, k.name);
    }
  }

  // ---- Honest results ----------------------------------------------------------------------------------------

  /** Every planned write is attempted once, in order, whatever happens to the others. */
  lemma {:induction false} EveryWriteAttempted(p: PassInput, st: ClusterState, namespace: string, desired: RouteIndex)
    requires Fits(p, st, namespace, desired) && ReadsSucceed(st, p.request, p.env)
    ensures var ops := OpsOf(p, st, namespace, desired);
            After(p, st, namespace, desired).calls == st.calls + Replies(st, ops, p.env.writes)
  {
    PassIsItsOps(p, st, namespace, desired);
    OpsCover(p, st, namespace, desired);
    ExecuteReplies(st, OpsOf(p, st, namespace, desired), p.env.writes);
  }

  /** The calls a pass adds to the history. */
  ghost function NewCalls(p: PassInput, st: ClusterState, namespace: string, desired: RouteIndex): seq<Call>
    requires Fits(p, st, namespace, desired)
  {
    Replies(st, OpsOf(p, st, namespace, desired), p.env.writes)
  }

  /** The part of a pass after its reads, in terms of the calls it adds. */
  lemma PassConcludes(p: PassInput, st: ClusterState, namespace: string, desired: RouteIndex)
    requires Fits(p, st, namespace, desired) && ReadsSucceed(st, p.request, p.env)
    ensures var ran := Execute(st, OpsOf(p, st, namespace, desired), p.env.writes);
            && (After(p, st, namespace, desired), OutcomeOf(p, st, namespace, desired))
               == Conclude(ran, |st.calls|, st.syncs[p.request], p.env.status)
            && |st.calls| <= |ran.calls| && ran.calls[|st.calls|..] == NewCalls(p, st, namespace, desired)
            && ran.syncs == st.syncs && ran.statusWrites == st.statusWrites
  {
    OpsCover(p, st, namespace, desired);
    ExecuteKeepsStatus(st, OpsOf(p, st, namespace, desired), p.env.writes);
    ExecuteReplies(st, OpsOf(p, st, namespace, desired), p.env.writes);
  }

  /** When all replies of a pass count as success, every write really took effect, so nothing drifts. */
  lemma SuccessMeansNoDrift(p: PassInput, st: ClusterState, namespace: string, desired: RouteIndex)
    requires Fits(p, st, namespace, desired) && ReadsSucceed(st, p.request, p.env)
    requires AllSucceeded(NewCalls(p, st, namespace, desired))
    ensures Drift(After(p, st, namespace, desired).routes, namespace, desired) == {}
  {
    OpsCover(p, st, namespace, desired);
    PassDrift(p, st, namespace, desired);
    SuccessIsEffective(st, OpsOf(p, st, namespace, desired), p.env.writes, namespace, desired);
  }

  lemma {:induction false} NoErrorWhen(p: PassInput, st: ClusterState, namespace: string, desired: RouteIndex)
    requires Fits(p, st, namespace, desired)
    requires p.request in st.syncs ==> st.syncs[p.request].key == p.request
    ensures OutcomeOf(p, st, namespace, desired).err.None? <==>
            || (p.env.getError.None? && p.request !in st.syncs)
            || (ReadsSucceed(st, p.request, p.env) && p.env.status.StatusClean?
                && AllSucceeded(NewCalls(p, st, namespace, desired)))
  {
    if ReadsSucceed(st, p.request, p.env) {
      PassConcludes(p, st, namespace, desired);
    }
  }

  /** The calls from position n on that a pass must not forgive: not accepted, and not a delete of something gone. */
  ghost predicate Unforgiven(calls: seq<Call>, n: nat) {
    exists i :: n <= i < |calls| && !calls[i].reply.Accepted? && !(calls[i].op.Delete? && calls[i].reply.NotFound?)
  }

  lemma UnforgivenSuffix(before: seq<Call>, calls: seq<Call>)
    ensures Unforgiven(before + calls, |before|) <==> !AllSucceeded(calls)
  {
    var all, n := before + calls, |before|;
    if Unforgiven(all, n) {
      var i :| n <= i < |all| && !all[i].reply.Accepted? && !(all[i].op.Delete? && all[i].reply.NotFound?);
      assert all[i] == calls[i - n] && calls[i - n] in calls;
    }
    if !AllSucceeded(calls) {
      var i :| 0 <= i < |calls| && !Succeeded(calls[i]);
      assert all[n + i] == calls[i];
    }
  }

  /** In terms of the recorded calls. */
  lemma {:induction false} RecordedCalls(p: PassInput, st: ClusterState, namespace: string, desired: RouteIndex)
    requires Fits(p, st, namespace, desired)
    ensures var after := After(p, st, namespace, desired).calls;
            && st.calls <= after
            && (Unforgiven(after, |st.calls|) ==> ReadsSucceed(st, p.request, p.env))
            && (ReadsSucceed(st, p.request, p.env) ==>
                  (Unforgiven(after, |st.calls|) <==> !AllSucceeded(NewCalls(p, st, namespace, desired))))
  {
    PassIsItsOps(p, st, namespace, desired);
    if ReadsSucceed(st, p.request, p.env) {
      EveryWriteAttempted(p, st, namespace, desired);
      UnforgivenSuffix(st.calls, NewCalls(p, st, namespace, desired));
    }
  }

  /**
   * A pass returns no error exactly when the PeriodicSync is gone, or every read and the status write succeeded and
   * every call it recorded was accepted, or was a delete answered NotFound.
   */
  lemma {:induction false} NoErrorIff(p: PassInput, st: ClusterState, namespace: string, desired: RouteIndex)
    requires Fits(p, st, namespace, desired)
    requires p.request in st.syncs ==> st.syncs[p.request].key == p.request
    ensures OutcomeOf(p, st, namespace, desired).err.None? <==>
            && p.env.getError.None?
            && (p.request in st.syncs ==>
                  && p.env.cfError.None? && p.env.listError.None? && p.env.status.StatusClean?
                  && var calls := After(p, st, namespace, desired).calls;
                     forall i :: |st.calls| <= i < |calls| ==>
                       calls[i].reply.Accepted? || (calls[i].op.Delete? && calls[i].reply.NotFound?))
  {
    NoErrorWhen(p, st, namespace, desired);
    RecordedCalls(p, st, namespace, desired);
  }

  /** A read that fails ends the pass: no route is touched, and the failure is returned and written to the status. */
  lemma FailedReadIsReported(p: PassInput, st: ClusterState, namespace: string, desired: RouteIndex)
    requires Fits(p, st, namespace, desired)
    ensures var after, outcome := After(p, st, namespace, desired), OutcomeOf(p, st, namespace, desired);
            && (p.env.getError.Some? ==>
                  && outcome == Outcome(0, p.env.getError)
                  && after == st.(syncs := after.syncs, statusWrites := st.statusWrites + [
                       PeriodicSync(ObjectKey("", ""), 0,
                                    [Condition("Synced", "False", "Failed", p.env.getError.value)])]))
            && (p.env.getError.None? && p.request !in st.syncs ==> outcome == Outcome(0, None) && after == st)
            && (p.env.getError.None? && p.request in st.syncs && p.env.cfError.Some? ==>
                  && outcome == Outcome(0, Some("error listing routes from CF API: " + p.env.cfError.value))
                  && FailureWritten(p, st, after, p.env.cfError.value))
            && (p.env.getError.None? && p.request in st.syncs && p.env.cfError.None? && p.env.listError.Some? ==>
                  && outcome == Outcome(0, Some("error listing routes from kubernetes API: " + p.env.listError.value))
                  && FailureWritten(p, st, after, p.env.listError.value))
  {}

  /** Only the status has changed: Synced=False was sent, and is stored if the status write went through. */
  ghost predicate FailureWritten(p: PassInput, st: ClusterState, after: ClusterState, message: string)
    requires p.request in st.syncs
  {
    var failed := st.syncs[p.request].(conditions := [Condition("Synced", "False", "Failed", message)]);
    && after == st.(syncs := after.syncs, statusWrites := st.statusWrites + [failed])
    && (p.env.status.StatusClean? && failed.key == p.request ==> after.syncs == st.syncs[p.request := failed])
  }

  /** A pass that returns no error leaves the managed routes exactly what CF asks for. */
  lemma {:induction false} HonestSuccess(p: PassInput, st: ClusterState, namespace: string, desired: RouteIndex)
    requires Fits(p, st, namespace, desired)
    requires p.request in st.syncs && st.syncs[p.request].key == p.request
    requires OutcomeOf(p, st, namespace, desired).err.None?
    ensures var managed := Managed(After(p, st, namespace, desired).routes, namespace);
            && managed.Keys == desired.Keys
            && forall g :: g in managed ==> managed[g].spec == desired[g].spec
  {
    NoErrorWhen(p, st, namespace, desired);
    SuccessMeansNoDrift(p, st, namespace, desired);
    NoDriftMeaning(After(p, st, namespace, desired).routes, namespace, desired);
  }

  lemma ConcludeWell(ran: ClusterState, earlier: nat, sync: PeriodicSync, fault: StatusFault)
    requires earlier <= |ran.calls| && AllSucceeded(ran.calls[earlier..])
    requires fault.StatusClean? && sync.key in ran.syncs
    ensures Conclude(ran, earlier, sync, fault).0.syncs ==
            ran.syncs[sync.key := sync.(conditions := [Condition("Synced", "True", "Completed", "")])]
    ensures Conclude(ran, earlier, sync, fault).1.requeueAfter as int == sync.periodSeconds as int * 1_000_000_000
  {}

  /** Such a pass has stored Synced=True and comes back after the period, which fits Go's int64 nanoseconds. */
  lemma {:induction false} SuccessIsRecorded(p: PassInput, st: ClusterState, namespace: string, desired: RouteIndex)
    requires Fits(p, st, namespace, desired)
    requires p.request in st.syncs && st.syncs[p.request].key == p.request
    requires OutcomeOf(p, st, namespace, desired).err.None?
    ensures var sync := st.syncs[p.request];
            && After(p, st, namespace, desired).syncs ==
               st.syncs[p.request := sync.(conditions := [Condition("Synced", "True", "Completed", "")])]
            && OutcomeOf(p, st, namespace, desired).requeueAfter as int == sync.periodSeconds as int * 1_000_000_000
  {
    NoErrorWhen(p, st, namespace, desired);
    PassConcludes(p, st, namespace, desired);
    var ran := Execute(st, OpsOf(p, st, namespace, desired), p.env.writes);
    ConcludeWell(ran, |st.calls|, st.syncs[p.request], p.env.status);
  }

  /** Any recorded call that is not accepted, nor a delete of something gone, makes the pass an error, Synced=False. */
  lemma {:induction false} HonestFailure(p: PassInput, st: ClusterState, namespace: string, desired: RouteIndex, i: nat)
    requires Fits(p, st, namespace, desired)
    requires var calls := After(p, st, namespace, desired).calls;
             && |st.calls| <= i < |calls| && !calls[i].reply.Accepted?
             && (calls[i].op.Delete? ==> !calls[i].reply.NotFound?)
    ensures p.request in st.syncs
    ensures OutcomeOf(p, st, namespace, desired) == Outcome(0, Some("failed to reconcile at least one route"))
    ensures After(p, st, namespace, desired).statusWrites == st.statusWrites
              + [st.syncs[p.request].(conditions :=
                   [Condition("Synced", "False", "Failed", "failed to reconcile at least one route")])]
  {
    assert Unforgiven(After(p, st, namespace, desired).calls, |st.calls|);
    RecordedCalls(p, st, namespace, desired);
    PassConcludes(p, st, namespace, desired);
  }

  /** With no faults a pass succeeds exactly when no CF GUID is the name of a foreign route. */
  lemma {:induction false} CleanPassSucceedsIff(p: PassInput, st: ClusterState, namespace: string, desired: RouteIndex)
    requires Fits(p, st, namespace, desired) && ReadsSucceed(st, p.request, p.env)
    requires st.syncs[p.request].key == p.request
    requires p.env.status.StatusClean? && forall n, op :: p.env.writes(n, op) == Clean
    ensures OutcomeOf(p, st, namespace, desired).err.None? <==>
            forall g :: g in desired ==> !Foreign(SlotOf(st.routes, namespace, g))
  {
    NoErrorWhen(p, st, namespace, desired);
    OpsCover(p, st, namespace, desired);
    CleanSuccessIff(st, OpsOf(p, st, namespace, desired), p.env.writes, namespace, desired);
  }

  // ---- Idempotence -------------------------------------------------------------------------------------------

  /** A pass plans no write exactly when nothing drifts. */
  lemma {:induction false} NothingToDoIff(p: PassInput, st: ClusterState, namespace: string, desired: RouteIndex)
    requires Fits(p, st, namespace, desired) && ReadsSucceed(st, p.request, p.env)
    ensures OpsOf(p, st, namespace, desired) == [] <==> Drift(st.routes, namespace, desired) == {}
  {
    OpsCover(p, st, namespace, desired);
    NoOpsIff(OpsOf(p, st, namespace, desired), st.routes, namespace, desired);
  }

  /** After a pass without failures, a second pass over the same CF routes writes no route. */
  lemma {:induction false} Idempotence(
    p: PassInput, q: PassInput, st: ClusterState, namespace: string, desired: RouteIndex)
    requires Fits(p, st, namespace, desired) && Fits(q, After(p, st, namespace, desired), namespace, desired)
    requires p.request in st.syncs && st.syncs[p.request].key == p.request
    requires OutcomeOf(p, st, namespace, desired).err.None?
    ensures OpsOf(q, After(p, st, namespace, desired), namespace, desired) == []
    ensures var mid := After(p, st, namespace, desired); After(q, mid, namespace, desired).calls == mid.calls
    ensures var mid := After(p, st, namespace, desired); After(q, mid, namespace, desired).routes == mid.routes
  {
    var mid := After(p, st, namespace, desired);
    NoErrorWhen(p, st, namespace, desired);
    SuccessMeansNoDrift(p, st, namespace, desired);
    PassIsItsOps(q, mid, namespace, desired);
    if ReadsSucceed(mid, q.request, q.env) {
      NothingToDoIff(q, mid, namespace, desired);
    }
  }
}
