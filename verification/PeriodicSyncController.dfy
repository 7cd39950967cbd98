/**
 * One pass of the route reconciler (src/cf-api-controllers/controllers/periodic_sync_controller.go).
 *
 * `Pass` is what a pass does, given the iteration orders of the two Go maps and everything the outside world
 * answers. `Reconcile` is the imperative code, proved to perform `Pass` for some pair of orders.
 */
module PeriodicSyncController {
  import opened Common
  import opened RouteTranslator
  import opened Cluster

  // ---- The CF API list and its indexes -----------------------------------------------------------------------

  datatype RouteList = RouteList(resources: seq<CfRoute>, spaces: seq<CfSpace>, domains: seq<CfDomain>)

  /** Indexing by GUID into a Go map: a later element with the same GUID replaces an earlier one. */
  function IndexBy<T>(s: seq<T>, guid: T -> string): map<string, T> {
    if s == [] then map[] else IndexBy(s[..|s| - 1], guid)[guid(s[|s| - 1]) := s[|s| - 1]]
  }

  function RoutesOf(list: RouteList): map<string, CfRoute> { IndexBy(list.resources, (r: CfRoute) => r.guid) }

  function SpacesOf(list: RouteList): map<string, CfSpace> { IndexBy(list.spaces, (s: CfSpace) => s.guid) }

  function DomainsOf(list: RouteList): map<string, CfDomain> { IndexBy(list.domains, (d: CfDomain) => d.guid) }

  function SpaceGuid(route: CfRoute): string { RelationshipGuid(route.relationships, "space") }

  function DomainGuid(route: CfRoute): string { RelationshipGuid(route.relationships, "domain") }

  /** Every listed route's space and domain are in `included`; without them the Go code dereferences nil. */
  ghost predicate Closed(list: RouteList) {
    forall g :: g in RoutesOf(list) ==>
      SpaceGuid(RoutesOf(list)[g]) in SpacesOf(list) && DomainGuid(RoutesOf(list)[g]) in DomainsOf(list)
  }

  /** Kubernetes Routes by name, which for managed ones is the CF GUID. */
  type RouteIndex = map<string, StoredRoute>

  /** The Kubernetes Routes the CF API list asks for, by GUID. */
  ghost function Desired(list: RouteList, namespace: string): RouteIndex
    requires Closed(list)
  {
    var routes := RoutesOf(list);
    map g | g in routes ::
      Translate(routes[g], SpacesOf(list)[SpaceGuid(routes[g])], DomainsOf(list)[DomainGuid(routes[g])], namespace)
  }

  /** It is enough that each listed route finds its space and its domain among the included ones. */
  lemma ClosedWhenIncluded(list: RouteList)
    requires forall r :: r in list.resources ==>
               && (exists s :: s in list.spaces
                     && s.guid == if "space" in r.relationships then r.relationships["space"] else "")
               && (exists d :: d in list.domains
                     && d.guid == if "domain" in r.relationships then r.relationships["domain"] else "")
    ensures Closed(list)
  {
    IndexKeys(list.resources, (r: CfRoute) => r.guid);
    IndexKeys(list.spaces, (s: CfSpace) => s.guid);
    IndexKeys(list.domains, (d: CfDomain) => d.guid);
  }

  /** Position i is the last one of its GUID. */
  ghost predicate LastOf<T(!new)>(s: seq<T>, guid: T -> string, i: nat) {
    i < |s| && forall j :: i < j < |s| ==> guid(s[j]) != guid(s[i])
  }

  /**
   * What is desired under a GUID, spelled out: the last route listed with it, translated with the last space and
   * the last domain that its own relationships name.
   */
  lemma DesiredMeaning(list: RouteList, namespace: string, i: nat, j: nat, k: nat)
    requires Closed(list)
    requires LastOf(list.resources, (r: CfRoute) => r.guid, i)
    requires LastOf(list.spaces, (s: CfSpace) => s.guid, j) && LastOf(list.domains, (d: CfDomain) => d.guid, k)
    requires var related := list.resources[i].relationships;
             && list.spaces[j].guid == (if "space" in related then related["space"] else "")
             && list.domains[k].guid == (if "domain" in related then related["domain"] else "")
    ensures var route := list.resources[i];
            && route.guid in Desired(list, namespace)
            && Represents(Desired(list, namespace)[route.guid], route, list.spaces[j], list.domains[k], namespace)
  {
    IndexKeepsLast(list.resources, (r: CfRoute) => r.guid, i);
    IndexKeepsLast(list.spaces, (s: CfSpace) => s.guid, j);
    IndexKeepsLast(list.domains, (d: CfDomain) => d.guid, k);
    var route, space, domain := list.resources[i], list.spaces[j], list.domains[k];
    assert RoutesOf(list)[route.guid] == route && SpacesOf(list)[space.guid] == space;
    assert DomainsOf(list)[domain.guid] == domain;
    assert Desired(list, namespace)[route.guid] == Translate(route, space, domain, namespace);
    TranslateRepresents(route, space, domain, namespace);
  }

  // ---- The writes of a pass ----------------------------------------------------------------------------------

  ghost function UpdateOps(order: seq<string>, desired: RouteIndex, listed: RouteIndex)
    : seq<Op>
  {
    if order == [] then [] else
    var rest, g := UpdateOps(order[..|order| - 1], desired, listed), order[|order| - 1];
    if g in desired && g in listed && desired[g].spec != listed[g].spec
    then rest + [Update(listed[g].(spec := desired[g].spec))] else rest
  }

  /** The members of `order` that are not in `present`, in order. */
  ghost function Without(order: seq<string>, present: set<string>): seq<string> {
    if order == [] then [] else
    var rest, g := Without(order[..|order| - 1], present), order[|order| - 1];
    if g in present then rest else rest + [g]
  }

  ghost function CreateOps(missing: seq<string>, desired: RouteIndex): seq<Op>
    requires forall g :: g in missing ==> g in desired
  {
    seq(|missing|, i requires 0 <= i < |missing| => Create(desired[missing[i]]))
  }

  ghost function DeleteOps(extra: seq<string>, namespace: string): seq<Op> {
    seq(|extra|, i requires 0 <= i < |extra| => Delete(ObjectKey(namespace, extra[i])))
  }

  lemma WithoutMembers(order: seq<string>, present: set<string>)
    ensures forall g :: g in Without(order, present) <==> g in order && g !in present
  {
    if order != [] {
      WithoutMembers(order[..|order| - 1], present);
      assert forall g :: g in order <==> g in order[..|order| - 1] || g == order[|order| - 1];
    }
  }

  /** Updates while ranging over the CF map, then the creates it collected, then the deletes. */
  ghost function Plan(
    desired: RouteIndex, listed: RouteIndex, namespace: string,
    updateOrder: seq<string>, deleteOrder: seq<string>): seq<Op>
    requires Enumerates(updateOrder, desired.Keys)
  {
    WithoutMembers(updateOrder, listed.Keys);
    UpdateOps(updateOrder, desired, listed)
    + CreateOps(Without(updateOrder, listed.Keys), desired)
    + DeleteOps(Without(deleteOrder, desired.Keys), namespace)
  }

  /** Which of the three loops sends a write. */
  function Phase(op: Op): nat {
    match op case Update(_) => 0 case Create(_) => 1 case Delete(_) => 2
  }

  /** All updates come before all creates, and those before all deletes. */
  lemma PlanIsPhased(
    desired: RouteIndex, listed: RouteIndex, namespace: string, updateOrder: seq<string>, deleteOrder: seq<string>)
    requires Enumerates(updateOrder, desired.Keys)
    ensures var plan := Plan(desired, listed, namespace, updateOrder, deleteOrder);
            forall i, j :: 0 <= i < j < |plan| ==> Phase(plan[i]) <= Phase(plan[j])
  {
    WithoutMembers(updateOrder, listed.Keys);
    OnlyUpdates(updateOrder, desired, listed);
  }

  lemma OnlyUpdates(order: seq<string>, desired: RouteIndex, listed: RouteIndex)
    ensures forall i :: 0 <= i < |UpdateOps(order, desired, listed)| ==> UpdateOps(order, desired, listed)[i].Update?
  {
    if order != [] {
      OnlyUpdates(order[..|order| - 1], desired, listed);
    }
  }

  // ---- A pass ------------------------------------------------------------------------------------------------

  /** What the outside world answers during one pass. */
  datatype PassEnv = PassEnv(
    getError: Option<string>, cfError: Option<string>, listError: Option<string>,
    writes: Schedule, status: StatusFault)

  /** Go's `(ctrl.Result, error)`: `requeueAfter` in nanoseconds. */
  datatype Outcome = Outcome(requeueAfter: int64, err: Option<string>)

  const NANOSECONDS_PER_SECOND: int64 := 1_000_000_000
  const ROUTE_FAILURE := "failed to reconcile at least one route"

  predicate Succeeded(call: Call) {
    call.reply == Accepted || (call.op.Delete? && call.reply == NotFound)
  }

  predicate AllSucceeded(calls: seq<Call>) {
    forall c :: c in calls ==> Succeeded(c)
  }

  function WithStatus(sync: PeriodicSync, status: string, reason: string, message: string): PeriodicSync {
    sync.(conditions := [Condition("Synced", status, reason, message)])
  }

  function Fail(st: ClusterState, sync: PeriodicSync, fault: StatusFault, message: string, err: string)
    : (ClusterState, Outcome)
  {
    (WriteStatus(st, WithStatus(sync, "False", "Failed", message), fault).0, Outcome(0, Some(err)))
  }

  /** The orders are iteration orders of the two maps the pass builds. */
  ghost predicate ValidOrders(
    st: ClusterState, namespace: string, desired: RouteIndex,
    updateOrder: seq<string>, deleteOrder: seq<string>)
  {
    Enumerates(updateOrder, desired.Keys) && Enumerates(deleteOrder, Managed(st.routes, namespace).Keys)
  }

  /** The pass reaches its write phase. */
  predicate ReadsSucceed(st: ClusterState, request: ObjectKey, env: PassEnv) {
    env.getError.None? && request in st.syncs && env.cfError.None? && env.listError.None?
  }

  /** The returns before any route write: a failed read, or a request for an object that is gone. */
  function EarlyExit(st: ClusterState, request: ObjectKey, env: PassEnv): (ClusterState, Outcome)
    requires !ReadsSucceed(st, request, env)
  {
    if env.getError.Some? then
      Fail(st, ZERO_SYNC, env.status, env.getError.value, env.getError.value)
    else if request !in st.syncs then
      (st, Outcome(0, None))
    else if env.cfError.Some? then
      Fail(st, st.syncs[request], env.status, env.cfError.value,
           "error listing routes from CF API: " + env.cfError.value)
    else
      Fail(st, st.syncs[request], env.status, env.listError.value,
           "error listing routes from kubernetes API: " + env.listError.value)
  }

  /** Lines 187-196, after `ran` calls on top of the `earlier` ones. */
  function Conclude(ran: ClusterState, earlier: nat, sync: PeriodicSync, fault: StatusFault): (ClusterState, Outcome) {
    if earlier <= |ran.calls| && AllSucceeded(ran.calls[earlier..]) then
      var (st', written) := WriteStatus(ran, WithStatus(sync, "True", "Completed", ""), fault);
      (st', if written then Outcome(sync.periodSeconds as int64 * NANOSECONDS_PER_SECOND, None)
            else Outcome(0, Some("status update failed")))
    else Fail(ran, sync, fault, ROUTE_FAILURE, ROUTE_FAILURE)
  }

  /** A pass, when `desired` is the translation of what the CF API lists. */
  ghost function Pass(
    st: ClusterState, request: ObjectKey, namespace: string, desired: RouteIndex, env: PassEnv,
    updateOrder: seq<string>, deleteOrder: seq<string>): (ClusterState, Outcome)
    requires ValidOrders(st, namespace, desired, updateOrder, deleteOrder)
  {
    if ReadsSucceed(st, request, env) then
      var plan := Plan(desired, Managed(st.routes, namespace), namespace, updateOrder, deleteOrder);
      Conclude(Execute(st, plan, env.writes), |st.calls|, st.syncs[request], env.status)
    else EarlyExit(st, request, env)
  }

  // ---- The imperative code -----------------------------------------------------------------------------------

  method BuildIndex<T>(s: seq<T>, guid: T -> string) returns (m: map<string, T>)
    ensures m == IndexBy(s, guid)
  {
    m := map[];
    for i := 0 to |s|
      invariant m == IndexBy(s[..i], guid)
    {
      assert s[..i + 1][..i] == s[..i];
      m := m[guid(s[i]) := s[i]];
    }
    assert s[..|s|] == s;
  }

  /** `ops` were run from `before` to `after`, and `ok` is the flag the Go code keeps. */
  ghost predicate Ran(before: ClusterState, after: ClusterState, ops: seq<Op>, writes: Schedule, ok: bool) {
    && after == Execute(before, ops, writes)
    && |after.calls| >= |before.calls|
    && (ok <==> AllSucceeded(after.calls[|before.calls|..]))
  }

  lemma RanNothing(st: ClusterState, writes: Schedule)
    ensures Ran(st, st, [], writes, true)
  {}

  lemma RanOne(before: ClusterState, mid: ClusterState, ops: seq<Op>, writes: Schedule, ok: bool, op: Op)
    requires Ran(before, mid, ops, writes, ok)
    ensures var after := Step(mid, op, writes);
            Ran(before, after, ops + [op], writes, ok && Succeeded(after.calls[|after.calls| - 1]))
  {
    ExecuteSnoc(before, ops, op, writes);
    var after, n := Step(mid, op, writes), |before.calls|;
    var call := after.calls[|mid.calls|];
    assert after.calls[n..] == mid.calls[n..] + [call];
    assert call in after.calls[n..];
  }

  /** Every reply from position n on is acceptance or NotFound. */
  ghost predicate AllForgiven(calls: seq<Call>, n: nat) {
    forall i :: n <= i < |calls| ==> calls[i].reply.Accepted? || calls[i].reply.NotFound?
  }

  lemma ForgivenSnoc(calls: seq<Call>, calls': seq<Call>, n: nat)
    requires n <= |calls| && calls < calls' && |calls'| == |calls| + 1
    ensures var reply := calls'[|calls|].reply;
            AllForgiven(calls', n) <==> AllForgiven(calls, n) && (reply.Accepted? || reply.NotFound?)
  {
    assert forall i :: 0 <= i < |calls| ==> calls'[i] == calls[i];
  }

  class PeriodicSyncReconciler {
    const api: ApiServer
    const workloadsNamespace: string

    constructor (api: ApiServer, workloadsNamespace: string)
      ensures this.api == api && this.workloadsNamespace == workloadsNamespace
    {
      this.api, this.workloadsNamespace := api, workloadsNamespace;
    }

    /** Lines 117-135: translate one route, compare it with the stored one, write it back if they differ. */
    method UpdateOne(
      ccRoute: CfRoute, space: CfSpace, domain: CfDomain, stored: StoredRoute, writes: Schedule,
      ghost start: ClusterState, ghost before: seq<Op>, ok: bool)
      returns (ok': bool, ghost after: seq<Op>)
      requires Ran(start, api.State(), before, writes, ok)
      modifies api
      ensures after == before + (var desired := Translate(ccRoute, space, domain, workloadsNamespace);
                                 if desired.spec != stored.spec then [Update(stored.(spec := desired.spec))] else [])
      ensures Ran(start, api.State(), after, writes, ok')
    {
      ok', after := ok, before;
      var built := TranslateRoute(ccRoute, space, domain, workloadsNamespace);
      assert RenderRoute(built).spec == Render(built.spec);
      if CompareRoutes(built, stored) {
        return;
      }
      var op := Update(stored.(spec := Render(built.spec)));
      RanOne(start, api.State(), before, writes, ok, op);
      var reply := api.Write(op, writes);
      after := before + [op];
      if reply != Accepted {
        ok' := false;
      }
    }

    /** Lines 115-140: range over the CF map, update what differs, remember what is missing. */
    method UpdateExisting(
      list: RouteList, ccRoutes: map<string, CfRoute>, ccSpaces: map<string, CfSpace>, ccDomains: map<string, CfDomain>,
      listed: RouteIndex, writes: Schedule)
      returns (missing: seq<CfRoute>, ok: bool, ghost order: seq<string>)
      requires Closed(list)
      requires ccRoutes == RoutesOf(list) && ccSpaces == SpacesOf(list) && ccDomains == DomainsOf(list)
      modifies api
      ensures Enumerates(order, ccRoutes.Keys)
      ensures Ran(old(api.State()), api.State(),
                  UpdateOps(order, Desired(list, workloadsNamespace), listed), writes, ok)
      ensures Looked(missing, Without(order, listed.Keys), ccRoutes)
    {
      ghost var desired := Desired(list, workloadsNamespace);
      missing, ok, order := [], true, [];
      var todo := ccRoutes.Keys;
      RanNothing(api.State(), writes);
      while todo != {}
        invariant todo <= ccRoutes.Keys
        invariant Enumerates(order, ccRoutes.Keys - todo)
        invariant Ran(old(api.State()), api.State(), UpdateOps(order, desired, listed), writes, ok)
        invariant Looked(missing, Without(order, listed.Keys), ccRoutes)
      {
        var g :| g in todo;
        EnumeratesSnoc(order, ccRoutes.Keys - todo, g);
        assert ccRoutes.Keys - (todo - {g}) == ccRoutes.Keys - todo + {g};
        OrderSnoc(order, g, desired, listed);
        todo := todo - {g};
        var ccRoute := ccRoutes[g];
        if g in listed {
          ghost var ops;
          ok, ops := UpdateOne(
            ccRoute, ccSpaces[SpaceGuid(ccRoute)], ccDomains[DomainGuid(ccRoute)], listed[g], writes,
            old(api.State()), UpdateOps(order, desired, listed), ok);
        } else {
          LookedSnoc(missing, Without(order, listed.Keys), ccRoutes, g);
          missing := missing + [ccRoute];
        }
        order := order + [g];
      }
    }

    /** Lines 144-155: translate one route and create it. */
    method CreateOne(
      ccRoute: CfRoute, space: CfSpace, domain: CfDomain, writes: Schedule,
      ghost start: ClusterState, ghost before: seq<Op>, ok: bool)
      returns (ok': bool)
      requires Ran(start, api.State(), before, writes, ok)
      modifies api
      ensures Ran(start, api.State(), before + [Create(Translate(ccRoute, space, domain, workloadsNamespace))],
                  writes, ok')
    {
      ok' := ok;
      var built := TranslateRoute(ccRoute, space, domain, workloadsNamespace);
      var op := Create(RenderRoute(built));
      RanOne(start, api.State(), before, writes, ok, op);
      var reply := api.Write(op, writes);
      if reply != Accepted {
        ok' := false;
      }
    }

    /** Lines 142-158: create every route remembered as missing. */
    method CreateMissing(
      list: RouteList, ccSpaces: map<string, CfSpace>, ccDomains: map<string, CfDomain>, missing: seq<CfRoute>,
      writes: Schedule, ghost guids: seq<string>, ghost start: ClusterState, ghost before: seq<Op>, ok: bool)
      returns (ok': bool)
      requires Closed(list) && ccSpaces == SpacesOf(list) && ccDomains == DomainsOf(list)
      requires Looked(missing, guids, RoutesOf(list))
      requires Ran(start, api.State(), before, writes, ok)
      modifies api
      ensures forall g :: g in guids ==> g in Desired(list, workloadsNamespace)
      ensures Ran(start, api.State(), before + CreateOps(guids, Desired(list, workloadsNamespace)), writes, ok')
    {
      ghost var desired := Desired(list, workloadsNamespace);
      ok' := ok;
      assert forall g :: g in guids ==> g in desired;
      assert before + CreateOps(guids[..0], desired) == before;
      for i := 0 to |missing|
        invariant Ran(start, api.State(), before + CreateOps(guids[..i], desired), writes, ok')
      {
        var ccRoute := missing[i];
        ok' := CreateOne(ccRoute, ccSpaces[SpaceGuid(ccRoute)], ccDomains[DomainGuid(ccRoute)], writes,
                         start, before + CreateOps(guids[..i], desired), ok');
        CreateOpsSnoc(before, guids, i, desired);
      }
      assert guids[..|missing|] == guids;
    }

    /** Lines 160-166: collect the listed names that CF does not know. */
    method CollectExtra(ccRoutes: map<string, CfRoute>, listed: RouteIndex)
      returns (extra: seq<string>, ghost order: seq<string>)
      ensures Enumerates(order, listed.Keys)
      ensures extra == Without(order, ccRoutes.Keys)
    {
      extra, order := [], [];
      var todo := listed.Keys;
      while todo != {}
        invariant todo <= listed.Keys
        invariant Enumerates(order, listed.Keys - todo)
        invariant extra == Without(order, ccRoutes.Keys)
      {
        var g :| g in todo;
        EnumeratesSnoc(order, listed.Keys - todo, g);
        assert listed.Keys - (todo - {g}) == listed.Keys - todo + {g};
        WithoutSnoc(order, g, ccRoutes.Keys);
        todo, order := todo - {g}, order + [g];
        if g !in ccRoutes {
          extra := extra + [g];
        }
      }
    }

    /** Lines 170-184: delete one, forgiving NotFound. */
    method DeleteOne(name: string, writes: Schedule, ghost start: ClusterState, ghost before: seq<Op>, ok: bool)
      returns (ok': bool)
      requires Ran(start, api.State(), before, writes, ok)
      modifies api
      ensures Ran(start, api.State(), before + [Delete(ObjectKey(workloadsNamespace, name))], writes, ok')
      ensures old(api.calls) < api.calls && |api.calls| == old(|api.calls|) + 1
      ensures var reply := api.calls[old(|api.calls|)].reply; ok' <==> ok && (reply.Accepted? || reply.NotFound?)
    {
      ok' := ok;
      var op := Delete(ObjectKey(workloadsNamespace, name));
      RanOne(start, api.State(), before, writes, ok, op);
      var reply := api.Write(op, writes);
      if reply != Accepted && reply != NotFound {
        ok' := false;
      }
    }

    /** Lines 168-185: delete each of them. */
    method DeleteExtra(
      extra: seq<string>, writes: Schedule, ghost start: ClusterState, ghost before: seq<Op>, ok: bool)
      returns (ok': bool)
      requires Ran(start, api.State(), before, writes, ok)
      modifies api
      ensures Ran(start, api.State(), before + DeleteOps(extra, workloadsNamespace), writes, ok')
      ensures |api.calls| == old(|api.calls|) + |extra|
      ensures ok' <==> ok && AllForgiven(api.calls, old(|api.calls|))
    {
      ok' := ok;
      assert before + DeleteOps(extra[..0], workloadsNamespace) == before;
      for i := 0 to |extra|
        invariant Ran(start, api.State(), before + DeleteOps(extra[..i], workloadsNamespace), writes, ok')
        invariant |api.calls| == old(|api.calls|) + i
        invariant ok' <==> ok && AllForgiven(api.calls, old(|api.calls|))
      {
        ghost var calls := api.calls;
        DeleteOpsSnoc(before, extra, i, workloadsNamespace);
        ok' := DeleteOne(extra[i], writes, start, before + DeleteOps(extra[..i], workloadsNamespace), ok');
        ForgivenSnoc(calls, api.calls, old(|api.calls|));
      }
      assert extra[..|extra|] == extra;
    }

    /** Lines 107-110: index the listed items by name. */
    method IndexListed(items: seq<StoredRoute>) returns (listed: RouteIndex)
      requires forall r :: r in items <==>
                 && r.namespace == workloadsNamespace && IsManaged(r)
                 && r.Key() in api.routes && api.routes[r.Key()] == r
      requires Keyed(api.routes)
      ensures listed == Managed(api.routes, workloadsNamespace)
    {
      listed := map[];
      for i := 0 to |items|
        invariant forall n :: n in listed ==> listed[n] in items[..i] && listed[n].name == n
        invariant forall k :: 0 <= k < i ==> items[k].name in listed
      {
        listed := listed[items[i].name := items[i]];
      }
      ListedIsManaged(items, listed, api.routes, workloadsNamespace);
    }

    /** Lines 92-185: the indexes, then the three kinds of writes. */
    method WriteRoutes(list: RouteList, listed: RouteIndex, writes: Schedule)
      returns (ok: bool, ghost updateOrder: seq<string>, ghost deleteOrder: seq<string>)
      requires Closed(list)
      modifies api
      ensures Enumerates(updateOrder, Desired(list, workloadsNamespace).Keys) && Enumerates(deleteOrder, listed.Keys)
      ensures Ran(old(api.State()), api.State(),
                  Plan(Desired(list, workloadsNamespace), listed, workloadsNamespace, updateOrder, deleteOrder),
                  writes, ok)
    {
      ghost var start, desired := api.State(), Desired(list, workloadsNamespace);
      var ccRoutes := BuildIndex(list.resources, (r: CfRoute) => r.guid);
      var ccSpaces := BuildIndex(list.spaces, (s: CfSpace) => s.guid);
      var ccDomains := BuildIndex(list.domains, (d: CfDomain) => d.guid);
      assert desired.Keys == ccRoutes.Keys;
      var missing;
      missing, ok, updateOrder := UpdateExisting(list, ccRoutes, ccSpaces, ccDomains, listed, writes);
      ghost var updates, guids := UpdateOps(updateOrder, desired, listed), Without(updateOrder, listed.Keys);
      ok := CreateMissing(list, ccSpaces, ccDomains, missing, writes, guids, start, updates, ok);
      var extra;
      extra, deleteOrder := CollectExtra(ccRoutes, listed);
      ok := DeleteExtra(extra, writes, start, updates + CreateOps(guids, desired), ok);
    }

    /**
     * Lines 57-197. `list` is what the CF API answers, unless it fails; the ghost results are the iteration orders
     * the two map loops happened to use.
     */
    method Reconcile(request: ObjectKey, list: RouteList, env: PassEnv)
      returns (outcome: Outcome, ghost updateOrder: seq<string>, ghost deleteOrder: seq<string>)
      requires Keyed(api.routes)
      requires Closed(list)
      modifies api
      ensures ValidOrders(old(api.State()), workloadsNamespace, Desired(list, workloadsNamespace),
                          updateOrder, deleteOrder)
      ensures (api.State(), outcome) ==
              Pass(old(api.State()), request, workloadsNamespace, Desired(list, workloadsNamespace), env,
                   updateOrder, deleteOrder)
    {
      updateOrder := AnyOrder(Desired(list, workloadsNamespace).Keys);
      deleteOrder := AnyOrder(Managed(api.routes, workloadsNamespace).Keys);
      var periodicSync := ZERO_SYNC;
      if env.getError.Some? {
        outcome := UpdateSyncStatusFailure(periodicSync, env.status, env.getError.value, env.getError.value);
        return;
      }
      if request !in api.syncs {
        outcome := Outcome(0, None);
        return;
      }
      periodicSync := api.syncs[request];
      if env.cfError.Some? {
        outcome := UpdateSyncStatusFailure(
          periodicSync, env.status, env.cfError.value, "error listing routes from CF API: " + env.cfError.value);
        return;
      }
      if env.listError.Some? {
        outcome := UpdateSyncStatusFailure(
          periodicSync, env.status, env.listError.value,
          "error listing routes from kubernetes API: " + env.listError.value);
        return;
      }
      var items := api.List(workloadsNamespace);
      var listed := IndexListed(items);
      var ok;
      ok, updateOrder, deleteOrder := WriteRoutes(list, listed, env.writes);
      if !ok {
        outcome := UpdateSyncStatusFailure(periodicSync, env.status, ROUTE_FAILURE, ROUTE_FAILURE);
        return;
      }
      periodicSync := SetPeriodicSyncStatus(periodicSync, "True", "Completed", "");
      var written := api.UpdateStatus(periodicSync, env.status);
      if !written {
        outcome := Outcome(0, Some("status update failed"));
        return;
      }
      outcome := Outcome(periodicSync.periodSeconds as int64 * NANOSECONDS_PER_SECOND, None);
    }

    /** Lines 209-217, with the early return its callers make; the error of the status write is dropped. */
    method UpdateSyncStatusFailure(sync: PeriodicSync, fault: StatusFault, message: string, err: string)
      returns (outcome: Outcome)
      modifies api
      ensures (api.State(), outcome) == Fail(old(api.State()), sync, fault, message, err)
    {
      var failed := SetPeriodicSyncStatus(sync, "False", "Failed", message);
      var _ := api.UpdateStatus(failed, fault);
      outcome := Outcome(0, Some(err));
    }
  }

  /** Lines 219-229: the condition list is replaced. */
  method SetPeriodicSyncStatus(sync: PeriodicSync, status: string, reason: string, message: string)
    returns (updated: PeriodicSync)
    ensures updated == WithStatus(sync, status, reason, message)
  {
    updated := sync.(conditions := [Condition("Synced", status, reason, message)]);
  }

  /** An index of exactly the listed items, by name, is the map of managed routes. */
  lemma ListedIsManaged(items: seq<StoredRoute>, listed: RouteIndex, routes: Store, namespace: string)
    requires Keyed(routes)
    requires forall r :: r in items <==>
               r.namespace == namespace && IsManaged(r) && r.Key() in routes && routes[r.Key()] == r
    requires forall n :: n in listed ==> listed[n] in items && listed[n].name == n
    requires forall r :: r in items ==> r.name in listed
    ensures listed == Managed(routes, namespace)
  {
    var managed := Managed(routes, namespace);
    forall n ensures n in listed <==> n in managed {
      ManagedSlot(routes, namespace, n);
      if n in managed {
        assert managed[n] in items;
      }
    }
  }

  /** Every finite map has an iteration order. */
  lemma AnyOrder(s: set<string>) returns (order: seq<string>)
    ensures Enumerates(order, s)
  {
    if s == {} {
      order := [];
    } else {
      var x :| x in s;
      order := AnyOrder(s - {x});
      EnumeratesSnoc(order, s - {x}, x);
      order := order + [x];
      assert s - {x} + {x} == s;
    }
  }

  lemma CreateOpsSnoc(before: seq<Op>, guids: seq<string>, i: nat, desired: RouteIndex)
    requires i < |guids| && forall g :: g in guids ==> g in desired
    ensures before + CreateOps(guids[..i + 1], desired)
         == before + CreateOps(guids[..i], desired) + [Create(desired[guids[i]])]
  {}

  lemma DeleteOpsSnoc(before: seq<Op>, extra: seq<string>, i: nat, namespace: string)
    requires i < |extra|
    ensures before + DeleteOps(extra[..i + 1], namespace)
         == before + DeleteOps(extra[..i], namespace) + [Delete(ObjectKey(namespace, extra[i]))]
  {}

  lemma WithoutSnoc(order: seq<string>, g: string, present: set<string>)
    ensures Without(order + [g], present) == Without(order, present) + if g in present then [] else [g]
  {
    assert (order + [g])[..|order|] == order;
  }

  /** The index holds, for every GUID in the list, its last element with that GUID, and nothing else. */
  lemma {:induction false} IndexKeepsLast<T>(s: seq<T>, guid: T -> string, i: nat)
    requires i < |s| && forall j :: i < j < |s| ==> guid(s[j]) != guid(s[i])
    ensures guid(s[i]) in IndexBy(s, guid) && IndexBy(s, guid)[guid(s[i])] == s[i]
  {
    if i < |s| - 1 {
      IndexKeepsLast(s[..|s| - 1], guid, i);
    }
  }

  /** `found` holds the map's entries for `guids`, in order. */
  ghost predicate Looked<T>(found: seq<T>, guids: seq<string>, index: map<string, T>) {
    |found| == |guids| && forall i :: 0 <= i < |guids| ==> guids[i] in index && index[guids[i]] == found[i]
  }

  lemma LookedSnoc<T>(found: seq<T>, guids: seq<string>, index: map<string, T>, g: string)
    requires Looked(found, guids, index) && g in index
    ensures Looked(found + [index[g]], guids + [g], index)
  {}

  lemma EnumeratesSnoc<T(!new)>(order: seq<T>, s: set<T>, x: T)
    requires Enumerates(order, s) && x !in s
    ensures Enumerates(order + [x], s + {x})
  {
    forall i, j | 0 <= i < j < |order| + 1 ensures (order + [x])[i] != (order + [x])[j] {
      if j == |order| { assert order[i] in order; }
    }
  }

  lemma OrderSnoc(order: seq<string>, g: string, desired: RouteIndex, listed: RouteIndex)
    ensures UpdateOps(order + [g], desired, listed) ==
            UpdateOps(order, desired, listed)
            + if g in desired && g in listed && desired[g].spec != listed[g].spec
              then [Update(listed[g].(spec := desired[g].spec))] else []
    ensures Without(order + [g], listed.Keys) == Without(order, listed.Keys) + if g in listed then [] else [g]
  {
    WithoutSnoc(order, g, listed.Keys);
    assert (order + [g])[..|order|] == order;
  }

  lemma IndexKeys<T>(s: seq<T>, guid: T -> string)
    ensures forall g :: g in IndexBy(s, guid) ==> IndexBy(s, guid)[g] in s && guid(IndexBy(s, guid)[g]) == g
    ensures forall x :: x in s ==> guid(x) in IndexBy(s, guid)
  {
    if s != [] {
      var rest := s[..|s| - 1];
      IndexKeys(rest, guid);
      assert forall x :: x in s <==> x in rest || x == s[|s| - 1];
    }
  }
}
