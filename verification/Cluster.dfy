/**
 * The Kubernetes API server as the periodic sync sees it: a store of Route objects, a store of PeriodicSync
 * objects, and calls that can fail before or after they take effect.
 */
module Cluster {
  import opened Common
  import opened RouteTranslator

  type Store = map<ObjectKey, StoredRoute>

  ghost predicate Keyed(store: Store) {
    forall k :: k in store ==> store[k].Key() == k
  }

  function Slot(store: Store, k: ObjectKey): Option<StoredRoute> {
    if k in store then Some(store[k]) else None
  }

  function Put(store: Store, k: ObjectKey, slot: Option<StoredRoute>): Store {
    match slot
    case None => store - {k}
    case Some(route) => store[k := route]
  }

  /** The routes a List with the namespace and the managed-by selector returns, by name. */
  function Managed(store: Store, namespace: string): map<string, StoredRoute> {
    map n | n in (set k | k in store :: k.name)
            && ObjectKey(namespace, n) in store && IsManaged(store[ObjectKey(namespace, n)])
      :: store[ObjectKey(namespace, n)]
  }

  /** The managed routes, spelled out: those of the namespace whose managed-by label says cloudfoundry. */
  lemma ManagedMeaning(store: Store, namespace: string, n: string)
    ensures n in Managed(store, namespace) <==>
            && ObjectKey(namespace, n) in store
            && var labels := store[ObjectKey(namespace, n)].labels;
               "app.kubernetes.io/managed-by" in labels && labels["app.kubernetes.io/managed-by"] == "cloudfoundry"
    ensures n in Managed(store, namespace) ==> Managed(store, namespace)[n] == store[ObjectKey(namespace, n)]
  {
    ManagedSlot(store, namespace, n);
  }

  lemma ManagedSlot(store: Store, namespace: string, n: string)
    ensures n in Managed(store, namespace) <==>
            ObjectKey(namespace, n) in store && IsManaged(store[ObjectKey(namespace, n)])
  {
    if ObjectKey(namespace, n) in store {
      assert ObjectKey(namespace, n).name in (set k | k in store :: k.name);
    }
  }

  // ---- Writes ------------------------------------------------------------------------------------------------

  datatype Op = Update(route: StoredRoute) | Create(route: StoredRoute) | Delete(key: ObjectKey)
  {
    function Target(): ObjectKey {
      if Delete? then key else route.Key()
    }
  }

  datatype Reply = Accepted | NotFound | AlreadyExists | Conflict | Failed

  /**
   * What the network does to one call. `Lost` answers with an error, whether or not the write was applied;
   * `Resent` delivers the request twice and returns the answer to the second delivery.
   */
  datatype Fault = Clean | Lost(applied: bool) | Resent

  /** A fault for every call, chosen from the number of earlier calls and the call itself. */
  type Schedule = (nat, Op) -> Fault

  function Serve(slot: Option<StoredRoute>, op: Op): (Option<StoredRoute>, Reply) {
    match op
    case Update(r) => if slot.Some? then (Some(r), Accepted) else (slot, NotFound)
    case Create(r) => if slot.Some? then (slot, AlreadyExists) else (Some(r), Accepted)
    case Delete(_) => if slot.Some? then (None, Accepted) else (slot, NotFound)
  }

  function Deliver(slot: Option<StoredRoute>, op: Op, fault: Fault): (Option<StoredRoute>, Reply) {
    var (served, reply) := Serve(slot, op);
    match fault
    case Clean => (served, reply)
    case Lost(applied) => (if applied then served else slot, Failed)
    case Resent =>
      (served, match op
               case Update(_) => if reply == Accepted then Conflict else reply
               case Create(_) => AlreadyExists
               case Delete(_) => NotFound)
  }

  /** The write changed the store, whatever the caller was told. */
  predicate TookEffect(slot: Option<StoredRoute>, op: Op, fault: Fault) {
    fault != Lost(false) && Serve(slot, op).1 == Accepted
  }

  // ---- PeriodicSync objects ----------------------------------------------------------------------------------

  datatype Condition = Condition(kind: string, status: string, reason: string, message: string)

  datatype PeriodicSync = PeriodicSync(key: ObjectKey, periodSeconds: int32, conditions: seq<Condition>)

  /** The value Go's `var periodicSync PeriodicSync` starts with. */
  const ZERO_SYNC := PeriodicSync(ObjectKey("", ""), 0, [])

  datatype StatusFault = StatusClean | StatusLost(applied: bool)

  // ---- State and runs ----------------------------------------------------------------------------------------

  datatype Call = Call(op: Op, reply: Reply)

  /** The stores, with the history of route writes and of attempted status writes. */
  datatype ClusterState = ClusterState(
    routes: Store, syncs: map<ObjectKey, PeriodicSync>, calls: seq<Call>, statusWrites: seq<PeriodicSync>)

  function Step(st: ClusterState, op: Op, faults: Schedule): ClusterState {
    var (slot, reply) := Deliver(Slot(st.routes, op.Target()), op, faults(|st.calls|, op));
    st.(routes := Put(st.routes, op.Target(), slot), calls := st.calls + [Call(op, reply)])
  }

  function Execute(st: ClusterState, ops: seq<Op>, faults: Schedule): ClusterState {
    if ops == [] then st
    else Step(Execute(st, ops[..|ops| - 1], faults), ops[|ops| - 1], faults)
  }

  lemma ExecuteSnoc(st: ClusterState, ops: seq<Op>, op: Op, faults: Schedule)
    ensures Execute(st, ops + [op], faults) == Step(Execute(st, ops, faults), op, faults)
  {
    assert (ops + [op])[..|ops|] == ops;
  }

  function WriteStatus(st: ClusterState, sync: PeriodicSync, fault: StatusFault): (ClusterState, bool) {
    var exists_ := sync.key in st.syncs;
    var applied := exists_ && fault != StatusLost(false);
    (st.(syncs := if applied then st.syncs[sync.key := sync] else st.syncs, statusWrites := st.statusWrites + [sync]),
     exists_ && fault.StatusClean?)
  }

  /** The server as an object; `calls` and `statusWrites` are the history that `ClusterState` records. */
  class ApiServer {
    var routes: Store
    var syncs: map<ObjectKey, PeriodicSync>
    var calls: seq<Call>
    var statusWrites: seq<PeriodicSync>

    function State(): ClusterState
      reads this
    {
      ClusterState(routes, syncs, calls, statusWrites)
    }

    /** Update, Create and Delete of the controller-runtime client. */
    method Write(op: Op, faults: Schedule) returns (reply: Reply)
      modifies this
      ensures State() == Step(old(State()), op, faults)
      ensures reply == calls[|calls| - 1].reply
    {
      var (slot, answer) := Deliver(Slot(routes, op.Target()), op, faults(|calls|, op));
      reply := answer;
      routes := Put(routes, op.Target(), slot);
      calls := calls + [Call(op, reply)];
    }

    method UpdateStatus(sync: PeriodicSync, fault: StatusFault) returns (ok: bool)
      modifies this
      ensures (State(), ok) == WriteStatus(old(State()), sync, fault)
    {
      var (st, answer) := WriteStatus(State(), sync, fault);
      ok := answer;
      syncs, statusWrites := st.syncs, st.statusWrites;
    }

    /** The items a List with the namespace and the managed-by selector returns, in some order. */
    method List(namespace: string) returns (items: seq<StoredRoute>)
      requires Keyed(routes)
      ensures forall r :: r in items <==>
                r.namespace == namespace && IsManaged(r) && r.Key() in routes && routes[r.Key()] == r
    {
      items := [];
      var todo := routes.Keys;
      while todo != {}
        invariant todo <= routes.Keys
        invariant forall r :: r in items <==>
                    && r.namespace == namespace && IsManaged(r) && r.Key() in routes && routes[r.Key()] == r
                    && r.Key() !in todo
      {
        var k :| k in todo;
        todo := todo - {k};
        if k.namespace == namespace && IsManaged(routes[k]) {
          items := items + [routes[k]];
        }
      }
    }
  }
}
