/**
 * The Image controller's stack rebase (src/cf-api-controllers/controllers/image_controller.go): one reconcile that
 * moves an app's StatefulSet and then its droplet to the rebased image, and any run of requeues.
 */
module ImageRebase {
  import opened Common
  import opened KpackStatus

  const APP_GUID_LABEL := "cloudfoundry.org/app_guid"
  const DROPLET_GUID_LABEL := "cloudfoundry.org/droplet_guid"
  const READY := "Ready"
  const STACK := "STACK"
  const OPI := "opi"

  datatype Container = Container(name: string, image: string)

  /** `version` is the resource version the API server compares on every update. */
  datatype StatefulSet = StatefulSet(name: string, appGuid: string, containers: seq<Container>, version: nat)

  datatype Image = Image(labels: Labels, conditions: seq<Condition>, latestBuildReason: string, latestImage: string)

  /** What the controller writes to: StatefulSets by name, droplet images by GUID, and the history of writes. */
  datatype World = World(sets: map<string, StatefulSet>, droplets: map<string, string>, history: seq<Write>)

  datatype Write = StatefulSetWritten(written: StatefulSet) | DropletPatched(guid: string, image: string)

  /** `Raced`: another writer replaces the stored set just before the update arrives. */
  datatype UpdateFault = UpdateClean | UpdateLost(applied: bool) | Raced(other: StatefulSet)

  datatype PatchFault = PatchClean | PatchLost(applied: bool)

  datatype Env = Env(
    getError: Option<string>, listError: Option<string>, updates: nat -> UpdateFault, patches: nat -> PatchFault)

  datatype Outcome = Outcome(requeue: bool, err: Option<string>)

  // ---- Events ------------------------------------------------------------------------------------------------

  datatype Event = ImageEvent(image: Image) | OtherEvent

  /** Lines 142-153. */
  predicate ImageFilter(e: Event) {
    e.ImageEvent? && APP_GUID_LABEL in e.image.labels && !IsUnknown(GetCondition(e.image.conditions, READY))
  }

  /** Line 69. */
  predicate IsRebased(image: Image) {
    IsTrue(GetCondition(image.conditions, READY)) && image.latestBuildReason == STACK
  }

  // ---- The two writes ----------------------------------------------------------------------------------------

  /** Optimistic locking: an update of an outdated version is refused; an accepted change bumps the version. */
  function UpdateSet(w: World, set_: StatefulSet, fault: UpdateFault): (World, Option<string>) {
    var w1 := if fault.Raced? then w.(sets := w.sets[set_.name := fault.other]) else w;
    if set_.name !in w1.sets then (w1, Some("not found"))
    else if w1.sets[set_.name].version != set_.version then (w1, Some("conflict"))
    else if fault == UpdateLost(false) then (w1, Some("update failed"))
    else
      var stored := if w1.sets[set_.name] == set_ then set_ else set_.(version := set_.version + 1);
      (w1.(sets := w1.sets[set_.name := stored], history := w1.history + [StatefulSetWritten(stored)]),
       if fault.UpdateLost? then Some("update failed") else None)
  }

  function PatchDroplet(w: World, guid: string, image: string, fault: PatchFault): (World, Option<string>) {
    if fault == PatchLost(false) then (w, Some("patch failed"))
    else
      (w.(droplets := w.droplets[guid := image], history := w.history + [DropletPatched(guid, image)]),
       if fault.PatchLost? then Some("patch failed") else None)
  }

  // ---- One reconcile -----------------------------------------------------------------------------------------

  /** The names of the app's StatefulSets: what the List with the app label returns. */
  function SetsOf(w: World, appGuid: string): set<string> {
    set n | n in w.sets && w.sets[n].appGuid == appGuid
  }

  function WithImage(set_: StatefulSet, i: nat, image: string): StatefulSet
    requires i < |set_.containers|
  {
    set_.(containers := set_.containers[i := set_.containers[i].(image := image)])
  }

  /** Lines 100-118 from container i on; `set_` is the local copy, changed in place as the loop goes. */
  function Rebase(w: World, set_: StatefulSet, i: nat, image: string, guid: string, env: Env): (World, Option<string>)
    decreases |set_.containers| - i
  {
    if i >= |set_.containers| then (w, None)
    else if set_.containers[i].name != OPI then Rebase(w, set_, i + 1, image, guid, env)
    else
      var changed := WithImage(set_, i, image);
      var (w1, err1) := UpdateSet(w, changed, env.updates(i));
      if err1.Some? then (w1, err1)
      else
        var (w2, err2) := PatchDroplet(w1, guid, image, env.patches(i));
        if err2.Some? then (w2, err2) else Rebase(w2, changed, i + 1, image, guid, env)
  }

  function Handle(w: World, set_: StatefulSet, image: Image, env: Env): (World, Outcome) {
    var (w', err) := Rebase(w, set_, 0, image.latestImage, Label(image.labels, DROPLET_GUID_LABEL), env);
    (w', Outcome(false, err))
  }

  ghost function ReconcileSpec(w: World, image: Image, env: Env): (World, Outcome) {
    if env.getError.Some? then (w, Outcome(false, env.getError))
    else if !IsRebased(image) then (w, Outcome(false, None))
    else if env.listError.Some? then (w, Outcome(false, env.listError))
    else
      var names := SetsOf(w, Label(image.labels, APP_GUID_LABEL));
      if |names| == 0 then (w, Outcome(false, None))
      else if |names| > 1 then (w, Outcome(true, None))
      else
        var name :| name in names;
        Handle(w, w.sets[name], image, env)
  }

  // ---- The imperative code -----------------------------------------------------------------------------------

  /** A StatefulSet as the typed client returns it: the containers are an array the loop changes in place. */
  class StatefulSetObject {
    const name: string
    const appGuid: string
    const version: nat
    const containers: array<Container>

    constructor (stored: StatefulSet)
      ensures fresh(containers) && Value() == stored
    {
      name, appGuid, version := stored.name, stored.appGuid, stored.version;
      containers := new Container[|stored.containers|](i requires 0 <= i < |stored.containers| => stored.containers[i]);
    }

    function Value(): StatefulSet
      reads this, containers
    {
      StatefulSet(name, appGuid, containers[..], version)
    }
  }

  class ImageReconciler {
    var world: World

    constructor (world: World)
      ensures this.world == world
    {
      this.world := world;
    }

    /** The StatefulSets of the app, as fresh objects. */
    method List(appGuid: string) returns (names: seq<string>)
      ensures |names| == |SetsOf(world, appGuid)|
      ensures forall n :: n in names <==> n in SetsOf(world, appGuid)
    {
      names := [];
      var todo := SetsOf(world, appGuid);
      while todo != {}
        invariant todo <= SetsOf(world, appGuid)
        invariant |names| + |todo| == |SetsOf(world, appGuid)|
        invariant forall n :: n in names <==> n in SetsOf(world, appGuid) - todo
      {
        var n :| n in todo;
        names, todo := names + [n], todo - {n};
      }
    }

    /** Lines 97-119. */
    method HandleRebasedSet(statefulset: StatefulSetObject, image: Image, env: Env) returns (outcome: Outcome)
      modifies this, statefulset.containers
      ensures (world, outcome) == Handle(old(world), old(statefulset.Value()), image, env)
    {
      var containers := statefulset.containers;
      ghost var guid, latest := Label(image.labels, DROPLET_GUID_LABEL), image.latestImage;
      ghost var whole := Rebase(world, statefulset.Value(), 0, latest, guid, env);
      for i := 0 to containers.Length
        invariant Rebase(world, statefulset.Value(), i, latest, guid, env) == whole
      {
        if containers[i].name != OPI {
          continue;
        }
        ghost var before := statefulset.Value();
        containers[i] := containers[i].(image := image.latestImage);
        assert statefulset.Value() == WithImage(before, i, latest);
        var (updated, err) := UpdateSet(world, statefulset.Value(), env.updates(i));
        world := updated;
        if err.Some? {
          return Outcome(false, err);
        }
        var (patched, patchErr) := PatchDroplet(
          world, Label(image.labels, DROPLET_GUID_LABEL), image.latestImage, env.patches(i));
        world := patched;
        if patchErr.Some? {
          return Outcome(false, patchErr);
        }
      }
      outcome := Outcome(false, None);
    }

    /** Lines 58-97. */
    method Reconcile(image: Image, env: Env) returns (outcome: Outcome)
      modifies this
      ensures (world, outcome) == ReconcileSpec(old(world), image, env)
    {
      if env.getError.Some? {
        return Outcome(false, env.getError);
      }
      if !IsRebased(image) {
        return Outcome(false, None);
      }
      if env.listError.Some? {
        return Outcome(false, env.listError);
      }
      var names := List(Label(image.labels, APP_GUID_LABEL));
      if |names| == 0 {
        return Outcome(false, None);
      }
      if |names| > 1 {
        return Outcome(true, None);
      }
      OnlyMember(SetsOf(world, Label(image.labels, APP_GUID_LABEL)), names[0]);
      var statefulset := new StatefulSetObject(world.sets[names[0]]);
      outcome := HandleRebasedSet(statefulset, image, env);
    }
  }

  lemma OnlyMember<T>(s: set<T>, x: T)
    requires |s| == 1 && x in s
    ensures s == {x}
  {
    assert |s - {x}| == 0;
  }

  // ---- What the loop does to the stored set ------------------------------------------------------------------

  /** The containers with every opi image from index i on replaced. */
  function Rebased(cs: seq<Container>, i: nat, image: string): seq<Container> {
    seq(|cs|, k requires 0 <= k < |cs| => if k >= i && cs[k].name == OPI then cs[k].(image := image) else cs[k])
  }

  predicate HasOpi(cs: seq<Container>, i: nat) {
    exists k :: i <= k < |cs| && cs[k].name == OPI
  }

  /** Only images of opi containers differ. */
  predicate OnlyOpiDiffers(a: seq<Container>, b: seq<Container>) {
    |a| == |b| && forall k :: 0 <= k < |a| ==> a[k].name == b[k].name && (a[k].name != OPI ==> a[k] == b[k])
  }

  /** Another writer's version of the set is a later version of the same set. */
  ghost predicate HonestEnv(env: Env, set_: StatefulSet) {
    forall n :: env.updates(n).Raced? ==>
      var other := env.updates(n).other;
      other.name == set_.name && other.appGuid == set_.appGuid && other.version > set_.version
  }

  /** The stored set has the contents of the local copy, possibly under a later version. */
  predicate Holds(w: World, set_: StatefulSet) {
    && set_.name in w.sets
    && w.sets[set_.name].(version := set_.version) == set_
    && w.sets[set_.name].version >= set_.version
  }

  lemma RebasedStep(cs: seq<Container>, i: nat, image: string)
    requires i < |cs|
    ensures cs[i].name == OPI ==> Rebased(cs, i, image) == Rebased(cs[i := cs[i].(image := image)], i + 1, image)
    ensures cs[i].name != OPI ==> Rebased(cs, i, image) == Rebased(cs, i + 1, image)
  {}

  /** A loop that ends without error leaves every opi container, and the droplet, on the image; nothing else moves. */
  lemma {:induction false} RebaseSucceeds(
    w: World, set_: StatefulSet, i: nat, image: string, guid: string, env: Env)
    requires i <= |set_.containers| && Holds(w, set_) && HonestEnv(env, set_)
    requires Rebase(w, set_, i, image, guid, env).1.None?
    ensures var w' := Rebase(w, set_, i, image, guid, env).0;
            && set_.name in w'.sets && w'.sets[set_.name].appGuid == set_.appGuid
            && w'.sets[set_.name].containers == Rebased(set_.containers, i, image)
            && (HasOpi(set_.containers, i) ==> guid in w'.droplets && w'.droplets[guid] == image)
            && (!HasOpi(set_.containers, i) ==> w' == w)
    decreases |set_.containers| - i
  {
    if i < |set_.containers| {
      RebasedStep(set_.containers, i, image);
      if set_.containers[i].name != OPI {
        RebaseSucceeds(w, set_, i + 1, image, guid, env);
      } else {
        var changed := WithImage(set_, i, image);
        var w2 := PatchDroplet(UpdateSet(w, changed, env.updates(i)).0, guid, image, env.patches(i)).0;
        RebaseSucceeds(w2, changed, i + 1, image, guid, env);
      }
    }
  }

  /** Only the set `name` and the droplet `guid` may differ. */
  ghost predicate Framed(w: World, w': World, name: string, guid: string) {
    && w'.sets.Keys == w.sets.Keys
    && w'.sets - {name} == w.sets - {name}
    && w'.droplets - {guid} == w.droplets - {guid}
  }

  lemma WritesFramed(w: World, set_: StatefulSet, fault: UpdateFault, guid: string, image: string, patch: PatchFault)
    requires set_.name in w.sets
    ensures Framed(w, UpdateSet(w, set_, fault).0, set_.name, guid)
    ensures Framed(w, PatchDroplet(w, guid, image, patch).0, set_.name, guid)
  {}

  /** Whatever happens, other StatefulSets and other droplets stay as they were. */
  lemma {:induction false} RebaseFrame(
    w: World, set_: StatefulSet, i: nat, image: string, guid: string, env: Env)
    requires set_.name in w.sets
    ensures Framed(w, Rebase(w, set_, i, image, guid, env).0, set_.name, guid)
    decreases |set_.containers| - i
  {
    if i < |set_.containers| {
      if set_.containers[i].name != OPI {
        RebaseFrame(w, set_, i + 1, image, guid, env);
      } else {
        var changed := WithImage(set_, i, image);
        var w1 := UpdateSet(w, changed, env.updates(i)).0;
        var w2 := PatchDroplet(w1, guid, image, env.patches(i)).0;
        WritesFramed(w, changed, env.updates(i), guid, image, PatchClean);
        WritesFramed(w1, changed, UpdateClean, guid, image, env.patches(i));
        RebaseFrame(w2, changed, i + 1, image, guid, env);
      }
    }
  }

  // ---- The writes of a reconcile -----------------------------------------------------------------------------

  /** A write follows the rules, given the write just before it in the same reconcile, if any. */
  predicate GoodWrite(write: Write, previous: Option<Write>, set_: StatefulSet, image: string, guid: string) {
    match write
    case StatefulSetWritten(s) => s.name == set_.name && OnlyOpiDiffers(s.containers, set_.containers)
    case DropletPatched(g, i) =>
      && g == guid && i == image
      && previous.Some? && previous.value.StatefulSetWritten?
      && exists k :: 0 <= k < |previous.value.written.containers|
                     && previous.value.written.containers[k] == Container(OPI, image)
  }

  function Previous(history: seq<Write>, start: nat, k: nat): Option<Write>
    requires k < |history|
  {
    if k > start then Some(history[k - 1]) else None
  }

  ghost predicate GoodWrites(before: seq<Write>, after: seq<Write>, set_: StatefulSet, image: string, guid: string) {
    && before <= after
    && forall k :: |before| <= k < |after| ==> GoodWrite(after[k], Previous(after, |before|, k), set_, image, guid)
  }

  lemma GoodWritesPair(
    before: seq<Write>, middle: seq<Write>, after: seq<Write>, set_: StatefulSet, changed: StatefulSet,
    image: string, guid: string)
    requires GoodWrites(before, middle, set_, image, guid) && |middle| > |before|
    requires GoodWrites(middle, after, changed, image, guid)
    requires changed.name == set_.name && OnlyOpiDiffers(changed.containers, set_.containers)
    ensures GoodWrites(before, after, set_, image, guid)
  {
    forall k | |before| <= k < |after|
      ensures GoodWrite(after[k], Previous(after, |before|, k), set_, image, guid)
    {
      if k < |middle| {
        assert GoodWrite(middle[k], Previous(middle, |before|, k), set_, image, guid);
      } else {
        assert GoodWrite(after[k], Previous(after, |middle|, k), changed, image, guid);
      }
    }
  }

  lemma PairWrites(
    w: World, set_: StatefulSet, i: nat, image: string, guid: string, update: UpdateFault, patch: PatchFault)
    requires i < |set_.containers| && set_.containers[i].name == OPI
    ensures var (w1, err1) := UpdateSet(w, WithImage(set_, i, image), update);
            var (w2, err2) := PatchDroplet(w1, guid, image, patch);
            && GoodWrites(w.history, w1.history, set_, image, guid)
            && (err1.None? ==> GoodWrites(w.history, w2.history, set_, image, guid) && |w1.history| > |w.history|)
            && |w2.history| >= |w1.history|
  {
    assert WithImage(set_, i, image).containers[i] == Container(OPI, image);
  }

  /**
   * In every reconcile, failed ones included: each StatefulSet write changes opi images only, and each droplet
   * patch comes right after a write that set an opi container to the very image it patches in.
   */
  lemma {:induction false} RebaseWrites(
    w: World, set_: StatefulSet, i: nat, image: string, guid: string, env: Env)
    ensures GoodWrites(w.history, Rebase(w, set_, i, image, guid, env).0.history, set_, image, guid)
    decreases |set_.containers| - i
  {
    if i < |set_.containers| {
      if set_.containers[i].name != OPI {
        RebaseWrites(w, set_, i + 1, image, guid, env);
      } else {
        var changed := WithImage(set_, i, image);
        var (w1, err1) := UpdateSet(w, changed, env.updates(i));
        var (w2, err2) := PatchDroplet(w1, guid, image, env.patches(i));
        PairWrites(w, set_, i, image, guid, env.updates(i), env.patches(i));
        if err1.None? && err2.None? {
          RebaseWrites(w2, changed, i + 1, image, guid, env);
          GoodWritesPair(w.history, w2.history, Rebase(w2, changed, i + 1, image, guid, env).0.history,
                         set_, changed, image, guid);
        }
      }
    }
  }

  /** No lost update: a write that lands replaces exactly the set the controller had read. */
  lemma NoLostUpdate(w: World, set_: StatefulSet, i: nat, image: string, fault: UpdateFault)
    requires i < |set_.containers| && Holds(w, set_)
    requires fault.Raced? ==> fault.other.version > set_.version
    ensures var (w', err) := UpdateSet(w, WithImage(set_, i, image), fault);
            && (w'.history != w.history ==> w.sets[set_.name] == set_)
            && (fault.Raced? ==> err.Some? && w'.sets[set_.name] == fault.other && w'.history == w.history)
  {}

  // ---- Requeues ----------------------------------------------------------------------------------------------

  /** What can happen while the Image stays Ready with reason STACK: a reconcile, or a further rebuild. */
  datatype Step = Reconciled(env: Env) | Rebuilt(latestImage: string)

  datatype RunState = RunState(world: World, image: Image, last: Option<Outcome>)

  ghost function Next(st: RunState, step: Step): RunState {
    match step
    case Reconciled(env) =>
      var (w, outcome) := ReconcileSpec(st.world, st.image, env);
      RunState(w, st.image, Some(outcome))
    case Rebuilt(latest) => st.(image := st.image.(latestImage := latest))
  }

  ghost function Run(st: RunState, steps: seq<Step>): RunState {
    if steps == [] then st else Next(Run(st, steps[..|steps| - 1]), steps[|steps| - 1])
  }

  predicate OneOpi(cs: seq<Container>) {
    && HasOpi(cs, 0)
    && forall j, k :: 0 <= j < |cs| && 0 <= k < |cs| && cs[j].name == OPI && cs[k].name == OPI ==> j == k
  }

  /** The app has one StatefulSet, called `name`, with one opi container. */
  ghost predicate OneSet(w: World, appGuid: string, name: string) {
    && SetsOf(w, appGuid) == {name}
    && w.sets[name].name == name
    && OneOpi(w.sets[name].containers)
  }

  /** Other writers keep the app's set a set of one opi container. */
  ghost predicate KeepsShape(env: Env, set_: StatefulSet) {
    HonestEnv(env, set_) && forall n :: env.updates(n).Raced? ==> OneOpi(env.updates(n).other.containers)
  }

  ghost predicate ValidSteps(st: RunState, steps: seq<Step>, appGuid: string, name: string) {
    steps != [] ==>
      var before := Run(st, steps[..|steps| - 1]);
      && ValidSteps(st, steps[..|steps| - 1], appGuid, name)
      && (steps[|steps| - 1].Reconciled? && name in before.world.sets ==>
            KeepsShape(steps[|steps| - 1].env, before.world.sets[name]))
  }

  /** The droplet has the image of the app's opi container. */
  ghost predicate Consistent(w: World, name: string, guid: string) {
    && name in w.sets && guid in w.droplets
    && forall k :: 0 <= k < |w.sets[name].containers| && w.sets[name].containers[k].name == OPI ==>
         w.sets[name].containers[k].image == w.droplets[guid]
  }

  /** Any outcome of the loop leaves a set of one opi container, of the same app. */
  lemma {:induction false} RebaseKeepsShape(
    w: World, set_: StatefulSet, i: nat, image: string, guid: string, env: Env)
    requires Holds(w, set_) && OneOpi(set_.containers) && KeepsShape(env, set_)
    ensures var w' := Rebase(w, set_, i, image, guid, env).0;
            && set_.name in w'.sets && w'.sets[set_.name].name == set_.name
            && w'.sets[set_.name].appGuid == set_.appGuid && OneOpi(w'.sets[set_.name].containers)
    decreases |set_.containers| - i
  {
    if i < |set_.containers| {
      if set_.containers[i].name != OPI {
        RebaseKeepsShape(w, set_, i + 1, image, guid, env);
      } else {
        var changed := WithImage(set_, i, image);
        assert changed.containers[i].name == OPI;
        assert OneOpi(changed.containers);
        var (w1, err1) := UpdateSet(w, changed, env.updates(i));
        if err1.None? {
          RebaseKeepsShape(PatchDroplet(w1, guid, image, env.patches(i)).0, changed, i + 1, image, guid, env);
        }
      }
    }
  }

  lemma FramedSets(w: World, w': World, name: string, guid: string, appGuid: string)
    requires Framed(w, w', name, guid) && SetsOf(w, appGuid) == {name}
    requires name in w'.sets && w'.sets[name].appGuid == appGuid
    ensures SetsOf(w', appGuid) == {name}
  {
    forall n | n in w'.sets && n != name ensures w'.sets[n] == w.sets[n] {
      assert n in w'.sets - {name} && (w'.sets - {name})[n] == (w.sets - {name})[n];
    }
    assert name in SetsOf(w, appGuid);
    assert forall n :: n in SetsOf(w', appGuid) <==> n in SetsOf(w, appGuid);
  }

  lemma ReconcileStep(w: World, image: Image, env: Env, name: string)
    requires IsRebased(image) && OneSet(w, Label(image.labels, APP_GUID_LABEL), name)
    requires KeepsShape(env, w.sets[name])
    ensures var (w', outcome) := ReconcileSpec(w, image, env);
            && OneSet(w', Label(image.labels, APP_GUID_LABEL), name)
            && !outcome.requeue
            && (outcome.err.None? ==>
                  && Consistent(w', name, Label(image.labels, DROPLET_GUID_LABEL))
                  && w'.droplets[Label(image.labels, DROPLET_GUID_LABEL)] == image.latestImage)
  {
    var app, guid, set_ := Label(image.labels, APP_GUID_LABEL), Label(image.labels, DROPLET_GUID_LABEL), w.sets[name];
    if env.getError.None? && env.listError.None? {
      assert ReconcileSpec(w, image, env) == Handle(w, set_, image, env);
      var (w', err) := Rebase(w, set_, 0, image.latestImage, guid, env);
      RebaseFrame(w, set_, 0, image.latestImage, guid, env);
      RebaseKeepsShape(w, set_, 0, image.latestImage, guid, env);
      FramedSets(w, w', name, guid, app);
      if err.None? {
        RebaseSucceeds(w, set_, 0, image.latestImage, guid, env);
      }
    }
  }

  /**
   * While the Image stays Ready with reason STACK and its app keeps one StatefulSet with one opi container, every
   * reachable state after a first reconcile is consistent or follows a reconcile that returned an error.
   */
  lemma {:induction false} ConsistentUnlessFailed(st: RunState, steps: seq<Step>, name: string)
    requires st.last.None? && IsRebased(st.image)
    requires OneSet(st.world, Label(st.image.labels, APP_GUID_LABEL), name)
    requires ValidSteps(st, steps, Label(st.image.labels, APP_GUID_LABEL), name)
    ensures var end := Run(st, steps);
            && end.image == st.image.(latestImage := end.image.latestImage)
            && OneSet(end.world, Label(st.image.labels, APP_GUID_LABEL), name)
            && (end.last.Some? && end.last.value.err.None? ==>
                  Consistent(end.world, name, Label(st.image.labels, DROPLET_GUID_LABEL)))
  {
    if steps != [] {
      var n := |steps| - 1;
      ConsistentUnlessFailed(st, steps[..n], name);
      var before := Run(st, steps[..n]);
      match steps[n]
      case Reconciled(env) => ReconcileStep(before.world, before.image, env, name);
      case Rebuilt(_) =>
    }
  }

  // ---- When a reconcile that reports success has moved the droplet --------------------------------------------

  /** The app has exactly one StatefulSet, and that has an opi container: what the loop needs to do anything. */
  ghost predicate HasRebaseTarget(w: World, appGuid: string) {
    exists n :: SetsOf(w, appGuid) == {n} && HasOpi(w.sets[n].containers, 0)
  }

  /** The writes from `start` on include a patch of the droplet to the image. */
  predicate Patched(history: seq<Write>, start: nat, guid: string, image: string) {
    exists k :: start <= k < |history| && history[k] == DropletPatched(guid, image)
  }

  lemma {:induction false} RebasePatches(
    w: World, set_: StatefulSet, i: nat, image: string, guid: string, env: Env)
    requires Rebase(w, set_, i, image, guid, env).1.None?
    ensures var w' := Rebase(w, set_, i, image, guid, env).0;
            && w.history <= w'.history
            && (HasOpi(set_.containers, i) ==> Patched(w'.history, |w.history|, guid, image))
    decreases |set_.containers| - i
  {
    if i < |set_.containers| {
      if set_.containers[i].name != OPI {
        RebasePatches(w, set_, i + 1, image, guid, env);
      } else {
        var changed := WithImage(set_, i, image);
        var w1 := UpdateSet(w, changed, env.updates(i)).0;
        var w2 := PatchDroplet(w1, guid, image, env.patches(i)).0;
        RebasePatches(w2, changed, i + 1, image, guid, env);
        assert w2.history[|w1.history|] == DropletPatched(guid, image);
      }
    }
  }

  /**
   * A reconcile of a rebased image that reports success, without asking to be requeued, has patched the droplet
   * exactly when the app had one StatefulSet and that had an opi container. If so, opi and droplet have the image;
   * if not, because there is no set or no opi container, nothing has changed.
   */
  lemma SuccessMovesDropletIff(w: World, image: Image, env: Env)
    requires IsRebased(image) && ReconcileSpec(w, image, env).1 == Outcome(false, None)
    requires forall n :: n in SetsOf(w, Label(image.labels, APP_GUID_LABEL)) ==>
               w.sets[n].name == n && HonestEnv(env, w.sets[n])
    ensures var w', app := ReconcileSpec(w, image, env).0, Label(image.labels, APP_GUID_LABEL);
            var guid := Label(image.labels, DROPLET_GUID_LABEL);
            && (Patched(w'.history, |w.history|, guid, image.latestImage) <==> HasRebaseTarget(w, app))
            && (HasRebaseTarget(w, app) ==>
                  && guid in w'.droplets && w'.droplets[guid] == image.latestImage
                  && forall n :: n in SetsOf(w, app) ==>
                       n in w'.sets && w'.sets[n].containers == Rebased(w.sets[n].containers, 0, image.latestImage))
            && (!HasRebaseTarget(w, app) ==> w' == w)
  {
    var app, guid := Label(image.labels, APP_GUID_LABEL), Label(image.labels, DROPLET_GUID_LABEL);
    if |SetsOf(w, app)| == 1 {
      var name :| name in SetsOf(w, app);
      OnlyMember(SetsOf(w, app), name);
      assert ReconcileSpec(w, image, env) == Handle(w, w.sets[name], image, env);
      RebasePatches(w, w.sets[name], 0, image.latestImage, guid, env);
      RebaseSucceeds(w, w.sets[name], 0, image.latestImage, guid, env);
    }
  }

  lemma {:induction false} NothingToRebase(
    w: World, set_: StatefulSet, i: nat, image: string, guid: string, env: Env)
    requires !HasOpi(set_.containers, i)
    ensures Rebase(w, set_, i, image, guid, env) == (w, None)
    decreases |set_.containers| - i
  {
    if i < |set_.containers| {
      NothingToRebase(w, set_, i + 1, image, guid, env);
    }
  }

  /** With at most one set and no opi container in it, the reconcile always reports success and changes nothing. */
  lemma NoTargetMissesTheRebase(w: World, image: Image, env: Env)
    requires IsRebased(image) && env.getError.None? && env.listError.None?
    ensures var app := Label(image.labels, APP_GUID_LABEL);
            && (|SetsOf(w, app)| <= 1 && !HasRebaseTarget(w, app) ==>
                  ReconcileSpec(w, image, env) == (w, Outcome(false, None)))
            && (ReconcileSpec(w, image, env).1.requeue <==> |SetsOf(w, app)| > 1)
            && (|SetsOf(w, app)| > 1 ==> ReconcileSpec(w, image, env) == (w, Outcome(true, None)))
  {
    var app, guid := Label(image.labels, APP_GUID_LABEL), Label(image.labels, DROPLET_GUID_LABEL);
    if |SetsOf(w, app)| == 1 {
      var name :| name in SetsOf(w, app);
      OnlyMember(SetsOf(w, app), name);
      assert ReconcileSpec(w, image, env) == Handle(w, w.sets[name], image, env);
      if !HasRebaseTarget(w, app) {
        NothingToRebase(w, w.sets[name], 0, image.latestImage, guid, env);
      }
    }
  }

  /** The two ways to succeed without doing anything, each with an old image left in the droplet. */
  lemma SilentRebases(image: Image, env: Env, old_: string)
    requires IsRebased(image) && env.getError.None? && env.listError.None?
    requires old_ != image.latestImage
    ensures var app, guid := Label(image.labels, APP_GUID_LABEL), Label(image.labels, DROPLET_GUID_LABEL);
            var sidecar := StatefulSet("s", app, [Container("istio-proxy", old_)], 0);
            var noSet, noOpi := World(map[], map[guid := old_], []), World(map["s" := sidecar], map[guid := old_], []);
            && ReconcileSpec(noSet, image, env) == (noSet, Outcome(false, None))
            && ReconcileSpec(noOpi, image, env) == (noOpi, Outcome(false, None))
            && noSet.droplets[guid] != image.latestImage && noOpi.droplets[guid] != image.latestImage
  {
    var app, guid := Label(image.labels, APP_GUID_LABEL), Label(image.labels, DROPLET_GUID_LABEL);
    var sidecar := StatefulSet("s", app, [Container("istio-proxy", old_)], 0);
    var noOpi := World(map["s" := sidecar], map[guid := old_], []);
    assert SetsOf(noOpi, app) == {"s"};
    assert sidecar.containers[0].name[0] != OPI[0];
    NoTargetMissesTheRebase(noOpi, image, env);
  }

  /** An event of a CF image that the filter drops would have been reconciled without a write or an error. */
  lemma DroppedEventsAreIdle(w: World, image: Image, env: Env)
    requires APP_GUID_LABEL in image.labels && !ImageFilter(ImageEvent(image)) && env.getError.None?
    ensures ReconcileSpec(w, image, env) == (w, Outcome(false, None))
  {}

  // ---- Which images are rebased, over the status itself ------------------------------------------------------

  /** The filter passes an image with the app label whose first Ready condition is there and not Unknown. */
  lemma FilterPassesIff(e: Event)
    ensures ImageFilter(e) <==>
            && e.ImageEvent?
            && "cloudfoundry.org/app_guid" in e.image.labels
            && (exists i :: FirstOf(e.image.conditions, "Ready", i) && e.image.conditions[i].status != "Unknown")
  {
    if e.ImageEvent? {
      GetConditionFindsFirst(e.image.conditions, "Ready");
    }
  }

  /** What reads fail is returned and nothing is written; a failed List matters only for a rebased image. */
  lemma ReadErrorsAreReturned(w: World, image: Image, env: Env)
    ensures env.getError.Some? ==> ReconcileSpec(w, image, env) == (w, Outcome(false, env.getError))
    ensures env.getError.None? && env.listError.Some?
            && image.latestBuildReason == "STACK" && Reports(image.conditions, "Ready", "True") ==>
              ReconcileSpec(w, image, env) == (w, Outcome(false, env.listError))
  {
    StatusMeaning(image.conditions, "Ready");
  }

  /** An image that is not Ready, or was built for another reason than its stack, is left alone. */
  lemma OtherImagesAreLeftAlone(w: World, image: Image, env: Env)
    requires env.getError.None?
    requires image.latestBuildReason != "STACK" || !Reports(image.conditions, "Ready", "True")
    ensures ReconcileSpec(w, image, env) == (w, Outcome(false, None))
  {
    StatusMeaning(image.conditions, "Ready");
  }

  /** `name` is the only StatefulSet whose app label is the image's, and is stored under its own name. */
  ghost predicate OnlySet(w: World, image: Image, name: string) {
    var app := if "cloudfoundry.org/app_guid" in image.labels then image.labels["cloudfoundry.org/app_guid"] else "";
    && name in w.sets && w.sets[name].name == name
    && forall n :: n in w.sets ==> (w.sets[n].appGuid == app <==> n == name)
  }

  lemma OnlySetIsListed(w: World, image: Image, env: Env, name: string)
    requires OnlySet(w, image, name) && env.getError.None? && env.listError.None?
    requires image.latestBuildReason == "STACK" && Reports(image.conditions, "Ready", "True")
    ensures SetsOf(w, Label(image.labels, APP_GUID_LABEL)) == {name} && IsRebased(image)
    ensures ReconcileSpec(w, image, env) == Handle(w, w.sets[name], image, env)
  {
    StatusMeaning(image.conditions, "Ready");
    assert SetsOf(w, Label(image.labels, APP_GUID_LABEL)) == {name};
  }

  /**
   * A Ready image built for its stack, whose app has one StatefulSet with opi containers: when its reconcile
   * succeeds, the droplet and every opi container have the latest image, and the other containers are as before.
   */
  lemma StackRebaseMoves(w: World, image: Image, env: Env, name: string)
    requires image.latestBuildReason == "STACK" && Reports(image.conditions, "Ready", "True")
    requires OnlySet(w, image, name) && HonestEnv(env, w.sets[name])
    requires exists k :: 0 <= k < |w.sets[name].containers| && w.sets[name].containers[k].name == "opi"
    requires ReconcileSpec(w, image, env).1.err.None?
    ensures var (w', outcome) := ReconcileSpec(w, image, env);
            var guid := if "cloudfoundry.org/droplet_guid" in image.labels
                        then image.labels["cloudfoundry.org/droplet_guid"] else "";
            && outcome == Outcome(false, None)
            && guid in w'.droplets && w'.droplets[guid] == image.latestImage
            && name in w'.sets && |w'.sets[name].containers| == |w.sets[name].containers|
            && forall k :: 0 <= k < |w.sets[name].containers| ==>
                 w'.sets[name].containers[k] == if w.sets[name].containers[k].name == "opi"
                                                then Container("opi", image.latestImage)
                                                else w.sets[name].containers[k]
  {
    ReadErrorsAreReturned(w, image, env);
    OnlySetIsListed(w, image, env, name);
    RebaseSucceeds(w, w.sets[name], 0, image.latestImage, Label(image.labels, DROPLET_GUID_LABEL), env);
  }

  /** With one opi container and no fault, the loop ends without error. */
  lemma {:induction false} CleanLoopSucceeds(
    w: World, set_: StatefulSet, i: nat, image: string, guid: string, env: Env)
    requires forall n :: env.updates(n) == UpdateClean && env.patches(n) == PatchClean
    requires HasOpi(set_.containers, i) ==> set_.name in w.sets && w.sets[set_.name] == set_
    requires forall j, k :: i <= j < k < |set_.containers| ==>
               set_.containers[j].name != OPI || set_.containers[k].name != OPI
    ensures Rebase(w, set_, i, image, guid, env).1.None?
    decreases |set_.containers| - i
  {
    if i < |set_.containers| {
      if set_.containers[i].name != OPI {
        CleanLoopSucceeds(w, set_, i + 1, image, guid, env);
      } else {
        var changed := WithImage(set_, i, image);
        assert !HasOpi(changed.containers, i + 1);
        NothingToRebase(PatchDroplet(UpdateSet(w, changed, UpdateClean).0, guid, image, PatchClean).0,
                        changed, i + 1, image, guid, env);
      }
    }
  }

  /** Without faults the reconcile of such an image, with one opi container, does succeed. */
  lemma CleanStackRebaseSucceeds(w: World, image: Image, env: Env, name: string)
    requires image.latestBuildReason == "STACK" && Reports(image.conditions, "Ready", "True")
    requires env.getError.None? && env.listError.None?
    requires forall n :: env.updates(n) == UpdateClean && env.patches(n) == PatchClean
    requires OnlySet(w, image, name)
    requires forall j, k :: 0 <= j < k < |w.sets[name].containers| ==>
               w.sets[name].containers[j].name != "opi" || w.sets[name].containers[k].name != "opi"
    ensures ReconcileSpec(w, image, env).1 == Outcome(false, None)
  {
    OnlySetIsListed(w, image, env, name);
    CleanLoopSucceeds(w, w.sets[name], 0, image.latestImage, Label(image.labels, DROPLET_GUID_LABEL), env);
  }
}
