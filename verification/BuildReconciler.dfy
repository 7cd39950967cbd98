/**
 * The Build controller (src/cf-api-controllers/controllers/build_controller.go): which events it reconciles, and
 * the one build update a reconcile sends to the CF API.
 */
module BuildReconciler {
  import opened Common
  import opened KpackStatus

  const BUILD_GUID_LABEL := "cloudfoundry.org/build_guid"
  const BUILD_REASON_ANNOTATION := "image.kpack.io/reason"
  const STACK_UPDATE_BUILD_REASON := "STACK"
  const SUCCEEDED := "Succeeded"
  const STAGED := "STAGED"
  const FAILED := "FAILED"

  datatype Terminated = Terminated(exitCode: int, reason: string, message: string)

  /** A step's container state: terminated, or still waiting or running. */
  type StepState = Option<Terminated>

  datatype Build = Build(
    labels: Labels, annotations: Labels, conditions: seq<Condition>, stepStates: seq<StepState>, latestImage: string)

  datatype Process = Process(kind: string, command: string, args: seq<string>)

  /** The PATCH body sent to the CF API; `processTypes` is None for Go's nil map. */
  datatype CfBuild = CfBuild(
    state: string, error: string, lifecycle: string, image: string, processTypes: Option<map<string, string>>)

  datatype Event = BuildEvent(build: Build) | OtherEvent

  /** Lines 131-162. */
  predicate BuildFilter(e: Event) {
    && e.BuildEvent?
    && BUILD_GUID_LABEL in e.build.labels
    && BUILD_REASON_ANNOTATION in e.build.annotations
    && e.build.annotations[BUILD_REASON_ANNOTATION] != STACK_UPDATE_BUILD_REASON
    && !IsUnknown(GetCondition(e.build.conditions, SUCCEEDED))
  }

  // ---- Process types -----------------------------------------------------------------------------------------

  /** strings.Join. */
  function Join(parts: seq<string>, separator: string): string {
    if parts == [] then "" else if |parts| == 1 then parts[0]
    else parts[0] + separator + Join(parts[1..], separator)
  }

  /** Lines 182-185. */
  function FullCommand(p: Process): string {
    Join([p.command] + p.args, " ")
  }

  /** The command alone, and then each argument after one space. */
  lemma FullCommandGrows(p: Process, arg: string)
    ensures FullCommand(p.(args := [])) == p.command
    ensures FullCommand(p.(args := p.args + [arg])) == FullCommand(p) + " " + arg
  {
    assert [p.command] + (p.args + [arg]) == ([p.command] + p.args) + [arg];
    JoinSnoc([p.command] + p.args, " ", arg);
    assert [p.command] + [] == [p.command];
  }

  lemma {:induction false} JoinSnoc(parts: seq<string>, separator: string, last: string)
    requires parts != []
    ensures Join(parts + [last], separator) == Join(parts, separator) + separator + last
  {
    assert (parts + [last])[1..] == parts[1..] + [last];
    if |parts| > 1 {
      JoinSnoc(parts[1..], separator, last);
    }
  }

  ghost predicate LastOf(processes: seq<Process>, kind: string, i: int) {
    0 <= i < |processes| && processes[i].kind == kind && forall j :: i < j < |processes| ==> processes[j].kind != kind
  }

  /** `m` gives every process type its last entry's full command, and has no other type. */
  ghost predicate LastPerType(m: map<string, string>, processes: seq<Process>) {
    && (forall t :: t in m ==> exists i :: LastOf(processes, t, i) && m[t] == FullCommand(processes[i]))
    && (forall p :: p in processes ==> p.kind in m)
  }

  /** Lines 175-179. */
  method CollectProcessTypes(processes: seq<Process>) returns (m: map<string, string>)
    ensures LastPerType(m, processes)
  {
    m := map[];
    for n := 0 to |processes|
      invariant LastPerType(m, processes[..n])
    {
      ghost var before := m;
      m := m[processes[n].kind := FullCommand(processes[n])];
      LastPerTypeSnoc(before, processes, n);
    }
    assert processes[..|processes|] == processes;
  }

  lemma LastPerTypeSnoc(m: map<string, string>, processes: seq<Process>, n: nat)
    requires n < |processes| && LastPerType(m, processes[..n])
    ensures LastPerType(m[processes[n].kind := FullCommand(processes[n])], processes[..n + 1])
  {
    var p, now, prev := processes[n], processes[..n + 1], processes[..n];
    var m' := m[p.kind := FullCommand(p)];
    forall t | t in m' ensures exists i :: LastOf(now, t, i) && m'[t] == FullCommand(now[i]) {
      if t == p.kind {
        assert LastOf(now, t, n);
      } else {
        var i :| LastOf(prev, t, i) && m[t] == FullCommand(prev[i]);
        assert forall j :: i < j < n ==> now[j] == prev[j];
        assert LastOf(now, t, i);
      }
    }
    assert forall q :: q in now <==> q in prev || q == p;
  }

  /** There is only one such map, so the loop's result is determined by the process list. */
  lemma LastPerTypeIsUnique(m: map<string, string>, m': map<string, string>, processes: seq<Process>)
    requires LastPerType(m, processes) && LastPerType(m', processes)
    ensures m == m'
  {
    forall t ensures t in m <==> t in m' {
      if t in m {
        var i :| LastOf(processes, t, i) && m[t] == FullCommand(processes[i]);
        assert processes[i] in processes;
      }
      if t in m' {
        var i :| LastOf(processes, t, i) && m'[t] == FullCommand(processes[i]);
        assert processes[i] in processes;
      }
    }
    forall t | t in m ensures m[t] == m'[t] {
      var i :| LastOf(processes, t, i) && m[t] == FullCommand(processes[i]);
      var j :| LastOf(processes, t, j) && m'[t] == FullCommand(processes[j]);
      assert i == j;
    }
  }

  // ---- Failed steps ------------------------------------------------------------------------------------------

  predicate StepFailed(s: StepState) {
    s.Some? && s.value.exitCode != 0
  }

  /** Lines 231-238. */
  function FindAnyFailedContainerState(states: seq<StepState>): Option<Terminated> {
    if states == [] then None
    else if StepFailed(states[0]) then states[0]
    else FindAnyFailedContainerState(states[1..])
  }

  lemma {:induction false} FindsFirstFailed(states: seq<StepState>)
    ensures var found := FindAnyFailedContainerState(states);
            && (found.None? <==> forall s :: s in states ==> !StepFailed(s))
            && (found.Some? ==> exists i :: 0 <= i < |states| && states[i] == found && StepFailed(found)
                                            && forall j :: 0 <= j < i ==> !StepFailed(states[j]))
  {
    if states != [] {
      FindsFirstFailed(states[1..]);
      if StepFailed(states[0]) {
        assert states[0] in states;
      } else {
        assert forall s :: s in states <==> s == states[0] || s in states[1..];
        if FindAnyFailedContainerState(states[1..]).Some? {
          var rest := states[1..];
          var i :| 0 <= i < |rest| && rest[i] == FindAnyFailedContainerState(rest) && StepFailed(rest[i])
                   && forall j :: 0 <= j < i ==> !StepFailed(rest[j]);
          assert states[i + 1] == rest[i];
          assert forall j :: 0 <= j < i + 1 ==> !StepFailed(states[j]) by {
            assert forall j :: 1 <= j < i + 1 ==> states[j] == rest[j - 1];
          }
        }
      }
    }
  }

  function UnsuccessfulMessage(c: Condition): string {
    "Kpack build unsuccessful: Build failure reason: '" + c.reason + "', message: '" + c.message + "'."
  }

  function StepMessage(t: Terminated): string {
    "Kpack build failed during container execution: Step failure reason: '" + t.reason
    + "', message: '" + t.message + "'."
  }

  // ---- The update a reconcile owes ---------------------------------------------------------------------------

  function FailedBuild(message: string): CfBuild {
    CfBuild(FAILED, message, "", "", None)
  }

  /** What must be sent for a build with condition `c`, given the image's process list or the error reading it. */
  ghost predicate Owed(sent: CfBuild, build: Build, c: Condition, metadata: Result<seq<Process>, string>) {
    if c.status == "True" then
      match metadata
      case Ok(processes) =>
        && sent == CfBuild(STAGED, "", "kpack", build.latestImage, sent.processTypes)
        && sent.processTypes.Some? && LastPerType(sent.processTypes.value, processes)
      case Err(e) => sent == FailedBuild("Failed to handle successful kpack build: " + e)
    else
      match FindAnyFailedContainerState(build.stepStates)
      case Some(t) => sent == FailedBuild(StepMessage(t))
      case None => sent == FailedBuild(UnsuccessfulMessage(c))
  }

  // ---- The imperative code -----------------------------------------------------------------------------------

  datatype Update = Update(guid: string, build: CfBuild)

  class CfApi {
    var updates: seq<Update>

    method UpdateBuild(guid: string, build: CfBuild, fault: Option<string>) returns (err: Option<string>)
      modifies this
      ensures updates == old(updates) + [Update(guid, build)] && err == fault
    {
      updates := updates + [Update(guid, build)];
      err := fault;
    }
  }

  datatype Fetched = Found(build: Build) | NotFound | FetchFailed(err: string)

  /** `(ctrl.Result, error)`, or the nil dereference of reading a missing condition. */
  datatype Outcome = Done(requeue: bool, err: Option<string>) | NilDereference

  /** Lines 187-213. */
  method ReconcileSuccessfulBuild(
    api: CfApi, build: Build, metadata: Result<seq<Process>, string>, fault: Option<string>)
    returns (outcome: Outcome, ghost sent: CfBuild)
    modifies api
    ensures api.updates == old(api.updates) + [Update(Label(build.labels, BUILD_GUID_LABEL), sent)]
    ensures forall c: Condition :: c.status == "True" ==> Owed(sent, build, c, metadata)
    ensures outcome == Done(fault.Some?, fault)
  {
    if metadata.Err? {
      outcome, sent := ReconcileFailedBuild(
        api, build, "Failed to handle successful kpack build: " + metadata.error, fault);
      return;
    }
    var processTypes := CollectProcessTypes(metadata.value);
    var request := CfBuild(STAGED, "", "kpack", build.latestImage, None);
    request := request.(processTypes := Some(processTypes));
    sent := request;
    var err := api.UpdateBuild(Label(build.labels, BUILD_GUID_LABEL), request, fault);
    if err.Some? {
      return Done(true, err), sent;
    }
    outcome := Done(false, None);
  }

  /** Lines 215-228. */
  method ReconcileFailedBuild(api: CfApi, build: Build, message: string, fault: Option<string>)
    returns (outcome: Outcome, ghost sent: CfBuild)
    modifies api
    ensures sent == FailedBuild(message)
    ensures api.updates == old(api.updates) + [Update(Label(build.labels, BUILD_GUID_LABEL), sent)]
    ensures outcome == Done(fault.Some?, fault)
  {
    sent := CfBuild(FAILED, message, "", "", None);
    var err := api.UpdateBuild(Label(build.labels, BUILD_GUID_LABEL), CfBuild(FAILED, message, "", "", None), fault);
    if err.Some? {
      return Done(true, err), sent;
    }
    outcome := Done(false, None);
  }

  /**
   * Lines 66-107. A fetched build with a Succeeded condition gets exactly one update, the owed one, whether or not
   * it still passes the filter; one that passes the filter always has the condition.
   */
  method Reconcile(api: CfApi, fetched: Fetched, metadata: Result<seq<Process>, string>, fault: Option<string>)
    returns (outcome: Outcome, ghost sent: CfBuild)
    modifies api
    ensures fetched.NotFound? ==> outcome == Done(false, None) && api.updates == old(api.updates)
    ensures fetched.FetchFailed? ==> outcome == Done(false, Some(fetched.err)) && api.updates == old(api.updates)
    ensures fetched.Found? ==>
              var c := GetCondition(fetched.build.conditions, SUCCEEDED);
              && (outcome.NilDereference? <==> c.None?)
              && (c.None? ==> api.updates == old(api.updates))
              && (c.Some? ==>
                    && outcome == Done(fault.Some?, fault)
                    && Owed(sent, fetched.build, c.value, metadata)
                    && api.updates == old(api.updates) + [Update(Label(fetched.build.labels, BUILD_GUID_LABEL), sent)])
    ensures fetched.Found? && BuildFilter(BuildEvent(fetched.build)) ==>
              && outcome.Done?
              && "cloudfoundry.org/build_guid" in fetched.build.labels
              && api.updates == old(api.updates) + [Update(fetched.build.labels["cloudfoundry.org/build_guid"], sent)]
  {
    sent := FailedBuild("");
    if fetched.FetchFailed? {
      return Done(false, Some(fetched.err)), sent;
    }
    if fetched.NotFound? {
      return Done(false, None), sent;
    }
    var build := fetched.build;
    var condition := GetCondition(build.conditions, SUCCEEDED);
    if IsTrue(condition) {
      outcome, sent := ReconcileSuccessfulBuild(api, build, metadata, fault);
      return;
    }
    if condition.None? {
      return NilDereference, sent;
    }
    var message := UnsuccessfulMessage(condition.value);
    var failed := FindAnyFailedContainerState(build.stepStates);
    if failed.Some? {
      message := StepMessage(failed.value);
    }
    outcome, sent := ReconcileFailedBuild(api, build, message, fault);
  }

  // ---- The update, spelled out -------------------------------------------------------------------------------

  /** The filter passes a CF build with a reason other than STACK whose first Succeeded condition is not Unknown. */
  lemma FilterPassesIff(e: Event)
    ensures BuildFilter(e) <==>
            && e.BuildEvent?
            && "cloudfoundry.org/build_guid" in e.build.labels
            && "image.kpack.io/reason" in e.build.annotations
            && e.build.annotations["image.kpack.io/reason"] != "STACK"
            && (exists i :: FirstOf(e.build.conditions, "Succeeded", i) && e.build.conditions[i].status != "Unknown")
  {
    if e.BuildEvent? {
      GetConditionFindsFirst(e.build.conditions, "Succeeded");
    }
  }

  /** Step i is the first that terminated with a non-zero exit code. */
  ghost predicate FirstFailure(states: seq<StepState>, i: int) {
    && 0 <= i < |states| && states[i].Some? && states[i].value.exitCode != 0
    && forall j :: 0 <= j < i ==> states[j].Some? ==> states[j].value.exitCode == 0
  }

  lemma FirstFailureFound(states: seq<StepState>)
    ensures forall i :: FirstFailure(states, i) ==> FindAnyFailedContainerState(states) == states[i]
    ensures FindAnyFailedContainerState(states).Some? ==> exists i :: FirstFailure(states, i)
  {
    FindsFirstFailed(states);
    forall i | FirstFailure(states, i) ensures FindAnyFailedContainerState(states) == states[i] {
      assert states[i] in states;
    }
    if FindAnyFailedContainerState(states).Some? {
      var i :| 0 <= i < |states| && states[i] == FindAnyFailedContainerState(states) && StepFailed(states[i])
               && forall j :: 0 <= j < i ==> !StepFailed(states[j]);
      assert FirstFailure(states, i);
    }
  }

  /** The owed update, field by field and message by message. */
  lemma OwedMeaning(sent: CfBuild, build: Build, c: Condition, metadata: Result<seq<Process>, string>)
    requires Owed(sent, build, c, metadata)
    ensures c.status == "True" && metadata.Ok? ==>
              sent == CfBuild("STAGED", "", "kpack", build.latestImage, sent.processTypes) && sent.processTypes.Some?
    ensures c.status == "True" && metadata.Err? ==>
              sent == CfBuild("FAILED", "Failed to handle successful kpack build: " + metadata.error, "", "", None)
    ensures c.status != "True" ==>
              forall i :: FirstFailure(build.stepStates, i) ==>
                sent == CfBuild(
                  "FAILED",
                  "Kpack build failed during container execution: Step failure reason: '"
                  + build.stepStates[i].value.reason + "', message: '" + build.stepStates[i].value.message + "'.",
                  "", "", None)
    ensures c.status != "True" && !(exists i :: FirstFailure(build.stepStates, i)) ==>
              sent == CfBuild(
                "FAILED",
                "Kpack build unsuccessful: Build failure reason: '" + c.reason + "', message: '" + c.message + "'.",
                "", "", None)
  {
    FirstFailureFound(build.stepStates);
  }

  /** A corollary of `Owed`: STAGED exactly when the condition is True and the metadata decodes; otherwise FAILED. */
  lemma StagedIff(sent: CfBuild, build: Build, c: Condition, metadata: Result<seq<Process>, string>)
    requires Owed(sent, build, c, metadata)
    ensures sent.state == "STAGED" <==> c.status == "True" && metadata.Ok?
    ensures sent.state == "FAILED" <==> !(c.status == "True" && metadata.Ok?)
  {
    assert "STAGED"[0] != "FAILED"[0];
  }

  /** What is owed is one update: a requeued reconcile of the same build repeats the one it could not deliver. */
  lemma OwedIsUnique(
    sent: CfBuild, sent': CfBuild, build: Build, c: Condition, metadata: Result<seq<Process>, string>)
    requires Owed(sent, build, c, metadata) && Owed(sent', build, c, metadata)
    ensures sent == sent'
  {
    if c.status == "True" && metadata.Ok? {
      LastPerTypeIsUnique(sent.processTypes.value, sent'.processTypes.value, metadata.value);
    }
  }

  /** A corollary: a build that went back to Unknown after its event fails the filter, and is reported FAILED. */
  lemma UnknownIsReportedFailed(sent: CfBuild, build: Build, c: Condition, metadata: Result<seq<Process>, string>)
    requires GetCondition(build.conditions, SUCCEEDED) == Some(c) && c.status == "Unknown"
    requires Owed(sent, build, c, metadata)
    ensures !BuildFilter(BuildEvent(build)) && sent.state == FAILED
  {}

  /**
   * The update for a build that passes the filter, over its status: STAGED, if the first Succeeded condition is
   * True; if it is not, FAILED, blaming the first step that failed or else that condition.
   */
  lemma FilteredUpdate(sent: CfBuild, build: Build, metadata: Result<seq<Process>, string>, n: int)
    requires BuildFilter(BuildEvent(build)) && FirstOf(build.conditions, "Succeeded", n)
    requires Owed(sent, build, GetCondition(build.conditions, SUCCEEDED).value, metadata)
    ensures build.conditions[n].status == "True" && metadata.Ok? ==>
              sent.state == "STAGED" && sent.image == build.latestImage
    ensures build.conditions[n].status != "True" ==>
              && sent.state == "FAILED"
              && (forall i :: FirstFailure(build.stepStates, i) ==>
                    sent.error == "Kpack build failed during container execution: Step failure reason: '"
                                  + build.stepStates[i].value.reason + "', message: '"
                                  + build.stepStates[i].value.message + "'.")
              && (!(exists i :: FirstFailure(build.stepStates, i)) ==>
                    sent.error == "Kpack build unsuccessful: Build failure reason: '" + build.conditions[n].reason
                                  + "', message: '" + build.conditions[n].message + "'.")
  {
    GetConditionFindsFirst(build.conditions, "Succeeded");
    OwedMeaning(sent, build, build.conditions[n], metadata);
    if build.conditions[n].status != "True" && exists i :: FirstFailure(build.stepStates, i) {
      var i :| FirstFailure(build.stepStates, i);
      assert sent.state == "FAILED";
    }
  }
}
