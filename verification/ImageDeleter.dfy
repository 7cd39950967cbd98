/**
 * The generic image deleter (src/registry-buddy/image/generic_deleter.go), one call of it, and any sequence of
 * retries against a registry.
 */
module ImageDeleter {
  import opened Common

  type Digest = string
  type Tag = string

  datatype Reference = TagRef(tag: Tag) | DigestRef(digest: Digest)

  /** `Transport` is go-containerregistry's transport.Error: an HTTP status and the diagnostic codes. */
  datatype Error =
    | Transport(status: int, codes: seq<string>)
    | Other(message: string)
    | Wrapped(context: string, cause: Error)

  const UNSUPPORTED := "UNSUPPORTED"

  predicate IsNotFound(err: Error) {
    err.Transport? && err.status == 404
  }

  predicate IsUnsupported(err: Error) {
    err.Transport? && UNSUPPORTED in err.codes
  }

  // ---- Registries --------------------------------------------------------------------------------------------

  datatype Registry = Registry(tags: map<Tag, Digest>, manifests: set<Digest>)

  /** How a registry treats a DELETE by tag; the Docker Registry HTTP API V2 only requires it by digest. */
  datatype Policy = Untags | RemovesManifest | Refuses

  /** One call's luck. `Lost` errs with or without effect; `Resent` is delivered twice and answers the second. */
  datatype Fault = Clean | Lost(applied: bool, err: Error) | Resent

  function Resolve(reg: Registry, ref: Reference): Option<Digest> {
    match ref
    case TagRef(t) => if t in reg.tags && reg.tags[t] in reg.manifests then Some(reg.tags[t]) else None
    case DigestRef(d) => if d in reg.manifests then Some(d) else None
  }

  function ServeDelete(policy: Policy, reg: Registry, ref: Reference): (Registry, Option<Error>) {
    if ref.TagRef? && policy.Refuses? then (reg, Some(Transport(405, [UNSUPPORTED])))
    else if Resolve(reg, ref).None? then (reg, Some(Transport(404, ["MANIFEST_UNKNOWN"])))
    else match ref
      case TagRef(t) =>
        (Registry(reg.tags - {t}, if policy.Untags? then reg.manifests else reg.manifests - {reg.tags[t]}), None)
      case DigestRef(d) => (reg.(manifests := reg.manifests - {d}), None)
  }

  function DeliverDelete(policy: Policy, reg: Registry, ref: Reference, fault: Fault): (Registry, Option<Error>) {
    var (served, reply) := ServeDelete(policy, reg, ref);
    match fault
    case Clean => (served, reply)
    case Lost(applied, err) => (if applied then served else reg, Some(err))
    case Resent => (served, ServeDelete(policy, served, ref).1)
  }

  // ---- One call of the deleter -------------------------------------------------------------------------------

  /** `getError` is a failure of `get` other than the registry's own 404. */
  datatype AttemptEnv = AttemptEnv(getError: Option<Error>, tagDelete: Fault, digestDelete: Fault)

  /** A delete that was sent, and its answer. */
  datatype Sent = Sent(ref: Reference, reply: Option<Error>)

  predicate TagForgiven(reply: Option<Error>) {
    reply.Some? ==> IsNotFound(reply.value) || IsUnsupported(reply.value)
  }

  predicate DigestForgiven(reply: Option<Error>) {
    reply.Some? ==> IsNotFound(reply.value)
  }

  datatype Attempt = Attempt(registry: Registry, err: Option<Error>, sent: seq<Sent>)

  /** The digest delete that ends a call, after the deletes in `sent`. */
  function DeleteDigest(policy: Policy, reg: Registry, d: Digest, fault: Fault, sent: seq<Sent>): Attempt {
    var (reg', reply) := DeliverDelete(policy, reg, DigestRef(d), fault);
    Attempt(reg', if DigestForgiven(reply) then None else Some(Wrapped("error deleting image", reply.value)),
            sent + [Sent(DigestRef(d), reply)])
  }

  function RunAttempt(policy: Policy, reg: Registry, ref: Reference, env: AttemptEnv): Attempt {
    if env.getError.Some? then
      Attempt(reg, if IsNotFound(env.getError.value) then None
                   else Some(Wrapped("unable to fetch image metadata", env.getError.value)), [])
    else if Resolve(reg, ref).None? then
      Attempt(reg, None, [])
    else
      var d := Resolve(reg, ref).value;
      if ref.DigestRef? then DeleteDigest(policy, reg, d, env.digestDelete, [])
      else
        var (reg1, reply) := DeliverDelete(policy, reg, ref, env.tagDelete);
        if TagForgiven(reply) then DeleteDigest(policy, reg1, d, env.digestDelete, [Sent(ref, reply)])
        else Attempt(reg1, Some(Wrapped("error deleting image by tag", reply.value)), [Sent(ref, reply)])
  }

  /**
   * Whatever the registry answers, a call that found digest d sends the tag delete (for tags only) and then the
   * digest delete, the latter only if the former was accepted, 404 or UNSUPPORTED. It succeeds exactly when the
   * digest delete was sent and accepted or answered 404; otherwise it returns the refusing answer, wrapped.
   */
  lemma SingleCall(policy: Policy, reg: Registry, ref: Reference, env: AttemptEnv)
    requires env.getError.None? && Resolve(reg, ref).Some?
    ensures var d, run := Resolve(reg, ref).value, RunAttempt(policy, reg, ref, env);
            var n := |run.sent|;
            && 1 <= n <= (if ref.TagRef? then 2 else 1)
            && var first, last := run.sent[0], run.sent[n - 1];
            && (ref.TagRef? ==>
                  && first.ref == ref
                  && (n == 2 <==>
                        first.reply.Some? ==>
                          first.reply.value.Transport?
                          && (first.reply.value.status == 404 || "UNSUPPORTED" in first.reply.value.codes)))
            && (ref.TagRef? && n == 1 ==> run.err == Some(Wrapped("error deleting image by tag", first.reply.value)))
            && (ref.DigestRef? || n == 2 ==>
                  && last.ref == DigestRef(d)
                  && (run.err.None? <==>
                        last.reply.Some? ==> last.reply.value.Transport? && last.reply.value.status == 404)
                  && (run.err.Some? ==> run.err == Some(Wrapped("error deleting image", last.reply.value))))
  {}

  /** A failed lookup sends nothing; it is success if it is the registry's 404, and is returned, wrapped, if not. */
  lemma FailedLookup(policy: Policy, reg: Registry, ref: Reference, env: AttemptEnv)
    requires env.getError.Some?
    ensures var run, e := RunAttempt(policy, reg, ref, env), env.getError.value;
            && run.registry == reg && run.sent == []
            && run.err == if e.Transport? && e.status == 404 then None
                          else Some(Wrapped("unable to fetch image metadata", e))
  {}

  /** Without faults every deletion succeeds, of a tag or a digest, present or not, and what was named is gone. */
  lemma CleanAttemptSucceeds(policy: Policy, reg: Registry, ref: Reference)
    ensures var run := RunAttempt(policy, reg, ref, AttemptEnv(None, Clean, Clean));
            && run.err.None?
            && match ref
               case DigestRef(d) => run.registry == reg.(manifests := reg.manifests - {d})
               case TagRef(t) => t in reg.tags ==> reg.tags[t] !in run.registry.manifests
  {}

  // ---- The imperative code -----------------------------------------------------------------------------------

  class RegistryClient {
    var state: Registry
    var sent: seq<Sent>
    const policy: Policy

    constructor (state: Registry, policy: Policy)
      ensures this.state == state && this.policy == policy && sent == []
    {
      this.state, this.policy, sent := state, policy, [];
    }

    method Get(ref: Reference, getError: Option<Error>) returns (r: Result<Digest, Error>)
      ensures getError.Some? ==> r == Err(getError.value)
      ensures getError.None? ==>
                r == match Resolve(state, ref)
                     case Some(d) => Ok(d)
                     case None => Err(Transport(404, ["MANIFEST_UNKNOWN"]))
    {
      if getError.Some? {
        r := Err(getError.value);
      } else {
        var found := Resolve(state, ref);
        r := if found.Some? then Ok(found.value) else Err(Transport(404, ["MANIFEST_UNKNOWN"]));
      }
    }

    method Delete(ref: Reference, fault: Fault) returns (reply: Option<Error>)
      modifies this
      ensures (state, reply) == DeliverDelete(policy, old(state), ref, fault)
      ensures sent == old(sent) + [Sent(ref, reply)]
    {
      var (reg, answer) := DeliverDelete(policy, state, ref, fault);
      state, reply := reg, answer;
      sent := sent + [Sent(ref, reply)];
    }
  }

  /** Lines 80-88: scan the diagnostics for UNSUPPORTED. */
  method ErrorUnsupported(codes: seq<string>) returns (found: bool)
    ensures found <==> "UNSUPPORTED" in codes
  {
    for i := 0 to |codes|
      invariant UNSUPPORTED !in codes[..i]
    {
      if codes[i] == UNSUPPORTED {
        return true;
      }
    }
    return false;
  }

  /** Lines 63-78. */
  method AttemptDeleteByTag(client: RegistryClient, ref: Reference, fault: Fault)
    returns (err: Option<Error>, ghost reply: Option<Error>)
    modifies client
    ensures (client.state, reply) == DeliverDelete(client.policy, old(client.state), ref, fault)
    ensures client.sent == old(client.sent) + [Sent(ref, reply)]
    ensures err == if reply.Some? && reply.value.Transport?
                      && (reply.value.status == 404 || "UNSUPPORTED" in reply.value.codes) then None else reply
  {
    err := client.Delete(ref, fault);
    reply := err;
    if err.Some? && err.value.Transport? {
      if err.value.status == 404 {
        return None, reply;
      }
      var unsupported := ErrorUnsupported(err.value.codes);
      if unsupported {
        return None, reply;
      }
    }
  }

  /** Lines 18-59. */
  method DeleteImage(client: RegistryClient, ref: Reference, env: AttemptEnv) returns (err: Option<Error>)
    modifies client
    ensures Attempt(client.state, err, client.sent) ==
            var run := RunAttempt(client.policy, old(client.state), ref, env);
            run.(sent := old(client.sent) + run.sent)
  {
    var descriptor := client.Get(ref, env.getError);
    if descriptor.Err? {
      if IsNotFound(descriptor.error) {
        return None;
      }
      return Some(Wrapped("unable to fetch image metadata", descriptor.error));
    }
    if ref.TagRef? {
      ghost var reply;
      err, reply := AttemptDeleteByTag(client, ref, env.tagDelete);
      if err.Some? {
        return Some(Wrapped("error deleting image by tag", err.value));
      }
    }
    err := client.Delete(DigestRef(descriptor.value), env.digestDelete);
    if err.Some? {
      if IsNotFound(err.value) {
        err := None;
      } else {
        return Some(Wrapped("error deleting image", err.value));
      }
    }
  }

  // ---- Retries -----------------------------------------------------------------------------------------------

  /** Transport failures do not pose as answers of the registry. */
  predicate HonestError(err: Error) {
    !IsNotFound(err) && !IsUnsupported(err)
  }

  predicate HonestFault(fault: Fault) {
    fault.Lost? ==> HonestError(fault.err)
  }

  predicate Honest(env: AttemptEnv) {
    && (env.getError.Some? ==> HonestError(env.getError.value))
    && HonestFault(env.tagDelete) && HonestFault(env.digestDelete)
  }

  function Retry(policy: Policy, reg: Registry, ref: Reference, envs: seq<AttemptEnv>): Registry {
    if envs == [] then reg
    else RunAttempt(policy, Retry(policy, reg, ref, envs[..|envs| - 1]), ref, envs[|envs| - 1]).registry
  }

  /** The last attempt of a non-empty run of retries reported success. */
  predicate EndsInSuccess(policy: Policy, reg: Registry, ref: Reference, envs: seq<AttemptEnv>)
    requires envs != []
  {
    RunAttempt(policy, Retry(policy, reg, ref, envs[..|envs| - 1]), ref, envs[|envs| - 1]).err.None?
  }

  /** On a registry that untags, the attempt gets its tag delete applied. */
  predicate RemovesTag(env: AttemptEnv) {
    env.getError.None? && (env.tagDelete.Lost? ==> env.tagDelete.applied)
  }

  /** An attempt that removes the tag stops there, on a lost reply, or its digest delete is lost without effect. */
  predicate LeavesManifest(env: AttemptEnv) {
    env.tagDelete.Lost? || (env.digestDelete.Lost? && !env.digestDelete.applied)
  }

  /** The guard of the leak: the registry untags, and the first attempt to remove the tag leaves the manifest. */
  predicate Leaks(policy: Policy, envs: seq<AttemptEnv>) {
    policy.Untags? &&
    exists i :: 0 <= i < |envs| && RemovesTag(envs[i]) && LeavesManifest(envs[i])
                && forall j :: 0 <= j < i ==> !RemovesTag(envs[j])
  }

  /** Where the pair (tag, d) can be: untouched, deleted, or out of reach of the tag. */
  datatype Standing = Tagged | Deleted | Orphaned

  function StandingOf(reg: Registry, tag: Tag, d: Digest): Standing
    requires tag in reg.tags ==> reg.tags[tag] == d
  {
    if d !in reg.manifests then Deleted else if tag in reg.tags then Tagged else Orphaned
  }

  lemma AttemptByTag(policy: Policy, reg: Registry, tag: Tag, d: Digest, env: AttemptEnv)
    requires Honest(env) && (tag in reg.tags ==> reg.tags[tag] == d)
    ensures var run := RunAttempt(policy, reg, TagRef(tag), env);
            && (tag in run.registry.tags ==> tag in reg.tags && run.registry.tags[tag] == d)
            && var before, after := StandingOf(reg, tag, d), StandingOf(run.registry, tag, d);
               && (before != Tagged ==> after == before)
               && (before == Tagged && run.err.None? ==> after != Tagged)
               && (before == Tagged && !policy.Untags? ==> after != Orphaned)
               && (before == Tagged && policy.Untags? ==>
                     after == if !RemovesTag(env) then Tagged else if LeavesManifest(env) then Orphaned else Deleted)
  {}

  /** Along a run the pair is orphaned exactly when the guard of the leak holds. */
  lemma {:induction false} RetryStanding(policy: Policy, reg: Registry, tag: Tag, d: Digest, envs: seq<AttemptEnv>)
    requires forall e :: e in envs ==> Honest(e)
    requires (tag in reg.tags ==> reg.tags[tag] == d) && StandingOf(reg, tag, d) != Orphaned
    ensures var after := Retry(policy, reg, TagRef(tag), envs);
            && (tag in after.tags ==> after.tags[tag] == d)
            && (StandingOf(reg, tag, d) == Deleted ==> StandingOf(after, tag, d) == Deleted)
            && (StandingOf(reg, tag, d) == Tagged ==>
                  && (StandingOf(after, tag, d) == Orphaned <==> Leaks(policy, envs))
                  && (policy.Untags? ==>
                        (StandingOf(after, tag, d) == Tagged <==> forall e :: e in envs ==> !RemovesTag(e))))
  {
    if envs != [] {
      var n := |envs| - 1;
      RetryStanding(policy, reg, tag, d, envs[..n]);
      AttemptByTag(policy, Retry(policy, reg, TagRef(tag), envs[..n]), tag, d, envs[n]);
      LeaksSnoc(policy, envs);
    }
  }

  lemma LeaksSnoc(policy: Policy, envs: seq<AttemptEnv>)
    requires envs != []
    ensures var n := |envs| - 1;
            var untouched := forall e :: e in envs[..n] ==> !RemovesTag(e);
            && (Leaks(policy, envs) <==>
                  || Leaks(policy, envs[..n])
                  || (policy.Untags? && untouched && RemovesTag(envs[n]) && LeavesManifest(envs[n])))
            && ((forall e :: e in envs ==> !RemovesTag(e)) <==> untouched && !RemovesTag(envs[n]))
  {
    var n := |envs| - 1;
    assert envs[n] in envs;
    assert forall e :: e in envs <==> e in envs[..n] || e == envs[n];
    if Leaks(policy, envs[..n]) {
      var i :| 0 <= i < n && RemovesTag(envs[..n][i]) && LeavesManifest(envs[..n][i])
               && forall j :: 0 <= j < i ==> !RemovesTag(envs[..n][j]);
      assert envs[..n][i] == envs[i] && forall j :: 0 <= j < i ==> envs[j] == envs[..n][j];
    }
    if policy.Untags? && (forall e :: e in envs[..n] ==> !RemovesTag(e)) && RemovesTag(envs[n]) {
      assert forall j :: 0 <= j < n ==> envs[j] == envs[..n][j];
    }
    if Leaks(policy, envs) {
      var i :| 0 <= i < |envs| && RemovesTag(envs[i]) && LeavesManifest(envs[i])
               && forall j :: 0 <= j < i ==> !RemovesTag(envs[j]);
      if i < n {
        assert envs[..n][i] == envs[i] && forall j :: 0 <= j < i ==> envs[..n][j] == envs[j];
      }
    }
  }

  /**
   * Deleting a tag under retries: when the last attempt succeeds, the manifest is still there exactly when the
   * registry untags on a delete by tag and the first attempt that removed the tag lost the answer to that delete,
   * or lost the digest delete before it took effect. The condition reads the policy and the faults only.
   */
  lemma RetriesByTag(policy: Policy, reg: Registry, tag: Tag, d: Digest, envs: seq<AttemptEnv>)
    requires envs != [] && forall e :: e in envs ==> Honest(e)
    requires (tag in reg.tags ==> reg.tags[tag] == d) && StandingOf(reg, tag, d) != Orphaned
    requires EndsInSuccess(policy, reg, TagRef(tag), envs)
    ensures d in Retry(policy, reg, TagRef(tag), envs).manifests <==> d in reg.manifests && Leaks(policy, envs)
  {
    var n := |envs| - 1;
    RetryStanding(policy, reg, tag, d, envs);
    RetryStanding(policy, reg, tag, d, envs[..n]);
    AttemptByTag(policy, Retry(policy, reg, TagRef(tag), envs[..n]), tag, d, envs[n]);
  }

  /** The leak, step by step: the tag goes, the digest delete is lost, and the retry finds nothing to do. */
  lemma LeakExample(tag: Tag, d: Digest)
    ensures var reg := Registry(map[tag := d], {d});
            var envs := [AttemptEnv(None, Clean, Lost(false, Transport(500, []))), AttemptEnv(None, Clean, Clean)];
            && EndsInSuccess(Untags, reg, TagRef(tag), envs)
            && d in Retry(Untags, reg, TagRef(tag), envs).manifests
  {
    var reg := Registry(map[tag := d], {d});
    var e0, e1 := AttemptEnv(None, Clean, Lost(false, Transport(500, []))), AttemptEnv(None, Clean, Clean);
    var envs := [e0, e1];
    assert envs[..1] == [e0] && envs[..1][..0] == [];
    assert Retry(Untags, reg, TagRef(tag), envs[..1]) == RunAttempt(Untags, reg, TagRef(tag), e0).registry;
  }

  /** Hence an orphaned manifest stays: each further attempt that reaches the registry succeeds and sends nothing. */
  lemma OrphanedIsFinal(policy: Policy, reg: Registry, tag: Tag, d: Digest, env: AttemptEnv)
    requires Honest(env) && tag !in reg.tags && d in reg.manifests
    ensures RunAttempt(policy, reg, TagRef(tag), env).registry == reg
    ensures RunAttempt(policy, reg, TagRef(tag), env).sent == []
    ensures RunAttempt(policy, reg, TagRef(tag), env).err.None? <==> env.getError.None?
  {}

  /**
   * Deleting is idempotent: after a successful attempt every later one leaves the registry as it is and sends
   * nothing, and it succeeds too, unless its lookup does not get through.
   */
  lemma SuccessIsFinal(policy: Policy, reg: Registry, ref: Reference, env: AttemptEnv, env': AttemptEnv)
    requires Honest(env) && Honest(env') && RunAttempt(policy, reg, ref, env).err.None?
    ensures var first := RunAttempt(policy, reg, ref, env);
            var again := RunAttempt(policy, first.registry, ref, env');
            && again.registry == first.registry && again.sent == []
            && (again.err.None? <==> env'.getError.None?)
  {}

  /** The same for any number of later attempts. */
  lemma {:induction false} SuccessIsFinalForever(
    policy: Policy, reg: Registry, ref: Reference, env: AttemptEnv, later: seq<AttemptEnv>)
    requires Honest(env) && RunAttempt(policy, reg, ref, env).err.None? && forall e :: e in later ==> Honest(e)
    ensures var first := RunAttempt(policy, reg, ref, env).registry;
            && Retry(policy, first, ref, later) == first
            && (later != [] ==>
                  (EndsInSuccess(policy, first, ref, later) <==> later[|later| - 1].getError.None?))
  {
    if later != [] {
      SuccessIsFinalForever(policy, reg, ref, env, later[..|later| - 1]);
      SuccessIsFinal(policy, reg, ref, env, later[|later| - 1]);
    }
  }

  /** Deleting by digest under retries: success always means that the manifest is gone. */
  lemma RetriesByDigest(policy: Policy, reg: Registry, d: Digest, envs: seq<AttemptEnv>)
    requires envs != [] && forall e :: e in envs ==> Honest(e)
    requires EndsInSuccess(policy, reg, DigestRef(d), envs)
    ensures d !in Retry(policy, reg, DigestRef(d), envs).manifests
  {
    assert envs[|envs| - 1] in envs;
  }

  lemma DeliverFrame(policy: Policy, reg: Registry, tag: Tag, d: Digest, ref: Reference, fault: Fault)
    requires (tag in reg.tags ==> reg.tags[tag] == d) && ref in {TagRef(tag), DigestRef(d)}
    ensures var after := DeliverDelete(policy, reg, ref, fault).0;
            && (after.manifests == reg.manifests || after.manifests == reg.manifests - {d})
            && (after.tags == reg.tags || (ref.TagRef? && after.tags == reg.tags - {tag}))
  {}

  lemma AttemptFrame(policy: Policy, reg: Registry, tag: Tag, d: Digest, env: AttemptEnv)
    requires tag in reg.tags ==> reg.tags[tag] == d
    ensures var after := RunAttempt(policy, reg, TagRef(tag), env).registry;
            && (after.manifests == reg.manifests || after.manifests == reg.manifests - {d})
            && (after.tags == reg.tags || after.tags == reg.tags - {tag})
  {
    DeliverFrame(policy, reg, tag, d, TagRef(tag), env.tagDelete);
    var reg1 := DeliverDelete(policy, reg, TagRef(tag), env.tagDelete).0;
    DeliverFrame(policy, reg1, tag, d, DigestRef(d), env.digestDelete);
  }

  /** Retries touch nothing but the tag and the manifest it names. */
  lemma {:induction false} RetriesFrame(policy: Policy, reg: Registry, tag: Tag, d: Digest, envs: seq<AttemptEnv>)
    requires tag in reg.tags ==> reg.tags[tag] == d
    ensures var after := Retry(policy, reg, TagRef(tag), envs);
            && (after.manifests == reg.manifests || after.manifests == reg.manifests - {d})
            && (after.tags == reg.tags || after.tags == reg.tags - {tag})
  {
    if envs != [] {
      RetriesFrame(policy, reg, tag, d, envs[..|envs| - 1]);
      AttemptFrame(policy, Retry(policy, reg, TagRef(tag), envs[..|envs| - 1]), tag, d, envs[|envs| - 1]);
    }
  }
}
