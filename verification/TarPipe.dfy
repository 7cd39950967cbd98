/**
 * GenerateTarWithWriter (src/registry-buddy/archive/archive.go:58-113) as an interleaving step machine.
 *
 * Three threads share a synchronous pipe and an unbuffered error channel: the producer goroutine (generator, tar
 * writer close, pipe close, report), a reader, and a caller of Close. Every atomic action is a `Step`; a run is
 * any sequence of enabled steps. The pipe follows Go's io.Pipe: a write is handed over piece by piece to reads,
 * and both ends first look whether the pipe is done and then wait for the other side or for it to become done.
 */
module TarPipe {
  import opened Common

  type Bytes = seq<bv8>

  datatype Error = Eof | ClosedPipe | AlreadyClosed | Other(message: string) | Wrapped(cause: Error, context: Error)

  type GoError = Option<Error>

  /** Lines 103-113: `errors.Wrap(addition, base.Error())` when both are errors. */
  function AggregateError(base: GoError, addition: GoError): GoError {
    match (base, addition)
    case (_, None) => base
    case (None, Some(_)) => addition
    case (Some(b), Some(a)) => Some(Wrapped(a, b))
  }

  // ---- The producer's code, as strategies --------------------------------------------------------------------

  /** What a pipe write returned: how many bytes went through, and an error. */
  datatype WriteResult = WriteResult(count: nat, err: GoError)

  datatype Action = Write(bytes: Bytes) | Return(err: GoError) | Panic(message: string)

  datatype CloseAction = CloseWrite(bytes: Bytes) | CloseReturn(err: GoError)

  /**
   * `generate` is the generator together with the tar writer it drives: its next pipe write, return or panic,
   * from the results of its writes so far. `closeTar` is the tar writer's Close, which may write a trailer.
   */
  datatype Program = Program(
    generate: seq<WriteResult> -> Action,
    closeTar: (seq<WriteResult>, seq<WriteResult>) -> CloseAction)

  // ---- State -------------------------------------------------------------------------------------------------

  datatype Phase =
    | Generating
    | ClosingTar(genErr: GoError)
    | ClosingPipe(genErr: GoError, tarErr: GoError)
    | Reporting(genErr: GoError, tarErr: GoError)
    | Finished(genErr: GoError, tarErr: GoError)
    | PanicClosingTar(message: string)
    | PanicClosingPipe(message: string)
    | Panicked(message: string)

  /** A pipe write that is waiting for readers: what is left of it and how much has gone through. */
  datatype InFlight = InFlight(rest: Bytes, sent: nat)

  datatype ReadResult = Data(bytes: Bytes) | End(err: Error)

  /** `Reading(k)`: a Read into a buffer of k bytes that found the pipe open. */
  datatype Reader = ReaderIdle | Reading(k: nat)

  datatype Closer = CloserIdle | Waiting

  datatype State = State(
    phase: Phase, genHist: seq<WriteResult>, closeHist: seq<WriteResult>, inflight: Option<InFlight>,
    readerClosed: bool, writerErr: Option<Error>,
    reader: Reader, results: seq<ReadResult>,
    closer: Closer, closed: bool, closeResults: seq<GoError>,
    requested: Bytes, received: Bytes)

  const INIT := State(Generating, [], [], None, false, None, ReaderIdle, [], CloserIdle, false, [], [], [])

  predicate Done(s: State) {
    s.readerClosed || s.writerErr.Some?
  }

  function ReadCloseError(s: State): Error {
    if !s.readerClosed && s.writerErr.Some? then s.writerErr.value else ClosedPipe
  }

  // ---- Steps -------------------------------------------------------------------------------------------------

  datatype Step =
    | Generate | CloseTar | ClosePipe | WriteFails
    | ReadStart(k: nat) | Transfer | ReadEnds
    | CloseCall | CloseReceive

  /** The write in progress, or the one just refused, ends with `result`. */
  function EndWrite(s: State, result: WriteResult): State {
    if s.phase.Generating? then s.(inflight := None, genHist := s.genHist + [result])
    else s.(inflight := None, closeHist := s.closeHist + [result])
  }

  function BeginWrite(s: State, bytes: Bytes): State {
    var s1 := s.(requested := s.requested + bytes);
    if Done(s) then EndWrite(s1, WriteResult(0, Some(ClosedPipe))) else s1.(inflight := Some(InFlight(bytes, 0)))
  }

  function Generated(p: Program, s: State): State {
    match p.generate(s.genHist)
    case Write(bytes) => BeginWrite(s, bytes)
    case Return(err) => s.(phase := ClosingTar(err))
    case Panic(message) => s.(phase := PanicClosingTar(message))
  }

  function TarClosed(p: Program, s: State): State {
    match p.closeTar(s.genHist, s.closeHist)
    case CloseWrite(bytes) => BeginWrite(s, bytes)
    case CloseReturn(err) =>
      s.(phase := match s.phase
                  case ClosingTar(genErr) => ClosingPipe(genErr, err)
                  case PanicClosingTar(message) => PanicClosingPipe(message)
                  case _ => s.phase)
  }

  /** pw.CloseWithError: a nil error is recorded as EOF. */
  function PipeClosed(s: State): State {
    match s.phase
    case ClosingPipe(genErr, tarErr) =>
      s.(writerErr := Some(if genErr.Some? then genErr.value else Eof), phase := Reporting(genErr, tarErr))
    case PanicClosingPipe(message) => s.(writerErr := Some(Other("panic: " + message)), phase := Panicked(message))
    case _ => s
  }

  /** A waiting write meets a waiting read. */
  function Transferred(s: State): State
    requires s.inflight.Some? && s.reader.Reading?
  {
    var w := s.inflight.value;
    var n := if s.reader.k < |w.rest| then s.reader.k else |w.rest|;
    var s1 := s.(received := s.received + w.rest[..n], results := s.results + [Data(w.rest[..n])],
                 reader := ReaderIdle, inflight := Some(InFlight(w.rest[n..], w.sent + n)));
    if n == |w.rest| then EndWrite(s1, WriteResult(w.sent + n, None)) else s1
  }

  function ReadEnded(s: State): State {
    s.(results := s.results + [End(ReadCloseError(s))], reader := ReaderIdle)
  }

  predicate Enabled(s: State, step: Step) {
    match step
    case Generate => s.phase.Generating? && s.inflight.None?
    case CloseTar => (s.phase.ClosingTar? || s.phase.PanicClosingTar?) && s.inflight.None?
    case ClosePipe => s.phase.ClosingPipe? || s.phase.PanicClosingPipe?
    case WriteFails => s.inflight.Some? && Done(s)
    case ReadStart(_) => s.reader.ReaderIdle?
    case Transfer => s.inflight.Some? && s.reader.Reading?
    case ReadEnds => s.reader.Reading? && Done(s)
    case CloseCall => s.closer.CloserIdle?
    case CloseReceive => s.closer.Waiting? && s.phase.Reporting?
  }

  function Next(p: Program, s: State, step: Step): State
    requires Enabled(s, step)
  {
    match step
    case Generate => Generated(p, s)
    case CloseTar => TarClosed(p, s)
    case ClosePipe => PipeClosed(s)
    case WriteFails => EndWrite(s, WriteResult(s.inflight.value.sent, Some(ClosedPipe)))
    case ReadStart(k) => if Done(s) then ReadEnded(s) else s.(reader := Reading(k))
    case Transfer => Transferred(s)
    case ReadEnds => ReadEnded(s)
    case CloseCall =>
      if s.closed then s.(closeResults := s.closeResults + [Some(AlreadyClosed)])
      else s.(readerClosed := true, closer := Waiting)
    case CloseReceive =>
      // pr.Close and pw.CloseWithError themselves always return nil
      var closeErr := AggregateError(s.phase.tarErr, None);
      s.(closeResults := s.closeResults + [AggregateError(None, closeErr)], closed := true, closer := CloserIdle,
         phase := Finished(s.phase.genErr, s.phase.tarErr))
  }

  ghost predicate ValidRun(p: Program, s: State, steps: seq<Step>)
    decreases steps
  {
    steps != [] ==> Enabled(s, steps[0]) && ValidRun(p, Next(p, s, steps[0]), steps[1..])
  }

  ghost function RunFrom(p: Program, s: State, steps: seq<Step>): State
    requires ValidRun(p, s, steps)
    decreases steps
  {
    if steps == [] then s else RunFrom(p, Next(p, s, steps[0]), steps[1..])
  }

  // ---- The invariant -----------------------------------------------------------------------------------------

  function Received(results: seq<ReadResult>): Bytes {
    if results == [] then [] else
    Received(results[..|results| - 1])
    + match results[|results| - 1] case Data(bytes) => bytes case End(_) => []
  }

  ghost predicate AllWrote(hist: seq<WriteResult>) {
    forall r :: r in hist ==> r.err.None?
  }

  /** The bytes: what was received is a prefix of what was written, and all of it while nobody gave up. */
  ghost predicate BytesInv(s: State) {
    && s.received == Received(s.results)
    && s.received <= s.requested
    && (s.inflight.Some? ==> s.received + s.inflight.value.rest == s.requested)
    && (!s.readerClosed ==> AllWrote(s.genHist) && AllWrote(s.closeHist))
    && (!s.readerClosed && s.inflight.None? ==> s.received == s.requested)
  }

  /**
   * The reads: one ends only when the pipe is done, and with the writer's error only after all bytes. The pipe's
   * own error is io.ErrClosedPipe, so that one is known to be the writer's only while the reader is open.
   */
  ghost predicate ReadsInv(s: State) {
    && (forall e :: End(e) in s.results && (e != ClosedPipe || !s.readerClosed) ==>
          s.writerErr == Some(e) && s.received == s.requested)
    && (forall e :: End(e) in s.results ==> Done(s))
  }

  /** The producer: where it is, what it closed the pipe with, and that its strategies really returned. */
  ghost predicate ProducerInv(p: Program, s: State) {
    && (s.inflight.Some? ==> s.phase.Generating? || s.phase.ClosingTar? || s.phase.PanicClosingTar?)
    && (s.phase.Generating? ==> s.closeHist == [])
    && match s.phase
       case Generating => s.writerErr.None?
       case ClosingTar(g) => s.writerErr.None? && p.generate(s.genHist) == Return(g)
       case ClosingPipe(g, t) =>
         && s.writerErr.None? && p.generate(s.genHist) == Return(g)
         && p.closeTar(s.genHist, s.closeHist) == CloseReturn(t)
       case Reporting(g, t) =>
         && s.writerErr == Some(if g.Some? then g.value else Eof) && p.generate(s.genHist) == Return(g)
         && p.closeTar(s.genHist, s.closeHist) == CloseReturn(t)
       case Finished(g, t) =>
         && s.writerErr == Some(if g.Some? then g.value else Eof) && p.generate(s.genHist) == Return(g)
         && p.closeTar(s.genHist, s.closeHist) == CloseReturn(t)
       case PanicClosingTar(m) => s.writerErr.None? && p.generate(s.genHist) == Panic(m)
       case PanicClosingPipe(m) =>
         && s.writerErr.None? && p.generate(s.genHist) == Panic(m)
         && p.closeTar(s.genHist, s.closeHist).CloseReturn?
       case Panicked(m) =>
         && s.writerErr == Some(Other("panic: " + m)) && p.generate(s.genHist) == Panic(m)
         && p.closeTar(s.genHist, s.closeHist).CloseReturn?
  }

  /** Close: it has returned once exactly when the producer has finished. */
  ghost predicate CloseInv(s: State) {
    && (s.closer.Waiting? ==> s.readerClosed && !s.closed)
    && (s.closed ==> s.readerClosed)
    && (s.closed <==> s.phase.Finished?)
    && (s.closed <==> s.closeResults != [])
    && (s.closed ==> s.closeResults[0] == s.phase.tarErr)
    && (forall i :: 1 <= i < |s.closeResults| ==> s.closeResults[i] == Some(AlreadyClosed))
    && (s.readerClosed ==> s.closed || s.closer.Waiting?)
  }

  ghost predicate Inv(p: Program, s: State) {
    BytesInv(s) && ReadsInv(s) && ProducerInv(p, s) && CloseInv(s)
  }

  lemma ReceivedSnoc(results: seq<ReadResult>, r: ReadResult)
    ensures Received(results + [r]) == Received(results) + match r case Data(bytes) => bytes case End(_) => []
  {
    assert (results + [r])[..|results|] == results;
  }

  lemma SplitPending(requested: Bytes, received: Bytes, rest: Bytes, n: nat)
    requires n <= |rest| && received + rest == requested
    ensures received + rest[..n] <= requested
    ensures received + rest[..n] + rest[n..] == requested
    ensures n == |rest| ==> received + rest[..n] == requested
  {
    assert rest == rest[..n] + rest[n..];
    assert received + rest[..n] + rest[n..] == received + rest;
  }

  lemma TransferFields(s: State)
    requires s.inflight.Some? && s.reader.Reading?
    ensures var s', rest := Transferred(s), s.inflight.value.rest;
            var n := if s.reader.k < |rest| then s.reader.k else |rest|;
            && s'.received == s.received + rest[..n] && s'.results == s.results + [Data(rest[..n])]
            && s'.requested == s.requested && s'.readerClosed == s.readerClosed
            && (n < |rest| ==> s'.inflight.Some? && s'.inflight.value.rest == rest[n..])
            && (n == |rest| ==> s'.inflight.None?)
            && (AllWrote(s.genHist) ==> AllWrote(s'.genHist)) && (AllWrote(s.closeHist) ==> AllWrote(s'.closeHist))
  {}

  lemma TransferBytes(s: State)
    requires BytesInv(s) && s.inflight.Some? && s.reader.Reading?
    ensures BytesInv(Transferred(s))
  {
    var rest := s.inflight.value.rest;
    var n := if s.reader.k < |rest| then s.reader.k else |rest|;
    ReceivedSnoc(s.results, Data(rest[..n]));
    SplitPending(s.requested, s.received, rest, n);
    TransferFields(s);
  }

  lemma BytesStep(p: Program, s: State, step: Step)
    requires Inv(p, s) && Enabled(s, step)
    ensures BytesInv(Next(p, s, step))
  {
    if step.Transfer? {
      TransferBytes(s);
    } else if step.ReadEnds? || step.ReadStart? {
      ReceivedSnoc(s.results, End(ReadCloseError(s)));
    }
  }

  lemma ReadsStep(p: Program, s: State, step: Step)
    requires Inv(p, s) && Enabled(s, step)
    ensures ReadsInv(Next(p, s, step))
  {}

  lemma ProducerStep(p: Program, s: State, step: Step)
    requires Inv(p, s) && Enabled(s, step)
    ensures ProducerInv(p, Next(p, s, step))
  {}

  lemma CloseStep(p: Program, s: State, step: Step)
    requires Inv(p, s) && Enabled(s, step)
    ensures CloseInv(Next(p, s, step))
  {}

  lemma NextKeepsInv(p: Program, s: State, step: Step)
    requires Inv(p, s) && Enabled(s, step)
    ensures Inv(p, Next(p, s, step))
  {
    BytesStep(p, s, step);
    ReadsStep(p, s, step);
    ProducerStep(p, s, step);
    CloseStep(p, s, step);
  }

  lemma {:induction false} RunKeepsInv(p: Program, s: State, steps: seq<Step>)
    requires Inv(p, s) && ValidRun(p, s, steps)
    ensures Inv(p, RunFrom(p, s, steps))
    decreases steps
  {
    if steps != [] {
      NextKeepsInv(p, s, steps[0]);
      RunKeepsInv(p, Next(p, s, steps[0]), steps[1..]);
    }
  }

  ghost predicate Reachable(p: Program, s: State) {
    exists steps :: ValidRun(p, INIT, steps) && RunFrom(p, INIT, steps) == s
  }

  lemma ReachableInv(p: Program, s: State)
    requires Reachable(p, s)
    ensures Inv(p, s)
  {
    var steps :| ValidRun(p, INIT, steps) && RunFrom(p, INIT, steps) == s;
    RunKeepsInv(p, INIT, steps);
  }

  lemma InitReachable(p: Program)
    ensures Reachable(p, INIT)
  {
    assert ValidRun(p, INIT, []) && RunFrom(p, INIT, []) == INIT;
  }

  lemma {:induction false} RunSnoc(p: Program, s: State, steps: seq<Step>, step: Step)
    requires ValidRun(p, s, steps) && Enabled(RunFrom(p, s, steps), step)
    ensures ValidRun(p, s, steps + [step])
    ensures RunFrom(p, s, steps + [step]) == Next(p, RunFrom(p, s, steps), step)
    decreases steps
  {
    if steps == [] {
      assert [step][1..] == [];
    } else {
      RunSnoc(p, Next(p, s, steps[0]), steps[1..], step);
      assert (steps + [step])[1..] == steps[1..] + [step];
    }
  }

  lemma RunPrepend(p: Program, s: State, step: Step, more: seq<Step>)
    requires Enabled(s, step) && ValidRun(p, Next(p, s, step), more)
    ensures ValidRun(p, s, [step] + more)
    ensures RunFrom(p, s, [step] + more) == RunFrom(p, Next(p, s, step), more)
    ensures [step] + [] == [step]
  {
    assert ([step] + more)[1..] == more;
  }

  lemma ReachableNext(p: Program, s: State, step: Step)
    requires Reachable(p, s) && Enabled(s, step)
    ensures Reachable(p, Next(p, s, step))
  {
    var steps :| ValidRun(p, INIT, steps) && RunFrom(p, INIT, steps) == s;
    RunSnoc(p, INIT, steps, step);
  }

  // ---- What the producer is told -----------------------------------------------------------------------------

  /** The answer to a write of `bytes`: all of them, or how many went through before the pipe was closed. */
  predicate Answers(r: WriteResult, bytes: Bytes) {
    if r.err.None? then r.count == |bytes| else r.err == Some(ClosedPipe) && r.count <= |bytes|
  }

  function Counted(hist: seq<WriteResult>): nat {
    if hist == [] then 0 else Counted(hist[..|hist| - 1]) + hist[|hist| - 1].count
  }

  function Sent(s: State): nat {
    Counted(s.genHist) + Counted(s.closeHist) + if s.inflight.Some? then s.inflight.value.sent else 0
  }

  ghost predicate GeneratorAnswered(p: Program, g: seq<WriteResult>) {
    forall i :: 0 <= i < |g| ==> p.generate(g[..i]).Write? && Answers(g[i], p.generate(g[..i]).bytes)
  }

  ghost predicate TarWriterAnswered(p: Program, g: seq<WriteResult>, c: seq<WriteResult>) {
    forall i :: 0 <= i < |c| ==> p.closeTar(g, c[..i]).CloseWrite? && Answers(c[i], p.closeTar(g, c[..i]).bytes)
  }

  /** Each history answers the writes its strategy asked for, and the counts add up to what was received. */
  ghost predicate AnswersInv(p: Program, s: State) {
    && GeneratorAnswered(p, s.genHist)
    && TarWriterAnswered(p, s.genHist, s.closeHist)
    && (s.inflight.Some? ==> exists bytes :: Pending(p, s, bytes))
    && Sent(s) == |s.received|
  }

  /** The write in progress is the one of `bytes` that its strategy asked for. */
  ghost predicate Pending(p: Program, s: State, bytes: Bytes) {
    && s.inflight.Some?
    && s.inflight.value.sent + |s.inflight.value.rest| == |bytes|
    && if s.phase.Generating? then p.generate(s.genHist) == Write(bytes)
       else p.closeTar(s.genHist, s.closeHist) == CloseWrite(bytes)
  }

  lemma CountedSnoc(hist: seq<WriteResult>, r: WriteResult)
    ensures Counted(hist + [r]) == Counted(hist) + r.count
  {
    assert (hist + [r])[..|hist|] == hist;
  }

  lemma GeneratorAnsweredSnoc(p: Program, g: seq<WriteResult>, r: WriteResult)
    requires GeneratorAnswered(p, g) && p.generate(g).Write? && Answers(r, p.generate(g).bytes)
    ensures GeneratorAnswered(p, g + [r])
  {
    forall i | 0 <= i < |g| + 1 ensures (g + [r])[..i] == g[..i] && (i == |g| ==> g[..i] == g) {}
  }

  lemma TarWriterAnsweredSnoc(p: Program, g: seq<WriteResult>, c: seq<WriteResult>, r: WriteResult)
    requires TarWriterAnswered(p, g, c) && p.closeTar(g, c).CloseWrite? && Answers(r, p.closeTar(g, c).bytes)
    ensures TarWriterAnswered(p, g, c + [r])
  {
    forall i | 0 <= i < |c| + 1 ensures (c + [r])[..i] == c[..i] && (i == |c| ==> c[..i] == c) {}
  }

  /** A write that ends with a proper answer, the bytes it counts having been received. */
  lemma EndWriteAnswers(p: Program, s: State, s0: State, bytes: Bytes, r: WriteResult)
    requires AnswersInv(p, s) && Answers(r, bytes)
    requires s.phase.Generating? ==> s.closeHist == [] && p.generate(s.genHist) == Write(bytes)
    requires !s.phase.Generating? ==> p.closeTar(s.genHist, s.closeHist) == CloseWrite(bytes)
    requires s0.phase == s.phase && s0.genHist == s.genHist && s0.closeHist == s.closeHist
    requires |s0.received| == Counted(s.genHist) + Counted(s.closeHist) + r.count
    ensures AnswersInv(p, EndWrite(s0, r))
  {
    if s.phase.Generating? {
      CountedSnoc(s.genHist, r);
      GeneratorAnsweredSnoc(p, s.genHist, r);
    } else {
      CountedSnoc(s.closeHist, r);
      TarWriterAnsweredSnoc(p, s.genHist, s.closeHist, r);
    }
  }

  lemma TransferAnswers(p: Program, s: State)
    requires Inv(p, s) && AnswersInv(p, s) && s.inflight.Some? && s.reader.Reading?
    ensures AnswersInv(p, Transferred(s))
  {
    var w := s.inflight.value;
    var bytes :| Pending(p, s, bytes);
    if s.reader.k < |w.rest| {
      assert Pending(p, Transferred(s), bytes);
    } else {
      var s0 := s.(received := s.received + w.rest[..|w.rest|], results := s.results + [Data(w.rest[..|w.rest|])],
                   reader := ReaderIdle, inflight := Some(InFlight(w.rest[|w.rest|..], w.sent + |w.rest|)));
      EndWriteAnswers(p, s, s0, bytes, WriteResult(w.sent + |w.rest|, None));
    }
  }

  lemma BeginAnswers(p: Program, s: State, bytes: Bytes)
    requires Inv(p, s) && AnswersInv(p, s) && s.inflight.None?
    requires s.phase.Generating? ==> p.generate(s.genHist) == Write(bytes)
    requires !s.phase.Generating? ==> p.closeTar(s.genHist, s.closeHist) == CloseWrite(bytes)
    ensures AnswersInv(p, BeginWrite(s, bytes))
  {
    if Done(s) {
      EndWriteAnswers(p, s, s.(requested := s.requested + bytes), bytes, WriteResult(0, Some(ClosedPipe)));
    } else {
      assert Pending(p, BeginWrite(s, bytes), bytes);
    }
  }

  lemma AnswersStep(p: Program, s: State, step: Step)
    requires Inv(p, s) && AnswersInv(p, s) && Enabled(s, step)
    ensures AnswersInv(p, Next(p, s, step))
  {
    var s' := Next(p, s, step);
    if step.Generate? && p.generate(s.genHist).Write? {
      BeginAnswers(p, s, p.generate(s.genHist).bytes);
    } else if step.CloseTar? && p.closeTar(s.genHist, s.closeHist).CloseWrite? {
      BeginAnswers(p, s, p.closeTar(s.genHist, s.closeHist).bytes);
    } else if step.Transfer? {
      TransferAnswers(p, s);
    } else if step.WriteFails? {
      var bytes :| Pending(p, s, bytes);
      EndWriteAnswers(p, s, s, bytes, WriteResult(s.inflight.value.sent, Some(ClosedPipe)));
    } else if s.inflight.Some? {
      var bytes :| Pending(p, s, bytes);
      assert Pending(p, s', bytes);
    }
  }

  lemma {:induction false} RunAnswers(p: Program, s: State, steps: seq<Step>)
    requires Inv(p, s) && AnswersInv(p, s) && ValidRun(p, s, steps)
    ensures AnswersInv(p, RunFrom(p, s, steps))
    decreases steps
  {
    if steps != [] {
      AnswersStep(p, s, steps[0]);
      NextKeepsInv(p, s, steps[0]);
      RunAnswers(p, Next(p, s, steps[0]), steps[1..]);
    }
  }

  /**
   * Producers are told the truth: a write without error went through in full, a failed one counts what of it went
   * through, and the counts of all writes, with the one in progress, add up to the bytes the reads have received.
   */
  lemma WritesAreCounted(p: Program, s: State)
    requires Reachable(p, s)
    ensures forall i :: 0 <= i < |s.genHist| ==>
              var asked, r := p.generate(s.genHist[..i]), s.genHist[i];
              && asked.Write?
              && if r.err.None? then r.count == |asked.bytes| else r.err == Some(ClosedPipe) && r.count <= |asked.bytes|
    ensures Counted(s.genHist) + Counted(s.closeHist) + (if s.inflight.Some? then s.inflight.value.sent else 0)
         == |Received(s.results)|
  {
    var steps :| ValidRun(p, INIT, steps) && RunFrom(p, INIT, steps) == s;
    RunAnswers(p, INIT, steps);
    ReachableInv(p, s);
  }

  // ---- Safety of the pipe ------------------------------------------------------------------------------------

  /**
   * A read that ends with e, not because the reader was closed: every byte the producer wrote has been read, in
   * order, and e is EOF exactly when the generator returned nil or returned io.EOF itself. While the reader is open
   * this holds for every e, io.ErrClosedPipe included. The tar writer's Close has returned by then, also in a panic.
   */
  lemma CleanEnd(p: Program, s: State, e: Error)
    requires Reachable(p, s) && End(e) in s.results && (e != ClosedPipe || !s.readerClosed)
    ensures Received(s.results) == s.requested
    ensures forall m :: p.generate(s.genHist) == Panic(m) ==> e == Other("panic: " + m)
    ensures forall g :: p.generate(s.genHist) == Return(g) ==> e == if g.Some? then g.value else Eof
    ensures p.closeTar(s.genHist, s.closeHist).CloseReturn?
    ensures e == Eof <==> p.generate(s.genHist) == Return(None) || p.generate(s.genHist) == Return(Some(Eof))
  {
    ReachableInv(p, s);
  }

  /** Until Close is called every write succeeds in full, so a generator never sees an error before that. */
  lemma WritesSucceedWhileOpen(p: Program, s: State)
    requires Reachable(p, s) && !s.readerClosed
    ensures AllWrote(s.genHist) && AllWrote(s.closeHist)
  {
    ReachableInv(p, s);
  }

  /** Once the pipe is closed by the producer and not by Close, every read gives the generator's error, or EOF. */
  lemma ErrorReachesReader(p: Program, s: State, step: Step)
    requires Reachable(p, s) && !s.readerClosed && (s.phase.Reporting? || s.phase.Panicked?)
    requires (step.ReadStart? || step.ReadEnds?) && Enabled(s, step)
    ensures var e := match p.generate(s.genHist)
                     case Return(g) => if g.Some? then g.value else Eof
                     case Panic(m) => Other("panic: " + m)
                     case Write(_) => ClosedPipe;
            !p.generate(s.genHist).Write? && Next(p, s, step).results == s.results + [End(e)]
  {
    ReachableInv(p, s);
  }

  /** The first Close returns what closing the tar writer returned, and nothing of the generator's error. */
  lemma CloseReportsTarWriter(p: Program, s: State)
    requires Reachable(p, s) && s.closeResults != []
    ensures p.closeTar(s.genHist, s.closeHist) == CloseReturn(s.closeResults[0])
    ensures p.generate(s.genHist).Return?
    ensures forall i :: 1 <= i < |s.closeResults| ==> s.closeResults[i] == Some(AlreadyClosed)
  {
    ReachableInv(p, s);
  }

  /** A clean EOF and a nil from Close together: a complete archive, closed without error and read in full. */
  lemma CompleteArchive(p: Program, s: State)
    requires Reachable(p, s) && End(Eof) in s.results && s.closeResults != [] && s.closeResults[0].None?
    ensures Received(s.results) == s.requested
    ensures p.closeTar(s.genHist, s.closeHist) == CloseReturn(None)
    ensures p.generate(s.genHist) == Return(None) || p.generate(s.genHist) == Return(Some(Eof))
  {
    ReachableInv(p, s);
  }

  /** A generator that fails with io.EOF is indistinguishable, for the reader, from one that succeeded. */
  lemma EofErrorIsMasked()
    ensures exists p: Program, s ::
              Reachable(p, s) && p.generate(s.genHist) == Return(Some(Eof)) && End(Eof) in s.results
              && s.closeResults == []
  {
    var p := Program((h: seq<WriteResult>) => Return(Some(Eof)),
                     (h: seq<WriteResult>, c: seq<WriteResult>) => CloseReturn(None));
    var s := ThreeStepsAndRead(p, Some(Eof), None);
  }

  /** A tar writer that fails to close leaves a clean EOF behind; only Close tells. */
  lemma TruncationNeedsClose(tarErr: Error)
    ensures exists p: Program, s ::
              Reachable(p, s) && p.generate(s.genHist) == Return(None) && End(Eof) in s.results
              && p.closeTar(s.genHist, s.closeHist) == CloseReturn(Some(tarErr)) && s.closeResults == []
  {
    var p := Program((h: seq<WriteResult>) => Return(None),
                     (h: seq<WriteResult>, c: seq<WriteResult>) => CloseReturn(Some(tarErr)));
    var s := ThreeStepsAndRead(p, None, Some(tarErr));
  }

  lemma ThreeStepsAndRead(p: Program, genErr: GoError, tarErr: GoError) returns (s: State)
    requires p.generate([]) == Return(genErr) && p.closeTar([], []) == CloseReturn(tarErr)
    ensures Reachable(p, s) && s.phase == Reporting(genErr, tarErr) && s.genHist == [] && s.closeHist == []
    ensures End(if genErr.Some? then genErr.value else Eof) in s.results && s.closeResults == []
  {
    InitReachable(p);
    ReachableNext(p, INIT, Generate);
    var s1 := Next(p, INIT, Generate);
    ReachableNext(p, s1, CloseTar);
    var s2 := Next(p, s1, CloseTar);
    ReachableNext(p, s2, ClosePipe);
    var s3 := Next(p, s2, ClosePipe);
    ReachableNext(p, s3, ReadStart(1));
    s := Next(p, s3, ReadStart(1));
  }
}
