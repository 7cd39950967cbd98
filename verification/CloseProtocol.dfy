/**
 * The Close of GenerateTarWithWriter's reader (src/registry-buddy/archive/archive.go:79-100): when it returns,
 * and what holds after it. Close shuts the reader and then waits for the producer goroutine to report.
 */
module CloseProtocol {
  import opened Common
  import opened TarPipe

  // ---- After Close, and after a panic ------------------------------------------------------------------------

  /** From `s` to `end`: nothing written or received, and only closed-pipe reads and "already closed" answers. */
  ghost predicate Quiet(s: State, end: State) {
    && end.closed && end.phase == s.phase
    && end.genHist == s.genHist && end.closeHist == s.closeHist
    && end.requested == s.requested && end.received == s.received
    && s.results <= end.results && s.closeResults <= end.closeResults
    && (forall i :: |s.results| <= i < |end.results| ==> end.results[i] == End(ClosedPipe))
    && (forall i :: |s.closeResults| <= i < |end.closeResults| ==> end.closeResults[i] == Some(AlreadyClosed))
  }

  lemma QuietStep(p: Program, s: State, step: Step)
    requires Inv(p, s) && s.closed && Enabled(s, step)
    ensures Quiet(s, Next(p, s, step))
  {}

  lemma QuietTwice(s: State, mid: State, end: State)
    requires Quiet(s, mid) && Quiet(mid, end)
    ensures Quiet(s, end)
  {}

  /**
   * When Close has returned, generator and tar writer have finished; whatever follows, nothing is written or
   * received, every read finds the pipe closed, and every Close gets the "already closed" error at once.
   */
  lemma {:induction false} AfterClose(p: Program, s: State, steps: seq<Step>)
    requires Inv(p, s) && s.closed && ValidRun(p, s, steps)
    ensures s.phase.Finished? && Quiet(s, RunFrom(p, s, steps))
    ensures var end := RunFrom(p, s, steps);
            Enabled(end, CloseCall) && Next(p, end, CloseCall).closer.CloserIdle?
    decreases steps
  {
    if steps != [] {
      var s1 := Next(p, s, steps[0]);
      NextKeepsInv(p, s, steps[0]);
      QuietStep(p, s, steps[0]);
      AfterClose(p, s1, steps[1..]);
      QuietTwice(s, s1, RunFrom(p, s1, steps[1..]));
    }
  }

  /** After a panic of the generator nobody ever answers a waiting Close, in any continuation. */
  lemma {:induction false} PanicBlocksClose(p: Program, s: State, steps: seq<Step>)
    requires Inv(p, s) && ValidRun(p, s, steps)
    requires s.phase.PanicClosingTar? || s.phase.PanicClosingPipe? || s.phase.Panicked?
    ensures RunFrom(p, s, steps).closeResults == []
    ensures s.closer.Waiting? ==> RunFrom(p, s, steps).closer.Waiting?
    decreases steps
  {
    if steps != [] {
      NextKeepsInv(p, s, steps[0]);
      PanicBlocksClose(p, Next(p, s, steps[0]), steps[1..]);
    }
  }

  // ---- When Close returns ------------------------------------------------------------------------------------

  /** The result of every write that starts after Close has closed the reader. */
  const REFUSED := WriteResult(0, Some(ClosedPipe))

  /** The history `h` after n more writes, all refused. */
  function Refused(h: seq<WriteResult>, n: nat): seq<WriteResult>
    decreases n
  {
    if n == 0 then h else Refused(h + [REFUSED], n - 1)
  }

  /** From history `g` on, with every write refused: n more writes, and then the generator returns. */
  predicate GeneratorReturns(p: Program, g: seq<WriteResult>, n: nat)
    decreases n
  {
    if n == 0 then p.generate(g).Return? else p.generate(g).Write? && GeneratorReturns(p, g + [REFUSED], n - 1)
  }

  /** The same of the tar writer's Close, from its history `c` on. */
  predicate TarWriterReturns(p: Program, g: seq<WriteResult>, c: seq<WriteResult>, m: nat)
    decreases m
  {
    if m == 0 then p.closeTar(g, c).CloseReturn?
    else p.closeTar(g, c).CloseWrite? && TarWriterReturns(p, g, c + [REFUSED], m - 1)
  }

  ghost predicate TarWriterEnds(p: Program, g: seq<WriteResult>, c: seq<WriteResult>, b: int) {
    exists m: nat :: TarWriterReturns(p, g, c, m) && m <= b
  }

  /**
   * The condition, on the two strategies from the given histories on: with every further write refused, what is
   * left to run of generator and tar writer returns. `b` bounds the steps until Close has received the report.
   */
  ghost predicate ProducerReturns(
    p: Program, phase: Phase, g: seq<WriteResult>, c: seq<WriteResult>, b: int)
  {
    match phase
    case Generating => exists n: nat :: GeneratorReturns(p, g, n) && TarWriterEnds(p, Refused(g, n), c, b - n - 4)
    case ClosingTar(_) => TarWriterEnds(p, g, c, b - 3)
    case ClosingPipe(_, _) => 2 <= b
    case Reporting(_, _) => 1 <= b
    case _ => false
  }

  ghost predicate Returns(p: Program, s: State, b: int) {
    ProducerReturns(p, s.phase, s.genHist, s.closeHist, b)
  }

  /** A write in progress when the reader is closed is cut off as it is ... */
  function CutOff(s: State): WriteResult
    requires s.inflight.Some?
  {
    WriteResult(s.inflight.value.sent, Some(ClosedPipe))
  }

  /** ... or after the one read that may be under way, which can also complete it. */
  function CutOffLater(s: State): WriteResult
    requires s.inflight.Some? && s.reader.Reading?
  {
    var w := s.inflight.value;
    if s.reader.k < |w.rest| then WriteResult(w.sent + s.reader.k, Some(ClosedPipe))
    else WriteResult(w.sent + |w.rest|, None)
  }

  function WriteEnds(s: State): set<WriteResult>
    requires s.inflight.Some?
  {
    {CutOff(s)} + if s.reader.Reading? then {CutOffLater(s)} else {}
  }

  function Busy(s: State): nat {
    (if s.inflight.Some? then 1 else 0) + if s.reader.Reading? then 1 else 0
  }

  /** However a write in progress ends, the producer returns; b bounds all steps until Close has its report. */
  ghost predicate FinishesWithin(p: Program, s: State, b: int) {
    if s.inflight.None? then Returns(p, s, b - Busy(s))
    else forall r :: r in WriteEnds(s) ==> Returns(p, EndWrite(s, r), b - Busy(s))
  }

  ghost predicate Finishes(p: Program, s: State) {
    exists b: int :: FinishesWithin(p, s, b)
  }

  lemma GeneratorStep(p: Program, s: State, b: int)
    requires s.readerClosed && Enabled(s, Generate)
    ensures Returns(p, s, b) <==> Returns(p, Generated(p, s), b - 1)
  {
    var s', g, c := Generated(p, s), s.genHist, s.closeHist;
    if Returns(p, s, b) {
      var n: nat :| GeneratorReturns(p, g, n) && TarWriterEnds(p, Refused(g, n), c, b - n - 4);
      assert n > 0 ==> GeneratorReturns(p, g + [REFUSED], n - 1);
    }
    if Returns(p, s', b - 1) {
      if s'.phase.Generating? {
        var n: nat :| GeneratorReturns(p, s'.genHist, n) && TarWriterEnds(p, Refused(s'.genHist, n), c, b - n - 5);
        assert GeneratorReturns(p, g, n + 1) && Refused(g, n + 1) == Refused(g + [REFUSED], n);
      } else {
        assert GeneratorReturns(p, g, 0) && Refused(g, 0) == g;
      }
    }
  }

  lemma CloseTarStep(p: Program, s: State, b: int)
    requires s.readerClosed && Enabled(s, CloseTar)
    ensures Returns(p, s, b) <==> Returns(p, TarClosed(p, s), b - 1)
  {
    var s', g, c := TarClosed(p, s), s.genHist, s.closeHist;
    if Returns(p, s, b) {
      var m: nat :| TarWriterReturns(p, g, c, m) && m <= b - 3;
      assert m > 0 ==> TarWriterReturns(p, g, c + [REFUSED], m - 1);
    }
    if Returns(p, s', b - 1) {
      if s'.phase.ClosingTar? {
        var m: nat :| TarWriterReturns(p, g, s'.closeHist, m) && m <= b - 4;
        assert TarWriterReturns(p, g, c, m + 1);
      } else if s.phase.ClosingTar? {
        assert TarWriterReturns(p, g, c, 0);
      }
    }
  }

  /** A bound may be raised. */
  lemma ReturnsLater(p: Program, s: State, b: int, b': int)
    requires Returns(p, s, b) && b <= b'
    ensures Returns(p, s, b')
  {
    if s.phase.Generating? {
      var n: nat :| GeneratorReturns(p, s.genHist, n)
                    && TarWriterEnds(p, Refused(s.genHist, n), s.closeHist, b - n - 4);
      assert TarWriterEnds(p, Refused(s.genHist, n), s.closeHist, b' - n - 4);
    }
  }

  lemma TransferProgress(p: Program, s: State, b: int)
    requires s.inflight.Some? && s.reader.Reading? && s.readerClosed
    requires FinishesWithin(p, s, b)
    ensures FinishesWithin(p, Transferred(s), b - 1)
  {
    var s', w := Transferred(s), s.inflight.value;
    var r := CutOffLater(s);
    assert r in WriteEnds(s);
    if s.reader.k < |w.rest| {
      assert WriteEnds(s') == {r};
    } else {
      ReturnsLater(p, EndWrite(s, r), b - 2, b - 1);
    }
  }

  lemma ReadProgress(p: Program, s: State, step: Step, b: int)
    requires s.readerClosed && Enabled(s, step) && (step.ReadStart? || step.ReadEnds?)
    requires FinishesWithin(p, s, b)
    ensures FinishesWithin(p, Next(p, s, step), if step.ReadStart? then b else b - 1)
  {
    var s' := Next(p, s, step);
    if s.inflight.Some? {
      forall r | r in WriteEnds(s') ensures Returns(p, EndWrite(s', r), b - Busy(s)) {
        assert r in WriteEnds(s) && Returns(p, EndWrite(s, r), b - Busy(s));
      }
    }
  }

  /** While Close waits, no step but the start of a read is free: each takes one off the bound on what is to come. */
  lemma CloseProgress(p: Program, s: State, step: Step, b: int)
    requires Inv(p, s) && s.closer.Waiting? && Enabled(s, step)
    requires FinishesWithin(p, s, b)
    ensures var s' := Next(p, s, step);
            if step.CloseReceive? then 1 <= b && s'.closed
            else s'.closer.Waiting? && FinishesWithin(p, s', if step.ReadStart? then b else b - 1)
  {
    var s' := Next(p, s, step);
    match step
    case Generate => GeneratorStep(p, s, b - Busy(s));
    case CloseTar => CloseTarStep(p, s, b - Busy(s));
    case WriteFails => assert CutOff(s) in WriteEnds(s);
    case Transfer => TransferProgress(p, s, b);
    case ReadStart(_) => ReadProgress(p, s, step, b);
    case ReadEnds => ReadProgress(p, s, step, b);
    case _ =>
  }

  /** While Close waits, the system is stuck, but for reads that find the pipe closed, exactly after a panic. */
  lemma CloseStuckIff(p: Program, s: State)
    requires Inv(p, s) && s.closer.Waiting?
    ensures s.phase.Panicked? <==> forall step :: Enabled(s, step) ==> step.ReadStart? || step.ReadEnds?
  {
    assert Enabled(s, Generate) || Enabled(s, CloseTar) || Enabled(s, ClosePipe) || Enabled(s, WriteFails)
           || Enabled(s, CloseReceive) || s.phase.Panicked?;
  }

  function Work(steps: seq<Step>): nat {
    if steps == [] then 0 else (if steps[0].ReadStart? then 0 else 1) + Work(steps[1..])
  }

  /** The condition suffices: b steps, not counting reads that start, and Close has returned. */
  lemma {:induction false} CloseReturnsWithin(p: Program, s: State, b: int, steps: seq<Step>)
    requires Inv(p, s) && s.closer.Waiting? && FinishesWithin(p, s, b)
    requires ValidRun(p, s, steps) && Work(steps) >= b
    ensures RunFrom(p, s, steps).closed
    decreases steps
  {
    BoundIsPositive(p, s, b);
    var s1, rest := Next(p, s, steps[0]), steps[1..];
    CloseProgress(p, s, steps[0], b);
    NextKeepsInv(p, s, steps[0]);
    if s1.closed {
      AfterClose(p, s1, rest);
    } else {
      CloseReturnsWithin(p, s1, if steps[0].ReadStart? then b else b - 1, rest);
    }
  }

  lemma BoundIsPositive(p: Program, s: State, b: int)
    requires FinishesWithin(p, s, b)
    ensures 1 <= b
  {
    if s.inflight.Some? {
      assert CutOff(s) in WriteEnds(s);
    }
  }

  /** Close can still return: some continuation has it returned. */
  ghost predicate CanReturn(p: Program, s: State) {
    exists more :: ValidRun(p, s, more) && RunFrom(p, s, more).closed
  }

  lemma NextMove(p: Program, s: State, b: int) returns (step: Step)
    requires Inv(p, s) && s.closer.Waiting? && FinishesWithin(p, s, b)
    ensures Enabled(s, step) && !step.ReadStart? && !step.ReadEnds?
  {
    CloseStuckIff(p, s);
    step :| Enabled(s, step) && !step.ReadStart? && !step.ReadEnds?;
  }

  lemma {:induction false} FinishesCanReturn(p: Program, s: State, b: int)
    requires Inv(p, s) && s.closer.Waiting? && FinishesWithin(p, s, b)
    ensures CanReturn(p, s)
    decreases b
  {
    BoundIsPositive(p, s, b);
    var step := NextMove(p, s, b);
    var s1 := Next(p, s, step);
    CloseProgress(p, s, step, b);
    NextKeepsInv(p, s, step);
    if s1.closed {
      RunPrepend(p, s, step, []);
    } else {
      FinishesCanReturn(p, s1, b - 1);
      var more :| ValidRun(p, s1, more) && RunFrom(p, s1, more).closed;
      RunPrepend(p, s, step, more);
    }
  }

  lemma {:induction false} FinishesAlongRuns(p: Program, s: State, b: int, steps: seq<Step>)
    requires Inv(p, s) && s.closer.Waiting? && FinishesWithin(p, s, b) && ValidRun(p, s, steps)
    ensures CanReturn(p, RunFrom(p, s, steps))
    decreases steps
  {
    if steps == [] {
      FinishesCanReturn(p, s, b);
    } else {
      var s1, rest := Next(p, s, steps[0]), steps[1..];
      CloseProgress(p, s, steps[0], b);
      NextKeepsInv(p, s, steps[0]);
      if s1.closed {
        AfterClose(p, s1, rest);
        var end := RunFrom(p, s1, rest);
        assert ValidRun(p, end, []) && RunFrom(p, end, []).closed;
      } else {
        FinishesAlongRuns(p, s1, if steps[0].ReadStart? then b else b - 1, rest);
      }
    }
  }

  /** Close waits, no write is in progress, and the condition fails. */
  ghost predicate Stranded(p: Program, s: State) {
    Inv(p, s) && s.closer.Waiting? && s.inflight.None? && !Finishes(p, s)
  }

  /** CloseProgress backwards: if what follows a step finishes in time, so does the step and what follows. */
  lemma FinishesBefore(p: Program, s: State, step: Step, b: int)
    requires Inv(p, s) && s.closer.Waiting? && s.inflight.None? && Enabled(s, step) && !step.CloseReceive?
    requires FinishesWithin(p, Next(p, s, step), b)
    ensures FinishesWithin(p, s, if step.ReadStart? then b else b + 1)
  {
    match step
    case Generate => GeneratorStep(p, s, b - Busy(s) + 1);
    case CloseTar => CloseTarStep(p, s, b - Busy(s) + 1);
    case _ =>
  }

  lemma StrandedStep(p: Program, s: State, step: Step)
    requires Stranded(p, s) && Enabled(s, step)
    ensures Stranded(p, Next(p, s, step))
  {
    NextKeepsInv(p, s, step);
    assert !FinishesWithin(p, s, 1 + Busy(s));
    if b :| FinishesWithin(p, Next(p, s, step), b) {
      FinishesBefore(p, s, step, b);
    }
  }

  lemma {:induction false} StrandedForever(p: Program, s: State, steps: seq<Step>)
    requires Stranded(p, s) && ValidRun(p, s, steps)
    ensures Stranded(p, RunFrom(p, s, steps))
    decreases steps
  {
    if steps != [] {
      StrandedStep(p, s, steps[0]);
      StrandedForever(p, Next(p, s, steps[0]), steps[1..]);
    }
  }

  /** It is enough to look at the two ends a write in progress can have. */
  lemma BothEnds(p: Program, s: State, b: int, b': int)
    requires s.inflight.Some? && Returns(p, EndWrite(s, CutOff(s)), b)
    requires s.reader.Reading? ==> Returns(p, EndWrite(s, CutOffLater(s)), b')
    ensures Finishes(p, s)
  {
    var most := if b < b' then b' else b;
    ReturnsLater(p, EndWrite(s, CutOff(s)), b, most);
    if s.reader.Reading? {
      ReturnsLater(p, EndWrite(s, CutOffLater(s)), b', most);
    }
    assert FinishesWithin(p, s, most + Busy(s));
  }

  /** A state where the write has ended as in `r`, after which the producer does not return, is stranded. */
  lemma StrandedAt(p: Program, s: State, r: WriteResult, s': State)
    requires s.inflight.Some? && forall b :: !Returns(p, EndWrite(s, r), b)
    requires Inv(p, s') && s'.closer.Waiting? && s'.inflight.None?
    requires s'.phase == s.phase
    requires s'.genHist == EndWrite(s, r).genHist && s'.closeHist == EndWrite(s, r).closeHist
    ensures Stranded(p, s')
  {
    forall b ensures !FinishesWithin(p, s', b) {
      assert !Returns(p, EndWrite(s, r), b - Busy(s'));
    }
  }

  /** The condition is necessary: if it fails, the write in progress can end so that Close never returns. */
  lemma StrandingRun(p: Program, s: State) returns (steps: seq<Step>)
    requires Inv(p, s) && s.closer.Waiting? && !Finishes(p, s)
    ensures ValidRun(p, s, steps) && Stranded(p, RunFrom(p, s, steps))
  {
    if s.inflight.None? {
      steps := [];
    } else if b :| Returns(p, EndWrite(s, CutOff(s)), b) {
      if !s.reader.Reading? {
        BothEnds(p, s, b, b);
      } else {
        forall b' ensures !Returns(p, EndWrite(s, CutOffLater(s)), b') {
          if Returns(p, EndWrite(s, CutOffLater(s)), b') {
            BothEnds(p, s, b, b');
          }
        }
        steps := StrandingTransfer(p, s);
      }
    } else {
      steps := [WriteFails];
      NextKeepsInv(p, s, WriteFails);
      StrandedAt(p, s, CutOff(s), Next(p, s, WriteFails));
      RunPrepend(p, s, WriteFails, []);
    }
  }

  lemma StrandingTransfer(p: Program, s: State) returns (steps: seq<Step>)
    requires Inv(p, s) && s.closer.Waiting? && s.inflight.Some? && s.reader.Reading?
    requires forall b :: !Returns(p, EndWrite(s, CutOffLater(s)), b)
    ensures ValidRun(p, s, steps) && Stranded(p, RunFrom(p, s, steps))
  {
    var s1 := Next(p, s, Transfer);
    NextKeepsInv(p, s, Transfer);
    if s1.inflight.None? {
      steps := [Transfer];
      StrandedAt(p, s, CutOffLater(s), s1);
      RunPrepend(p, s, Transfer, []);
    } else {
      steps := [Transfer] + [WriteFails];
      var s2 := Next(p, s1, WriteFails);
      NextKeepsInv(p, s1, WriteFails);
      StrandedAt(p, s, CutOffLater(s), s2);
      RunPrepend(p, s1, WriteFails, []);
      RunPrepend(p, s, Transfer, [WriteFails]);
    }
  }

  /**
   * A waiting Close is sure to return exactly when the strategies, with every further write refused, return: then
   * it returns within a bounded number of steps of whatever threads, and its return never gets out of reach;
   * otherwise some run loses it for good. This holds for all strategies, those that panic included.
   */
  lemma CloseReturnsIff(p: Program, s: State)
    requires Inv(p, s) && s.closer.Waiting?
    ensures Finishes(p, s) <==> forall steps :: ValidRun(p, s, steps) ==> CanReturn(p, RunFrom(p, s, steps))
    ensures Finishes(p, s) ==>
              exists b: int :: FinishesWithin(p, s, b)
                && forall steps :: ValidRun(p, s, steps) && Work(steps) >= b ==> RunFrom(p, s, steps).closed
  {
    if Finishes(p, s) {
      var b :| FinishesWithin(p, s, b);
      forall steps | ValidRun(p, s, steps) ensures CanReturn(p, RunFrom(p, s, steps)) {
        FinishesAlongRuns(p, s, b, steps);
      }
      forall steps | ValidRun(p, s, steps) && Work(steps) >= b ensures RunFrom(p, s, steps).closed {
        CloseReturnsWithin(p, s, b, steps);
      }
    } else {
      var steps := StrandingRun(p, s);
      var end := RunFrom(p, s, steps);
      forall more | ValidRun(p, end, more) ensures !RunFrom(p, end, more).closed {
        StrandedForever(p, end, more);
      }
      assert !CanReturn(p, RunFrom(p, s, steps));
    }
  }

  // ---- Which strategies meet the condition -------------------------------------------------------------------

  function Failures(hist: seq<WriteResult>): nat {
    if hist == [] then 0 else
    Failures(hist[..|hist| - 1]) + if hist[|hist| - 1].err.Some? then 1 else 0
  }

  /** Both strategies stop writing once `patience` of their writes have failed, by returning or by a panic. */
  ghost predicate Stops(p: Program, patience: nat) {
    && (forall h :: Failures(h) >= patience ==> !p.generate(h).Write?)
    && (forall h, c :: Failures(c) >= patience ==> p.closeTar(h, c).CloseReturn?)
  }

  lemma RefusedFails(hist: seq<WriteResult>)
    ensures Failures(hist + [REFUSED]) == Failures(hist) + 1
  {
    assert (hist + [REFUSED])[..|hist|] == hist;
  }

  lemma {:induction false} GeneratorStops(p: Program, patience: nat, g: seq<WriteResult>) returns (n: nat)
    requires Stops(p, patience) && forall h :: g <= h ==> !p.generate(h).Panic?
    ensures GeneratorReturns(p, g, n)
    decreases if Failures(g) < patience then patience - Failures(g) else 0
  {
    n := 0;
    if p.generate(g).Write? {
      RefusedFails(g);
      n := GeneratorStops(p, patience, g + [REFUSED]);
      n := n + 1;
    }
  }

  lemma {:induction false} TarWriterStops(p: Program, patience: nat, g: seq<WriteResult>, c: seq<WriteResult>)
    returns (m: nat)
    requires Stops(p, patience)
    ensures TarWriterReturns(p, g, c, m)
    decreases if Failures(c) < patience then patience - Failures(c) else 0
  {
    m := 0;
    if p.closeTar(g, c).CloseWrite? {
      RefusedFails(c);
      m := TarWriterStops(p, patience, g, c + [REFUSED]);
      m := m + 1;
    }
  }

  lemma StoppingReturns(p: Program, patience: nat, s: State) returns (b: int)
    requires Stops(p, patience) && forall h :: s.genHist <= h ==> !p.generate(h).Panic?
    requires !s.phase.Finished? && !s.phase.PanicClosingTar? && !s.phase.PanicClosingPipe? && !s.phase.Panicked?
    ensures Returns(p, s, b)
  {
    b := 2;
    if s.phase.Generating? {
      var n := GeneratorStops(p, patience, s.genHist);
      var m := TarWriterStops(p, patience, Refused(s.genHist, n), s.closeHist);
      b := n + m + 4;
      assert TarWriterEnds(p, Refused(s.genHist, n), s.closeHist, b - n - 4);
    } else if s.phase.ClosingTar? {
      var m := TarWriterStops(p, patience, s.genHist, s.closeHist);
      b := m + 3;
    }
  }

  /** Strategies that stop after failed writes, and a generator that from here on does not panic, let Close return. */
  lemma StoppingFinishes(p: Program, patience: nat, s: State)
    requires Inv(p, s) && s.closer.Waiting?
    requires Stops(p, patience) && forall h :: s.genHist <= h ==> !p.generate(h).Panic?
    ensures Finishes(p, s)
  {
    assert !p.generate(s.genHist).Panic?;
    if s.inflight.None? {
      var b := StoppingReturns(p, patience, s);
      assert FinishesWithin(p, s, b + Busy(s));
    } else {
      var b := StoppingReturns(p, patience, EndWrite(s, CutOff(s)));
      var b' := b;
      if s.reader.Reading? {
        b' := StoppingReturns(p, patience, EndWrite(s, CutOffLater(s)));
      }
      BothEnds(p, s, b, b');
    }
  }

  lemma {:induction false} NoReturn(p: Program, g: seq<WriteResult>, n: nat)
    requires forall h :: g <= h ==> !p.generate(h).Return?
    ensures !GeneratorReturns(p, g, n)
    decreases n
  {
    if n > 0 {
      NoReturn(p, g + [REFUSED], n - 1);
    }
  }

  /** A generator that from here on does not return, because it panics or never stops, leaves Close waiting. */
  lemma NeverReturning(p: Program, s: State)
    requires s.phase.Generating? && forall h :: s.genHist <= h ==> !p.generate(h).Return?
    ensures !Finishes(p, s)
  {
    forall s': State, b | s'.phase.Generating? && s.genHist <= s'.genHist ensures !Returns(p, s', b) {
      forall n: nat ensures !GeneratorReturns(p, s'.genHist, n) {
        NoReturn(p, s'.genHist, n);
      }
    }
    if s.inflight.Some? {
      assert CutOff(s) in WriteEnds(s);
    }
  }

  /** One that does not panic on any history, but writes for ever, however often it is refused. */
  lemma EndlessGeneratorStrands()
    ensures exists p: Program, s ::
              && Reachable(p, s) && s.closer.Waiting? && !Finishes(p, s)
              && forall h :: !p.generate(h).Panic?
  {
    var p := Program((h: seq<WriteResult>) => Write([0]),
                     (h: seq<WriteResult>, c: seq<WriteResult>) => CloseReturn(None));
    InitReachable(p);
    ReachableNext(p, INIT, CloseCall);
    var s := Next(p, INIT, CloseCall);
    NeverReturning(p, s);
    assert forall h :: !p.generate(h).Panic?;
    assert Reachable(p, s) && s.closer.Waiting? && !Finishes(p, s);
  }

  /** One that panics at its first refused write, and not before: Close itself brings on what keeps it waiting. */
  lemma LatePanicStrands()
    ensures exists p: Program, s, s' ::
              && (forall h :: AllWrote(h) ==> p.generate(h).Write?) && Stops(p, 1)
              && Reachable(p, s) && s.closer.Waiting? && s.phase.Generating? && !Finishes(p, s)
              && Reachable(p, s') && s'.closer.Waiting? && s'.phase.Panicked?
  {
    var p := Program((h: seq<WriteResult>) => if Failures(h) > 0 then Panic("refused") else Write([0]),
                     (h: seq<WriteResult>, c: seq<WriteResult>) => CloseReturn(None));
    InitReachable(p);
    ReachableNext(p, INIT, CloseCall);
    var s := Next(p, INIT, CloseCall);
    NeverReturning(p, s);
    RefusedFails([]);
    ReachableNext(p, s, Generate);
    var s1 := Next(p, s, Generate);
    assert s1.genHist == [REFUSED];
    ReachableNext(p, s1, Generate);
    var s2 := Next(p, s1, Generate);
    ReachableNext(p, s2, CloseTar);
    var s3 := Next(p, s2, CloseTar);
    ReachableNext(p, s3, ClosePipe);
    var s' := Next(p, s3, ClosePipe);
    forall h | AllWrote(h) ensures p.generate(h).Write? {
      NoFailures(h);
    }
    assert Stops(p, 1);
    assert Reachable(p, s') && s'.closer.Waiting? && s'.phase.Panicked?;
  }

  lemma {:induction false} NoFailures(h: seq<WriteResult>)
    requires AllWrote(h)
    ensures Failures(h) == 0
  {
    if h != [] {
      NoFailures(h[..|h| - 1]);
    }
  }
}
