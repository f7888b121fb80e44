/** The event forwarder: a block stream, a one-slot channel, a retrying marker and the chain's last forwarded block. */
module Forwarder {
  import opened Common

  const MAX_RETRIES: nat := 3

  type BlockNumber = nat

  /** A signed call that marks a block as forwarded. */
  datatype Mark = Mark(nonce: nat, block: BlockNumber)

  /** Where the single task of the process is. */
  datatype Phase = Down | Fetching | Processing | Submitting(attempt: nat) | Signalling | Waiting

  /** How the work on a yielded block ended; only `Sent` is a successful return. */
  datatype End = Open | Failed | Exhausted | Died | Sent

  /** One block handed to the processor: in which run, and whether one of its marks entered the pool. */
  datatype Visit = Visit(block: BlockNumber, run: nat, marked: bool, end: End)

  datatype State = State(
    lastForwarded: Option<BlockNumber>,  // chain storage
    pool: set<Mark>,                     // marks handed to the node and not yet included
    phase: Phase,
    current: BlockNumber,                // the stream's counter
    nonce: nat,                          // the processor's next nonce
    channel: seq<bool>,
    stored: seq<BlockNumber>,            // every value `lastForwarded` has had
    handled: set<BlockNumber>,           // blocks whose events were forwarded, over all runs
    completed: set<BlockNumber>,         // blocks whose processing returned successfully, over all runs
    visits: seq<Visit>,                  // all work on blocks, over all runs
    run: nat,                            // how often the process was started
    start: BlockNumber,                  // this run's first block
    yielded: seq<BlockNumber>,           // blocks handed to the processor in this run
    attempts: seq<nat>)                  // nonces used in this run

  const INITIAL := State(None, {}, Down, 0, 0, [], [], {}, {}, [], 0, 0, [], [])

  /** A start after block 0 repeats it: a stored 0 cannot be told from nothing stored. */
  function StartBlock(last: Option<BlockNumber>): BlockNumber {
    if last.None? || last.value == 0 then 0 else last.value + 1
  }

  datatype Step =
    | Start(nonce: nat)
    | FetchOk
    | FetchFail
    | HandleOk
    | HandleFail
    | Submit(accepted: bool, reported: bool)  // the pool may take a mark although the call reports an error
    | Send
    | Receive
    | Crash
    | Include(mark: Mark)
    | Discard(mark: Mark)

  predicate Working(p: Phase) {
    p.Processing? || p.Submitting? || p.Signalling?
  }

  function Marking(visits: seq<Visit>, accepted: bool): seq<Visit> {
    if visits == [] || !accepted then visits
    else visits[..|visits| - 1] + [visits[|visits| - 1].(marked := true)]
  }

  function Ending(visits: seq<Visit>, end: End): seq<Visit> {
    if visits == [] then visits else visits[..|visits| - 1] + [visits[|visits| - 1].(end := end)]
  }

  predicate Enabled(s: State, step: Step) {
    match step
    case Start(_) => s.phase.Down?
    case FetchOk => s.phase.Fetching?
    case FetchFail => s.phase.Fetching?
    case HandleOk => s.phase.Processing?
    case HandleFail => s.phase.Processing?
    case Submit(accepted, reported) => s.phase.Submitting? && (reported ==> accepted)
    case Send => s.phase.Signalling? && |s.channel| < 1
    case Receive => s.phase.Waiting? && s.channel != []
    case Crash => !s.phase.Down?
    case Include(mark) => mark in s.pool
    case Discard(mark) => mark in s.pool
  }

  function Apply(s: State, step: Step): State
    requires Enabled(s, step)
  {
    match step
    case Start(nonce) =>
      var b := StartBlock(s.lastForwarded);
      s.(phase := Fetching, current := b, start := b, nonce := nonce, channel := [], yielded := [], attempts := [],
         run := s.run + 1)
    case FetchOk =>
      s.(phase := Processing, yielded := s.yielded + [s.current],
         visits := s.visits + [Visit(s.current, s.run, false, Open)])
    case FetchFail => s.(phase := Waiting)
    case HandleOk => s.(phase := Submitting(0), handled := s.handled + {s.current})
    case HandleFail => s.(phase := Waiting, visits := Ending(s.visits, Failed))
    case Submit(accepted, reported) =>
      var n := s.nonce + s.phase.attempt;
      var t := s.(attempts := s.attempts + [n], pool := if accepted then s.pool + {Mark(n, s.current)} else s.pool,
                  visits := Marking(s.visits, accepted));
      if reported then t.(phase := Signalling, nonce := n + 1)
      else if s.phase.attempt < MAX_RETRIES then t.(phase := Submitting(s.phase.attempt + 1))
      else t.(phase := Waiting, visits := Ending(t.visits, Exhausted))
    case Send =>
      s.(phase := Waiting, channel := s.channel + [true], completed := s.completed + {s.current},
         visits := Ending(s.visits, Sent))
    case Receive =>
      if s.channel[0] then s.(phase := Fetching, channel := s.channel[1..], current := s.current + 1)
      else s.(channel := s.channel[1..])
    case Crash => s.(phase := Down, visits := if Working(s.phase) then Ending(s.visits, Died) else s.visits)
    case Include(mark) =>
      s.(lastForwarded := Some(mark.block), stored := s.stored + [mark.block], pool := s.pool - {mark})
    case Discard(mark) => s.(pool := s.pool - {mark})
  }

  /** Any schedule at all; a step that is not enabled does nothing. */
  function Exec(s: State, steps: seq<Step>): State
    decreases |steps|
  {
    if steps == [] then s
    else Exec(if Enabled(s, steps[0]) then Apply(s, steps[0]) else s, steps[1..])
  }

  lemma {:induction false} ExecAppend(s: State, xs: seq<Step>, ys: seq<Step>)
    ensures Exec(s, xs + ys) == Exec(Exec(s, xs), ys)
    decreases |xs|
  {
    if xs == [] {
      assert xs + ys == ys;
    } else {
      assert (xs + ys)[1..] == xs[1..] + ys;
      ExecAppend(if Enabled(s, xs[0]) then Apply(s, xs[0]) else s, xs[1..], ys);
    }
  }

  // ----- The invariant -----

  ghost predicate Below(s: State, b: BlockNumber) {
    forall c: BlockNumber :: c < b ==> c in s.handled
  }

  /** Whatever is marked, pending or on chain, has been handled together with everything before it. */
  ghost predicate MarksHandled(s: State) {
    && (forall b: BlockNumber :: b in s.handled ==> Below(s, b))
    && (forall v: BlockNumber :: v in s.stored ==> v in s.handled)
    && (s.lastForwarded.Some? ==> s.lastForwarded.value in s.handled)
    && (forall m :: m in s.pool ==> m.block in s.handled)
    && (!s.phase.Down? ==> Below(s, s.current))
    && (s.phase.Submitting? || s.phase.Signalling? ==> s.current in s.handled)
  }

  ghost predicate ChannelOk(s: State) {
    match s.phase
    case Down => true
    case Waiting => s.channel == [] || (s.channel == [true] && s.current in s.handled)
    case _ => s.channel == []
  }

  ghost predicate Consecutive(s: State) {
    && s.start <= s.current
    && (forall i :: 0 <= i < |s.yielded| ==> s.yielded[i] == s.start + i)
    && match s.phase
       case Down => true
       case Fetching => |s.yielded| == s.current - s.start
       case Waiting =>
         && (s.channel != [] ==> |s.yielded| == s.current - s.start + 1)
         && s.current - s.start <= |s.yielded| <= s.current - s.start + 1
       case _ => |s.yielded| == s.current - s.start + 1
  }

  ghost predicate Increasing(l: seq<nat>) {
    forall i, j :: 0 <= i < j < |l| ==> l[i] < l[j]
  }

  ghost predicate AllBelow(l: seq<nat>, n: nat) {
    forall i :: 0 <= i < |l| ==> l[i] < n
  }

  ghost predicate NoncesOk(s: State) {
    && Increasing(s.attempts)
    && match s.phase
       case Down => true
       case Submitting(k) => AllBelow(s.attempts, s.nonce + k)
       case Waiting => s.channel != [] ==> AllBelow(s.attempts, s.nonce)
       case _ => AllBelow(s.attempts, s.nonce)
  }

  ghost predicate Inv(s: State) {
    MarksHandled(s) && ChannelOk(s) && Consecutive(s) && NoncesOk(s)
  }

  lemma {:induction false} StepKeepsMarks(s: State, step: Step)
    requires MarksHandled(s) && ChannelOk(s) && Enabled(s, step)
    ensures MarksHandled(Apply(s, step))
  {
    var t := Apply(s, step);
    forall b: BlockNumber | b in t.handled ensures Below(t, b) {
      if b in s.handled {
        assert Below(s, b);
      } else {
        assert Below(s, s.current);
      }
    }
  }

  lemma {:induction false} StepKeepsChannel(s: State, step: Step)
    requires Inv(s) && Enabled(s, step)
    ensures ChannelOk(Apply(s, step)) && Consecutive(Apply(s, step))
  {
  }

  lemma {:induction false} StepKeepsNonces(s: State, step: Step)
    requires ChannelOk(s) && NoncesOk(s) && Enabled(s, step)
    ensures NoncesOk(Apply(s, step))
  {
  }

  lemma {:induction false} StepKeepsInv(s: State, step: Step)
    requires Inv(s) && Enabled(s, step)
    ensures Inv(Apply(s, step))
  {
    StepKeepsMarks(s, step);
    StepKeepsChannel(s, step);
    StepKeepsNonces(s, step);
  }

  lemma {:induction false} ExecKeepsInv(s: State, steps: seq<Step>)
    requires Inv(s)
    ensures Inv(Exec(s, steps))
    decreases |steps|
  {
    if steps != [] {
      if Enabled(s, steps[0]) {
        StepKeepsInv(s, steps[0]);
        ExecKeepsInv(Apply(s, steps[0]), steps[1..]);
      } else {
        ExecKeepsInv(s, steps[1..]);
      }
    }
  }

  // ----- What every schedule of runs, faults, crashes and restarts keeps -----

  /** Every block up to any value ever stored on chain has been handled. */
  lemma {:induction false} StoredBlocksHandled(steps: seq<Step>, v: BlockNumber, b: BlockNumber)
    requires v in Exec(INITIAL, steps).stored && b <= v
    ensures b in Exec(INITIAL, steps).handled
  {
    ExecKeepsInv(INITIAL, steps);
    assert Below(Exec(INITIAL, steps), v);
  }

  /** Within a run: blocks are yielded one after the other from the start, nonces only rise, the channel is
      empty while a block is being worked on, and the send therefore never blocks. */
  lemma {:induction false} RunDiscipline(steps: seq<Step>)
    ensures var s := Exec(INITIAL, steps);
            && (forall i :: 0 <= i < |s.yielded| ==> s.yielded[i] == s.start + i)
            && Increasing(s.attempts)
            && (s.phase.Processing? || s.phase.Submitting? || s.phase.Signalling? ==> s.channel == [])
            && (s.phase.Signalling? ==> Enabled(s, Send))
  {
    ExecKeepsInv(INITIAL, steps);
  }

  /** The chain's value is the last one stored, and what is stored is the block of an included mark. */
  lemma {:induction false} StoredIsLast(s: State, steps: seq<Step>)
    requires s.lastForwarded == if s.stored == [] then None else Some(s.stored[|s.stored| - 1])
    ensures var t := Exec(s, steps); t.lastForwarded == if t.stored == [] then None else Some(t.stored[|t.stored| - 1])
    decreases |steps|
  {
    if steps != [] {
      StoredIsLast(if Enabled(s, steps[0]) then Apply(s, steps[0]) else s, steps[1..]);
    }
  }

  lemma {:induction false} OnlyIncludesStore(s: State, step: Step)
    requires Enabled(s, step)
    ensures Apply(s, step).stored == s.stored + if step.Include? then [step.mark.block] else []
  {
    assert s.stored + [] == s.stored;
  }

  /** Only an accepted submission puts a mark into the pool, of the current block, and only inclusion or the pool itself
      takes one out. */
  lemma {:induction false} PoolChanges(s: State, step: Step, m: Mark)
    requires Enabled(s, step)
    ensures m in Apply(s, step).pool <==>
      || (m in s.pool && step != Include(m) && step != Discard(m))
      || (step.Submit? && step.accepted && m == Mark(s.nonce + s.phase.attempt, s.current))
  {
    assert step.Include? ==> (step == Include(m) <==> step.mark == m);
    assert step.Discard? ==> (step == Discard(m) <==> step.mark == m);
  }

  /** A restart begins right after the stored block, with nothing unhandled before it; only block 0 is repeated. */
  lemma {:induction false} RestartPoint(steps: seq<Step>, nonce: nat)
    requires Exec(INITIAL, steps).phase.Down?
    ensures var s := Exec(INITIAL, steps); var t := Apply(s, Start(nonce));
            && Below(t, t.current) && t.nonce == nonce && t.channel == []
            && (s.lastForwarded.Some? && s.lastForwarded.value > 0 ==> t.current == s.lastForwarded.value + 1)
            && (s.lastForwarded.None? || s.lastForwarded.value == 0 ==> t.current == 0)
  {
    ExecKeepsInv(INITIAL, steps);
    StepKeepsMarks(Exec(INITIAL, steps), Start(nonce));
  }

  // ----- Which stored blocks were not completed -----

  /** The work in progress is the last visit and belongs to this run; all others are over. */
  ghost predicate LastVisit(s: State) {
    && (forall i :: 0 <= i < |s.visits| ==> (s.visits[i].end.Open? <==> i == |s.visits| - 1 && Working(s.phase)))
    && (Working(s.phase) ==> s.visits != [] && var v := s.visits[|s.visits| - 1];
          v.block == s.current && v.run == s.run && (s.phase.Signalling? ==> v.marked))
  }

  ghost predicate SentAt(s: State, b: BlockNumber) {
    exists i :: 0 <= i < |s.visits| && s.visits[i].block == b && s.visits[i].end.Sent?
  }

  ghost predicate MarkedAt(s: State, b: BlockNumber) {
    exists i :: 0 <= i < |s.visits| && s.visits[i].block == b && s.visits[i].marked
  }

  /** Completed blocks are those sent for, and whatever is marked was marked during some visit. */
  ghost predicate VisitsTell(s: State) {
    && (forall b :: b in s.completed <==> SentAt(s, b))
    && (forall i :: 0 <= i < |s.visits| && s.visits[i].end.Sent? ==> s.visits[i].marked)
    && (forall m :: m in s.pool ==> MarkedAt(s, m.block))
    && (forall b :: b in s.stored ==> MarkedAt(s, b))
  }

  /** In one run every visit but the last was sent for. */
  ghost predicate RunsTell(s: State) {
    && (!s.phase.Down? ==> s.run > 0)
    && (forall i :: 0 <= i < |s.visits| ==> 0 < s.visits[i].run <= s.run)
    && (forall i, j :: 0 <= i < j < |s.visits| && s.visits[i].run == s.visits[j].run ==> s.visits[i].end.Sent?)
    && (s.phase.Fetching? || (s.phase.Waiting? && s.channel != []) ==>
          forall i :: 0 <= i < |s.visits| && s.visits[i].run == s.run ==> s.visits[i].end.Sent?)
  }

  ghost predicate Tells(s: State) {
    LastVisit(s) && VisitsTell(s) && RunsTell(s) && ChannelOk(s)
  }

  lemma {:induction false} StepKeepsLastVisit(s: State, step: Step)
    requires Tells(s) && Enabled(s, step)
    ensures LastVisit(Apply(s, step))
  {
  }

  /** Visits keep their block and stay marked or sent for. */
  ghost predicate Grow(a: seq<Visit>, b: seq<Visit>) {
    && |a| <= |b|
    && forall i :: 0 <= i < |a| ==>
         && b[i].block == a[i].block && b[i].run == a[i].run
         && (a[i].marked ==> b[i].marked)
         && (!a[i].end.Open? ==> b[i] == a[i])
  }

  ghost predicate VisitsGrow(s: State, t: State) {
    Grow(s.visits, t.visits)
  }

  lemma {:induction false} LastGrows(visits: seq<Visit>, accepted: bool, end: End)
    requires visits == [] || visits[|visits| - 1].end.Open?
    ensures Grow(visits, Marking(visits, accepted)) && Grow(visits, Ending(Marking(visits, accepted), end))
    ensures Grow(visits, Ending(visits, end))
  {
  }

  lemma {:induction false} StepGrows(s: State, step: Step)
    requires Tells(s) && Enabled(s, step)
    ensures VisitsGrow(s, Apply(s, step))
  {
    var visits, t := s.visits, Apply(s, step).visits;
    match step {
      case FetchOk =>
        assert forall i :: 0 <= i < |visits| ==> t[i] == visits[i];
      case HandleFail =>
        LastGrows(visits, false, Failed);
      case Submit(accepted, reported) =>
        LastGrows(visits, accepted, Exhausted);
      case Send =>
        LastGrows(visits, false, Sent);
      case Crash =>
        if Working(s.phase) {
          LastGrows(visits, false, Died);
        }
      case _ =>
        assert t == visits;
    }
  }

  lemma {:induction false} GrowKeepsMarked(s: State, t: State, b: BlockNumber)
    requires VisitsGrow(s, t) && MarkedAt(s, b)
    ensures MarkedAt(t, b)
  {
    var i :| 0 <= i < |s.visits| && s.visits[i].block == b && s.visits[i].marked;
    assert t.visits[i].marked;
  }

  lemma {:induction false} StepKeepsSent(s: State, step: Step, b: BlockNumber)
    requires Tells(s) && Enabled(s, step)
    ensures b in Apply(s, step).completed ==> SentAt(Apply(s, step), b)
  {
    var t := Apply(s, step);
    StepGrows(s, step);
    if b in t.completed {
      if b in s.completed {
        var i :| 0 <= i < |s.visits| && s.visits[i].block == b && s.visits[i].end.Sent?;
        assert t.visits[i] == s.visits[i];
      } else {
        assert t.visits[|s.visits| - 1].end.Sent?;
      }
    }
  }

  lemma {:induction false} StepAddsSent(s: State, step: Step, b: BlockNumber)
    requires Tells(s) && Enabled(s, step) && SentAt(Apply(s, step), b)
    ensures b in Apply(s, step).completed
  {
    var t := Apply(s, step);
    StepGrows(s, step);
    var i :| 0 <= i < |t.visits| && t.visits[i].block == b && t.visits[i].end.Sent?;
    assert i < |s.visits|;
    if s.visits[i].end.Open? {
      assert step.Send?;
    } else {
      assert SentAt(s, b);
    }
  }

  lemma {:induction false} StepKeepsMarked(s: State, step: Step)
    requires Tells(s) && Enabled(s, step)
    ensures forall m :: m in Apply(s, step).pool ==> MarkedAt(Apply(s, step), m.block)
    ensures forall b :: b in Apply(s, step).stored ==> MarkedAt(Apply(s, step), b)
  {
    var t := Apply(s, step);
    StepGrows(s, step);
    forall m | m in t.pool ensures MarkedAt(t, m.block) {
      if m in s.pool {
        GrowKeepsMarked(s, t, m.block);
      } else {
        var i := |s.visits| - 1;
        assert t.visits[i].block == m.block && t.visits[i].marked;
      }
    }
    forall b | b in t.stored ensures MarkedAt(t, b) {
      if b in s.stored {
        GrowKeepsMarked(s, t, b);
      } else {
        GrowKeepsMarked(s, t, step.mark.block);
      }
    }
  }

  lemma {:induction false} StepKeepsPairs(s: State, step: Step, i: nat, j: nat)
    requires Tells(s) && Enabled(s, step)
    requires i < j < |Apply(s, step).visits| && Apply(s, step).visits[i].run == Apply(s, step).visits[j].run
    ensures Apply(s, step).visits[i].end.Sent?
  {
    StepGrows(s, step);
    assert i < |s.visits| && (j < |s.visits| || step.FetchOk?);
    assert s.visits[i].end.Sent?;
  }

  lemma {:induction false} StepKeepsCurrent(s: State, step: Step, i: nat)
    requires Tells(s) && Enabled(s, step)
    requires var t := Apply(s, step);
             i < |t.visits| && t.visits[i].run == t.run && (t.phase.Fetching? || (t.phase.Waiting? && t.channel != []))
    ensures Apply(s, step).visits[i].end.Sent?
  {
    StepGrows(s, step);
    assert i < |s.visits| && s.visits[i].run <= s.run;
    if step.Send? {
      assert i < |s.visits| - 1 ==> s.visits[i].end.Sent?;
    } else {
      assert !step.Start?;
      assert s.visits[i].end.Sent?;
    }
  }

  lemma {:induction false} StepKeepsRuns(s: State, step: Step)
    requires Tells(s) && Enabled(s, step)
    ensures RunsTell(Apply(s, step))
  {
    var t := Apply(s, step);
    StepGrows(s, step);
    forall i, j | 0 <= i < j < |t.visits| && t.visits[i].run == t.visits[j].run ensures t.visits[i].end.Sent? {
      StepKeepsPairs(s, step, i, j);
    }
    if t.phase.Fetching? || (t.phase.Waiting? && t.channel != []) {
      forall i | 0 <= i < |t.visits| && t.visits[i].run == t.run ensures t.visits[i].end.Sent? {
        StepKeepsCurrent(s, step, i);
      }
    }
  }

  lemma {:induction false} StepKeepsTells(s: State, step: Step)
    requires Tells(s) && Inv(s) && Enabled(s, step)
    ensures Tells(Apply(s, step))
  {
    var t := Apply(s, step);
    StepKeepsLastVisit(s, step);
    StepKeepsMarked(s, step);
    StepKeepsRuns(s, step);
    StepKeepsChannel(s, step);
    forall b ensures b in t.completed <==> SentAt(t, b) {
      StepKeepsSent(s, step, b);
      if SentAt(t, b) {
        StepAddsSent(s, step, b);
      }
    }
    StepKeepsSentMarked(s, step);
  }

  lemma {:induction false} StepKeepsSentMarked(s: State, step: Step)
    requires Tells(s) && Enabled(s, step)
    ensures var t := Apply(s, step); forall i :: 0 <= i < |t.visits| && t.visits[i].end.Sent? ==> t.visits[i].marked
  {
  }

  lemma {:induction false} ExecKeepsTells(s: State, steps: seq<Step>)
    requires Tells(s) && Inv(s)
    ensures Tells(Exec(s, steps))
    decreases |steps|
  {
    if steps != [] {
      if Enabled(s, steps[0]) {
        StepKeepsTells(s, steps[0]);
        StepKeepsInv(s, steps[0]);
        ExecKeepsTells(Apply(s, steps[0]), steps[1..]);
      } else {
        ExecKeepsTells(s, steps[1..]);
      }
    }
  }

  /** A mark of this block entered the pool, and the run then died, ran out of retries, or is still at it. */
  predicate BrokenOff(v: Visit, b: BlockNumber) {
    v.block == b && v.marked && (v.end.Died? || v.end.Exhausted? || v.end.Open?)
  }

  /** A stored block is not completed exactly when every visit that marked it was broken off; there is one. */
  lemma {:induction false} StoredNotCompletedIff(steps: seq<Step>, b: BlockNumber)
    requires b in Exec(INITIAL, steps).stored
    ensures var s := Exec(INITIAL, steps);
            && MarkedAt(s, b)
            && (b !in s.completed <==>
                  forall i :: 0 <= i < |s.visits| && s.visits[i].block == b && s.visits[i].marked ==>
                    BrokenOff(s.visits[i], b))
  {
    var s := Exec(INITIAL, steps);
    ExecKeepsTells(INITIAL, steps);
    ExecKeepsFailed(INITIAL, steps);
  }

  /** A block whose handling failed was never marked in that visit. */
  ghost predicate FailedUnmarked(s: State) {
    && (forall i :: 0 <= i < |s.visits| && s.visits[i].end.Failed? ==> !s.visits[i].marked)
    && (s.phase.Processing? && s.visits != [] ==> !s.visits[|s.visits| - 1].marked)
  }

  lemma {:induction false} StepKeepsFailed(s: State, step: Step)
    requires Tells(s) && FailedUnmarked(s) && Enabled(s, step)
    ensures FailedUnmarked(Apply(s, step))
  {
  }

  lemma {:induction false} ExecKeepsFailed(s: State, steps: seq<Step>)
    requires Tells(s) && Inv(s) && FailedUnmarked(s)
    ensures FailedUnmarked(Exec(s, steps))
    decreases |steps|
  {
    if steps != [] {
      if Enabled(s, steps[0]) {
        StepKeepsTells(s, steps[0]);
        StepKeepsInv(s, steps[0]);
        StepKeepsFailed(s, steps[0]);
        ExecKeepsFailed(Apply(s, steps[0]), steps[1..]);
      } else {
        ExecKeepsFailed(s, steps[1..]);
      }
    }
  }

  /** The stored blocks that were not completed. */
  function Lost(s: State): set<BlockNumber> {
    set b | b in s.stored && b !in s.completed
  }

  ghost predicate LostIn(s: State, b: BlockNumber, run: nat) {
    exists i :: 0 <= i < |s.visits| && s.visits[i].block == b && s.visits[i].run == run && !s.visits[i].end.Sent?
  }

  lemma {:induction false} AtMostOnePerRun(s: State, lost: set<BlockNumber>, n: nat)
    requires RunsTell(s) && forall b :: b in lost ==> exists r :: 0 < r <= n && LostIn(s, b, r)
    ensures |lost| <= n
  {
    if b :| b in lost && LostIn(s, b, n) && n > 0 {
      forall c | c in lost - {b} ensures exists r :: 0 < r <= n - 1 && LostIn(s, c, r) {
        var r :| 0 < r <= n && LostIn(s, c, r);
        if r == n {
          OneLossPerRun(s, b, c, n);
        }
      }
      AtMostOnePerRun(s, lost - {b}, n - 1);
    } else if n > 0 {
      forall c | c in lost ensures exists r :: 0 < r <= n - 1 && LostIn(s, c, r) {
        var r :| 0 < r <= n && LostIn(s, c, r);
      }
      AtMostOnePerRun(s, lost, n - 1);
    } else {
      assert lost == {};
    }
  }

  lemma {:induction false} OneLossPerRun(s: State, b: BlockNumber, c: BlockNumber, run: nat)
    requires RunsTell(s) && LostIn(s, b, run) && LostIn(s, c, run)
    ensures b == c
  {
    var i :| 0 <= i < |s.visits| && s.visits[i].block == b && s.visits[i].run == run && !s.visits[i].end.Sent?;
    var j :| 0 <= j < |s.visits| && s.visits[j].block == c && s.visits[j].run == run && !s.visits[j].end.Sent?;
    assert i == j;
  }

  /** Each start of the process leaves at most one block stored but not completed. */
  lemma {:induction false} FewBlocksLost(steps: seq<Step>)
    ensures |Lost(Exec(INITIAL, steps))| <= Exec(INITIAL, steps).run
  {
    var s := Exec(INITIAL, steps);
    ExecKeepsTells(INITIAL, steps);
    forall b | b in Lost(s) ensures exists r :: 0 < r <= s.run && LostIn(s, b, r) {
      var i :| 0 <= i < |s.visits| && s.visits[i].block == b && s.visits[i].marked;
      assert LostIn(s, b, s.visits[i].run);
    }
    AtMostOnePerRun(s, Lost(s), s.run);
  }

  /** A crash between the accepted mark and the signal: block 0 is stored, and nothing was ever completed. */
  lemma {:induction false} StoredButNotCompleted()
    ensures var s := Exec(INITIAL, [Start(0), FetchOk, HandleOk, Submit(true, true), Crash, Include(Mark(0, 0))]);
            s.stored == [0] && s.completed == {} && s.run == 1
  {
    var steps := [Start(0), FetchOk, HandleOk, Submit(true, true), Crash, Include(Mark(0, 0))];
    var s1 := Apply(INITIAL, Start(0));
    var s2 := Apply(s1, FetchOk);
    var s3 := Apply(s2, HandleOk);
    var s4 := Apply(s3, Submit(true, true));
    var s5 := Apply(s4, Crash);
    assert steps[1..] == [FetchOk, HandleOk, Submit(true, true), Crash, Include(Mark(0, 0))];
    assert steps[1..][1..] == [HandleOk, Submit(true, true), Crash, Include(Mark(0, 0))];
    assert Exec(INITIAL, steps) == Exec(s1, steps[1..]) == Exec(s2, steps[1..][1..]);
    assert [HandleOk, Submit(true, true), Crash, Include(Mark(0, 0))][1..]
       == [Submit(true, true), Crash, Include(Mark(0, 0))];
    assert [Submit(true, true), Crash, Include(Mark(0, 0))][1..] == [Crash, Include(Mark(0, 0))];
    assert [Crash, Include(Mark(0, 0))][1..] == [Include(Mark(0, 0))];
    assert Exec(s2, steps[1..][1..]) == Exec(s3, [Submit(true, true), Crash, Include(Mark(0, 0))])
        == Exec(s4, [Crash, Include(Mark(0, 0))]) == Exec(s5, [Include(Mark(0, 0))]);
    assert [Include(Mark(0, 0))][1..] == [];
    assert Exec(s5, [Include(Mark(0, 0))]) == Apply(s5, Include(Mark(0, 0)));
  }

  ghost predicate Stalled(s: State) {
    s.phase.Waiting? && s.channel == []
  }

  ghost predicate WithoutCrash(steps: seq<Step>) {
    forall i :: 0 <= i < |steps| ==> !steps[i].Crash?
  }

  /** A run that waits on an empty channel never moves again by itself: only a restart helps. */
  lemma {:induction false} StallLasts(s: State, steps: seq<Step>)
    requires Stalled(s) && WithoutCrash(steps)
    ensures var t := Exec(s, steps);
            Stalled(t) && t.current == s.current && t.yielded == s.yielded && t.handled == s.handled
               && t.attempts == s.attempts
    decreases |steps|
  {
    if steps != [] {
      StallLasts(if Enabled(s, steps[0]) then Apply(s, steps[0]) else s, steps[1..]);
    }
  }

  // ----- Restarting always recovers -----

  const CYCLE := [FetchOk, HandleOk, Submit(true, true), Send, Receive]

  lemma {:induction false} OneCycle(s: State)
    requires s.phase.Fetching? && s.channel == []
    ensures var t := Exec(s, CYCLE);
            t.phase.Fetching? && t.channel == [] && t.current == s.current + 1 && t.handled == s.handled + {s.current}
  {
    var s1 := Apply(s, FetchOk);
    var s2 := Apply(s1, HandleOk);
    var s3 := Apply(s2, Submit(true, true));
    var s4 := Apply(s3, Send);
    assert CYCLE[1..] == [HandleOk, Submit(true, true), Send, Receive];
    assert CYCLE[1..][1..] == [Submit(true, true), Send, Receive];
    assert CYCLE[1..][1..][1..] == [Send, Receive];
    assert CYCLE[1..][1..][1..][1..] == [Receive];
    assert Exec(s, CYCLE) == Exec(s1, CYCLE[1..]) == Exec(s2, CYCLE[1..][1..]) == Exec(s3, [Send, Receive])
       == Exec(s4, [Receive]);
  }

  lemma {:induction false} Cycles(s: State, n: nat) returns (steps: seq<Step>)
    requires s.phase.Fetching? && s.channel == []
    ensures var t := Exec(s, steps);
            && t.phase.Fetching? && t.channel == [] && t.current == s.current + n && s.handled <= t.handled
            && forall b :: s.current <= b < s.current + n ==> b in t.handled
    decreases n
  {
    if n == 0 {
      steps := [];
    } else {
      OneCycle(s);
      var rest := Cycles(Exec(s, CYCLE), n - 1);
      steps := CYCLE + rest;
      ExecAppend(s, CYCLE, rest);
    }
  }

  /** From every reachable state, however it failed, some continuation handles any given block. */
  lemma {:induction false} NoBlockIsLost(history: seq<Step>, b: BlockNumber) returns (steps: seq<Step>)
    ensures b in Exec(INITIAL, history + steps).handled
  {
    var s := Exec(INITIAL, history);
    ExecKeepsInv(INITIAL, history);
    var up := [Crash, Start(0)];
    var t := Exec(s, up);
    assert up[1..] == [Start(0)];
    var down := if Enabled(s, Crash) then Apply(s, Crash) else s;
    assert t == Exec(down, [Start(0)]) == Apply(down, Start(0));
    ExecKeepsInv(s, up);
    var n := if b < t.current then 0 else b - t.current + 1;
    var cycles := Cycles(t, n);
    steps := up + cycles;
    ExecAppend(INITIAL, history, steps);
    ExecAppend(s, up, cycles);
    assert Below(t, t.current);
  }
}
