/** The forwarder's own loops, tied step by step to the machine of module `Forwarder`. */
module ForwarderProcess {
  import opened Common
  import opened Forwarder

  /** One submission attempt: did the pool take the mark, and did the call report success. */
  datatype Attempt = Attempt(accepted: bool, reported: bool)

  predicate Possible(a: Attempt) {
    a.reported ==> a.accepted
  }

  /** What the outside world does to one block. */
  datatype BlockFate = BlockFate(fetched: bool, handled: bool, tries: seq<Attempt>)

  predicate WellFormed(f: BlockFate) {
    |f.tries| == 4 && forall i :: 0 <= i < |f.tries| ==> Possible(f.tries[i])
  }

  predicate Reported(tries: seq<Attempt>) {
    exists i :: 0 <= i < |tries| && tries[i].reported
  }

  /** The attempts made: up to the first that reports success. */
  function Tried(tries: seq<Attempt>): (n: nat)
    ensures n <= |tries| && (forall i :: 0 <= i < n - 1 ==> !tries[i].reported)
    ensures if Reported(tries) then n > 0 && tries[n - 1].reported else n == |tries|
  {
    if tries == [] then 0 else if tries[0].reported then 1 else 1 + Tried(tries[1..])
  }

  /** Consecutive nonces from the given one. */
  function Nonces(first: nat, n: nat): seq<nat> {
    seq(n, i requires 0 <= i < n => first + i)
  }

  /** The marks of the first `n` attempts that the pool took. */
  function Entered(tries: seq<Attempt>, n: nat, first: nat, block: BlockNumber): set<Mark>
    requires n <= |tries|
  {
    set i | 0 <= i < n && tries[i].accepted :: Mark(first + i, block)
  }

  lemma {:induction false} OneMoreTry(tries: seq<Attempt>, n: nat, first: nat, block: BlockNumber)
    requires n < |tries|
    ensures Nonces(first, n + 1) == Nonces(first, n) + [first + n]
    ensures Entered(tries, n + 1, first, block)
         == Entered(tries, n, first, block) + if tries[n].accepted then {Mark(first + n, block)} else {}
  {
  }

  lemma {:induction false} TriedIs(tries: seq<Attempt>, n: nat)
    requires 0 < n <= |tries| && (forall i :: 0 <= i < n - 1 ==> !tries[i].reported)
    requires tries[n - 1].reported || (n == |tries| && !tries[n - 1].reported)
    ensures Tried(tries) == n && (Reported(tries) <==> tries[n - 1].reported)
  {
    var k := Tried(tries);
    if Reported(tries) {
      assert k >= n && k <= n;
    }
  }

  /** The block goes through: fetched, forwarded, and one of the attempts reports success. */
  predicate Succeeds(f: BlockFate) {
    f.fetched && f.handled && Reported(f.tries)
  }

  function LeadingSuccesses(fates: seq<BlockFate>): (n: nat)
    ensures n <= |fates|
    ensures forall i :: 0 <= i < n ==> Succeeds(fates[i])
    ensures n < |fates| ==> !Succeeds(fates[n])
  {
    if fates == [] || !Succeeds(fates[0]) then 0 else 1 + LeadingSuccesses(fates[1..])
  }

  /** What marking a block leaves alone. */
  function Rest(s: State): State {
    s.(phase := Waiting, nonce := 0, pool := {}, attempts := [], visits := [])
  }

  lemma {:induction false} SubmitEffect(s: State, accepted: bool, reported: bool)
    requires Enabled(s, Submit(accepted, reported))
    ensures var t, n := Apply(s, Submit(accepted, reported)), s.nonce + s.phase.attempt;
            && t.attempts == s.attempts + [n]
            && t.pool == s.pool + (if accepted then {Mark(n, s.current)} else {})
            && t.nonce == (if reported then n + 1 else s.nonce)
            && t.phase == (if reported then Signalling
                           else if s.phase.attempt < MAX_RETRIES then Submitting(s.phase.attempt + 1) else Waiting)
            && Rest(t) == Rest(s) && t.current == s.current
  {
  }

  /** What the first `n` attempts leave behind. */
  ghost predicate After(s0: State, s: State, tries: seq<Attempt>, n: nat)
    requires n <= |tries|
  {
    && s.attempts == s0.attempts + Nonces(s0.nonce, n)
    && s.pool == s0.pool + Entered(tries, n, s0.nonce, s0.current)
    && Rest(s) == Rest(s0)
  }

  lemma {:induction false} NextAttempt(s0: State, s: State, tries: seq<Attempt>, n: nat)
    requires n < |tries| == 4 && Possible(tries[n]) && After(s0, s, tries, n)
    requires s.phase == Submitting(n) && s.nonce == s0.nonce
    ensures var a := tries[n];
            && Enabled(s, Submit(a.accepted, a.reported))
            && var t := Apply(s, Submit(a.accepted, a.reported));
            && After(s0, t, tries, n + 1)
            && t.nonce == (if a.reported then s0.nonce + n + 1 else s0.nonce)
            && t.phase == if a.reported then Signalling else if n < 3 then Submitting(n + 1) else Waiting
  {
    assert s.current == Rest(s).current == Rest(s0).current;
    OneMoreTry(tries, n, s0.nonce, s0.current);
    SubmitEffect(s, tries[n].accepted, tries[n].reported);
  }

  class Process {
    var currentBlock: BlockNumber
    var channel: seq<bool>
    var initialNonce: nat

    ghost const origin: State
    ghost var steps: seq<Step>
    ghost var machine: State

    /** The machine has taken exactly `steps`, and the fields are its view of the process. */
    ghost predicate Linked()
      reads this
    {
      && machine == Exec(origin, steps)
      && machine.current == currentBlock
      && machine.channel == channel
      && machine.nonce == initialNonce
    }

    ghost method Take(step: Step)
      requires machine == Exec(origin, steps) && Enabled(machine, step)
      modifies this`steps, this`machine
      ensures machine == Apply(old(machine), step) == Exec(origin, steps)
      ensures steps == old(steps) + [step]
    {
      ExecAppend(origin, steps, [step]);
      steps := steps + [step];
      machine := Apply(machine, step);
    }

    /** A fresh process reads its nonce and its start block from the chain. */
    constructor (ghost chain: State, lastForwarded: Option<BlockNumber>, nonce: nat)
      requires chain.phase.Down? && lastForwarded == chain.lastForwarded
      ensures Linked() && machine == Apply(chain, Forwarder.Start(nonce)) && origin == chain
    {
      currentBlock := StartBlock(lastForwarded);
      channel := [];
      initialNonce := nonce;
      origin := chain;
      steps := [Forwarder.Start(nonce)];
      machine := Apply(chain, Forwarder.Start(nonce));
      new;
      assert steps[1..] == [];
    }

    /** Up to four attempts on consecutive nonces; the first reported success gives the next nonce. */
    method MarkBlockForwarded(tries: seq<Attempt>) returns (r: Option<nat>)
      requires Linked() && machine.phase == Submitting(0)
      requires |tries| == 4 && forall i :: 0 <= i < |tries| ==> Possible(tries[i])
      modifies this`steps, this`machine
      ensures machine == Exec(origin, steps) && old(steps) <= steps
      ensures r == if Reported(tries) then Some(initialNonce + Tried(tries)) else None
      ensures machine.attempts == old(machine.attempts) + Nonces(initialNonce, Tried(tries))
      ensures machine.pool == old(machine.pool) + Entered(tries, Tried(tries), initialNonce, currentBlock)
      ensures machine.phase == (if r.Some? then Signalling else Waiting)
      ensures machine.nonce == (if r.Some? then r.value else initialNonce)
      ensures Rest(machine) == old(Rest(machine))
    {
      for attempt := 0 to |tries|
        invariant machine == Exec(origin, steps) && old(steps) <= steps
        invariant forall i :: 0 <= i < attempt ==> !tries[i].reported
        invariant machine.phase == if attempt < |tries| then Submitting(attempt) else Waiting
        invariant machine.nonce == initialNonce && After(old(machine), machine, tries, attempt)
      {
        var nonce := initialNonce + attempt;
        NextAttempt(old(machine), machine, tries, attempt);
        Take(Submit(tries[attempt].accepted, tries[attempt].reported));
        if tries[attempt].reported {
          TriedIs(tries, attempt + 1);
          return Some(nonce + 1);
        }
      }
      TriedIs(tries, |tries|);
      return None;
    }

    /** Signals success on the channel exactly when the block went through; otherwise the process is stalled. */
    method ProcessBlock(f: BlockFate)
      requires Linked() && machine.phase == Processing && channel == [] && WellFormed(f)
      modifies this
      ensures Linked() && machine.phase == Waiting && old(steps) <= steps
      ensures channel == if f.handled && Reported(f.tries) then [true] else []
      ensures channel == [true] ==> currentBlock in machine.completed
      ensures currentBlock == old(currentBlock)
    {
      if !f.handled {
        Take(HandleFail);
        return;
      }
      Take(HandleOk);
      var next := MarkBlockForwarded(f.tries);
      if next.None? {
        return;
      }
      initialNonce := next.value;
      Take(Send);
      channel := channel + [true];
    }

    method FetchAndProcess(f: BlockFate)
      requires Linked() && machine.phase == Fetching && channel == [] && WellFormed(f)
      modifies this
      ensures Linked() && machine.phase == Waiting && old(steps) <= steps
      ensures channel == if Succeeds(f) then [true] else []
      ensures currentBlock == old(currentBlock)
    {
      if f.fetched {
        Take(FetchOk);
        ProcessBlock(f);
      } else {
        Take(FetchFail);
      }
    }

    /** The listener's loop over the stream: it goes through the leading fault-free blocks and waits for good
        at the first fault. */
    method Listen(fates: seq<BlockFate>)
      requires Linked() && machine.phase == Fetching && channel == []
      requires fates != [] && forall i :: 0 <= i < |fates| ==> WellFormed(fates[i])
      modifies this
      ensures Linked() && machine.phase == Waiting && old(steps) <= steps
      ensures var n := LeadingSuccesses(fates);
              if n < |fates| then Stalled(machine) && currentBlock == old(currentBlock) + n
              else channel == [true] && currentBlock == old(currentBlock) + n - 1
    {
      FetchAndProcess(fates[0]);
      var i := 1;
      while channel != [] && i < |fates|
        invariant 1 <= i <= |fates|
        invariant Linked() && machine.phase == Waiting && old(steps) <= steps
        invariant currentBlock == old(currentBlock) + i - 1
        invariant forall j :: 0 <= j < i - 1 ==> Succeeds(fates[j])
        invariant channel == if Succeeds(fates[i - 1]) then [true] else []
        decreases |fates| - i
      {
        Take(Receive);
        channel := channel[1..];
        currentBlock := currentBlock + 1;
        FetchAndProcess(fates[i]);
        i := i + 1;
      }
    }
  }
}
