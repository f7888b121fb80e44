/** What every run of the indexing pallet keeps, stated against its event history. */
module QuorumRuns {
  import opened Common
  import opened Indexing

  // ----- The log of accepted votes -----

  predicate IsVote(e: Event, b: BatchId, scope: QuorumScope) {
    e.DataSubmitted? && e.submission.batchId == b && e.submission.scope == scope
  }

  /** Accounts that voted for this hash. */
  function Voters(events: seq<Event>, b: BatchId, h: DataHash, scope: QuorumScope): set<AccountId> {
    set i | 0 <= i < |events| && IsVote(events[i], b, scope) && events[i].submission.dataHash == h :: events[i].who
  }

  /** Accounts that voted for another hash of the batch. */
  function Opponents(events: seq<Event>, b: BatchId, h: DataHash, scope: QuorumScope): set<AccountId> {
    set i | 0 <= i < |events| && IsVote(events[i], b, scope) && events[i].submission.dataHash != h :: events[i].who
  }

  lemma {:induction false} LogVote(events: seq<Event>, e: Event, b: BatchId, h: DataHash, scope: QuorumScope)
    ensures Voters(events + [e], b, h, scope)
         == Voters(events, b, h, scope) + (if IsVote(e, b, scope) && e.submission.dataHash == h then {e.who} else {})
    ensures Opponents(events + [e], b, h, scope)
         == Opponents(events, b, h, scope) + (if IsVote(e, b, scope) && e.submission.dataHash != h then {e.who} else {})
  {
    var all := events + [e];
    assert all[|events|] == e;
    assert forall i :: 0 <= i < |events| ==> all[i] == events[i];
  }

  lemma {:induction false} LogOther(events: seq<Event>, more: seq<Event>, b: BatchId, h: DataHash, scope: QuorumScope)
    requires forall e :: e in more ==> !e.DataSubmitted?
    ensures Voters(events + more, b, h, scope) == Voters(events, b, h, scope)
    ensures Opponents(events + more, b, h, scope) == Opponents(events, b, h, scope)
  {
    var all := events + more;
    assert forall i :: 0 <= i < |events| ==> all[i] == events[i];
    assert forall i :: |events| <= i < |all| ==> all[i] in more;
  }

  // ----- Storage refines the log -----

  ghost predicate Fits(events: seq<Event>, q: DataQuorum) {
    && q.agreements == Voters(events, q.batchId, q.dataHash, q.scope)
    && IsFirst(q.dissents, Opponents(events, q.batchId, q.dataHash, q.scope), MAX_SUBMITTERS)
  }

  ghost predicate BatchRefines(s: Storage, b: BatchId) {
    if b in s.finalData then
      && s.finalData[b].batchId == b
      && Fits(s.events, s.finalData[b])
      && forall h :: (b, h) !in s.submissions
    else
      forall h, scope :: s.Votes(b, h, scope) == Voters(s.events, b, h, scope)
  }

  ghost predicate Capped(s: Storage) {
    forall b, h, scope :: |s.Votes(b, h, scope)| <= MAX_SUBMITTERS
  }

  ghost predicate Refines(s: Storage) {
    Capped(s) && forall b :: BatchRefines(s, b)
  }

  lemma {:induction false} DissentersAreOpponents(s: Storage, b: BatchId, h: DataHash, scope: QuorumScope)
    requires b !in s.finalData && BatchRefines(s, b)
    ensures Dissenters(s, b, h, scope) == Opponents(s.events, b, h, scope)
  {
    forall a | a in Dissenters(s, b, h, scope) ensures a in Opponents(s.events, b, h, scope) {
      var k :| k in s.submissions.Keys && k.0 == b && k.1 != h && a in s.submissions[k].OfScope(scope);
      assert a in s.Votes(b, k.1, scope);
      assert a in Voters(s.events, b, k.1, scope);
    }
    forall a | a in Opponents(s.events, b, h, scope) ensures a in Dissenters(s, b, h, scope) {
      var i :| 0 <= i < |s.events| && IsVote(s.events[i], b, scope) && s.events[i].submission.dataHash != h
               && s.events[i].who == a;
      var other := s.events[i].submission.dataHash;
      assert a in Voters(s.events, b, other, scope);
      assert a in s.Votes(b, other, scope);
      assert (b, other) in s.submissions.Keys;
    }
  }

  /** What one accepted vote changes: one account in one list, one event, nothing else. */
  ghost predicate Added(s: Storage, s': Storage, c: Call, who: AccountId, scope: QuorumScope) {
    var list := s.Submitters(c.batchId, c.Hash());
    && who !in list.OfScope(scope)
    && |list.OfScope(scope)| < MAX_SUBMITTERS
    && s' == s.(
         submissions := s.submissions[(c.batchId, c.Hash()) := list.WithSubmitter(who, scope).value],
         events := s.events + [DataSubmitted(who, DataSubmission(c.table, c.batchId, c.Hash(), scope))])
  }

  lemma {:induction false} VotesAfter(s: Storage, s': Storage, c: Call, who: AccountId, scope: QuorumScope,
      b: BatchId, h: DataHash,
      t: QuorumScope)
    requires Added(s, s', c, who, scope)
    ensures s'.Votes(b, h, t)
         == if b == c.batchId && h == c.Hash() && t == scope then s.Votes(b, h, t) + {who} else s.Votes(b, h, t)
  {
    if b == c.batchId && h == c.Hash() {
      assert s'.Submitters(b, h) == s.Submitters(b, h).WithSubmitter(who, scope).value;
    } else {
      assert s'.Submitters(b, h) == s.Submitters(b, h);
    }
  }

  /** A vote for a hash does not change who differs from that hash. */
  lemma {:induction false} VoteKeepsDissenters(s: Storage, s': Storage, c: Call, who: AccountId, scope: QuorumScope,
      t: QuorumScope)
    requires Added(s, s', c, who, scope)
    ensures Dissenters(s', c.batchId, c.Hash(), t) == Dissenters(s, c.batchId, c.Hash(), t)
  {
    forall k: (BatchId, DataHash) | k.0 == c.batchId && k.1 != c.Hash()
      ensures k in s'.submissions <==> k in s.submissions
      ensures k in s.submissions ==> s'.submissions[k] == s.submissions[k]
    {
    }
  }

  lemma {:induction false} LogAfter(s: Storage, s': Storage, c: Call, who: AccountId, scope: QuorumScope, b: BatchId,
      h: DataHash,
      t: QuorumScope)
    requires Added(s, s', c, who, scope)
    ensures Voters(s'.events, b, h, t)
         == Voters(s.events, b, h, t) + (if b == c.batchId && h == c.Hash() && t == scope then {who} else {})
    ensures b != c.batchId ==> Opponents(s'.events, b, h, t) == Opponents(s.events, b, h, t)
  {
    LogVote(s.events, DataSubmitted(who, DataSubmission(c.table, c.batchId, c.Hash(), scope)), b, h, t);
  }

  /** A vote is accepted exactly when it is new and the list has room; it decides exactly past the threshold. */
  lemma {:induction false} VoteEffect(s: Storage, c: Call, who: AccountId, scope: QuorumScope)
    ensures var list := s.Votes(c.batchId, c.Hash(), scope);
            SubmitAndFindQuorum(s, c, who, scope).Ok? <==> who !in list && |list| < MAX_SUBMITTERS
    ensures SubmitAndFindQuorum(s, c, who, scope).Ok? ==>
              var (s', q) := SubmitAndFindQuorum(s, c, who, scope).value;
              var size := c.chain.QuorumOf(c.table).OfScope(scope);
              && Added(s, s', c, who, scope)
              && q == if size.Some? && |s'.Votes(c.batchId, c.Hash(), scope)| > size.value
                      then Some(Decision(c, s', scope)) else None
  {
    var list := s.Submitters(c.batchId, c.Hash()).OfScope(scope);
    if who in list {
      assert list + {who} == list;
    } else {
      assert |list + {who}| == |list| + 1;
    }
  }

  lemma {:induction false} VoteKeepsRefines(s: Storage, s': Storage, c: Call, who: AccountId, scope: QuorumScope)
    requires Refines(s) && c.batchId !in s.finalData && Added(s, s', c, who, scope)
    ensures Refines(s')
  {
    forall b ensures BatchRefines(s', b) {
      VoteKeepsBatch(s, s', c, who, scope, b);
    }
    forall b, h, t ensures |s'.Votes(b, h, t)| <= MAX_SUBMITTERS {
      VotesAfter(s, s', c, who, scope, b, h, t);
      assert |s.Votes(b, h, t)| <= MAX_SUBMITTERS;
    }
  }

  lemma {:induction false} VoteKeepsBatch(s: Storage, s': Storage, c: Call, who: AccountId, scope: QuorumScope,
      b: BatchId)
    requires BatchRefines(s, b) && c.batchId !in s.finalData && Added(s, s', c, who, scope)
    ensures BatchRefines(s', b)
  {
    if b in s.finalData {
      LogAfter(s, s', c, who, scope, b, s.finalData[b].dataHash, s.finalData[b].scope);
    } else {
      forall h, t ensures s'.Votes(b, h, t) == Voters(s'.events, b, h, t) {
        VotesAfter(s, s', c, who, scope, b, h, t);
        LogAfter(s, s', c, who, scope, b, h, t);
        assert s.Votes(b, h, t) == Voters(s.events, b, h, t);
      }
    }
  }

  lemma {:induction false} QuorumFits(s: Storage, q: DataQuorum)
    requires BatchRefines(s, q.batchId) && q.batchId !in s.finalData
    requires q.agreements == s.Votes(q.batchId, q.dataHash, q.scope)
    requires q.dissents == First(Dissenters(s, q.batchId, q.dataHash, q.scope), MAX_SUBMITTERS)
    ensures Fits(s.events, q)
  {
    DissentersAreOpponents(s, q.batchId, q.dataHash, q.scope);
  }

  lemma {:induction false} FinalizeKeepsRefines(s: Storage, q: DataQuorum, c: Call)
    requires Refines(s) && q.batchId !in s.finalData && Fits(s.events, q) && FinalizeQuorum(s, q, c).Ok?
    ensures Refines(FinalizeQuorum(s, q, c).value)
  {
    var s' := FinalizeQuorum(s, q, c).value;
    var more := FinalEvents(q, c.blockNumber, c.chain.conversion.value);
    forall b ensures BatchRefines(s', b) {
      assert BatchRefines(s, b);
      if b in s'.finalData {
        LogOther(s.events, more, b, s'.finalData[b].dataHash, s'.finalData[b].scope);
      } else {
        forall h, t ensures s'.Votes(b, h, t) == Voters(s'.events, b, h, t) {
          LogOther(s.events, more, b, h, t);
          assert s'.Votes(b, h, t) == s.Votes(b, h, t);
        }
      }
    }
    forall b, h, t ensures |s'.Votes(b, h, t)| <= MAX_SUBMITTERS {
      assert |s.Votes(b, h, t)| <= MAX_SUBMITTERS;
    }
  }

  ghost predicate MaybeAdded(s: Storage, s': Storage, c: Call, scope: QuorumScope) {
    if c.Can(scope) then c.origin.Signed? && Added(s, s', c, c.origin.who, scope) else s' == s
  }

  ghost predicate ScopeDecides(c: Call, scope: QuorumScope, s': Storage) {
    && c.Can(scope)
    && |s'.Votes(c.batchId, c.Hash(), scope)| > c.chain.QuorumOf(c.table).OfScope(scope).value
  }

  /** The scope whose list decides the batch; public comes first. */
  ghost function Winner(c: Call, s': Storage): Option<QuorumScope> {
    if ScopeDecides(c, Public, s') then Some(Public)
    else if ScopeDecides(c, Privileged, s') then Some(Privileged)
    else None
  }

  ghost function Decision(c: Call, s': Storage, scope: QuorumScope): DataQuorum {
    DataQuorum(c.table, c.batchId, c.Hash(), c.chain.blockNumber, s'.Votes(c.batchId, c.Hash(), scope),
               First(Dissenters(s', c.batchId, c.Hash(), scope), MAX_SUBMITTERS), scope)
  }

  lemma {:induction false} BothVotes(s: Storage, c: Call, who: AccountId) returns (s1: Storage)
    requires c.origin == Signed(who) && SubmitVotes(s, c, who).Ok?
    ensures var (s2, q) := SubmitVotes(s, c, who).value;
            && MaybeAdded(s, s1, c, Public) && MaybeAdded(s1, s2, c, Privileged)
            && q == if Winner(c, s2).Some? then Some(Decision(c, s2, Winner(c, s2).value)) else None
  {
    VoteEffect(s, c, who, Public);
    s1 := SubmitIfAllowed(s, c, who, Public).value.0;
    VoteEffect(s1, c, who, Privileged);
    var s2 := SubmitIfAllowed(s1, c, who, Privileged).value.0;
    if c.Can(Privileged) {
      VotesAfter(s1, s2, c, who, Privileged, c.batchId, c.Hash(), Public);
      VoteKeepsDissenters(s1, s2, c, who, Privileged, Public);
    }
  }

  /** A whole accepted call: up to two votes, then at most one decision taken over both. */
  lemma {:induction false} AcceptedCall(s: Storage, c: Call) returns (s1: Storage, s2: Storage)
    requires SubmitData(s, c).Ok?
    ensures c.origin.Signed? && c.batchId !in s.finalData && (c.Can(Public) || c.Can(Privileged))
    ensures MaybeAdded(s, s1, c, Public) && MaybeAdded(s1, s2, c, Privileged)
    ensures var w := Winner(c, s2);
            if w.Some? then FinalizeQuorum(s2, Decision(c, s2, w.value), c) == SubmitData(s, c)
            else SubmitData(s, c) == Ok(s2)
  {
    s1 := BothVotes(s, c, c.origin.who);
    s2 := SubmitVotes(s, c, c.origin.who).value.0;
  }

  lemma {:induction false} MaybeKeepsRefines(s: Storage, s': Storage, c: Call, scope: QuorumScope)
    requires Refines(s) && c.batchId !in s.finalData && MaybeAdded(s, s', c, scope)
    ensures Refines(s') && s'.finalData == s.finalData
  {
    if c.Can(scope) {
      VoteKeepsRefines(s, s', c, c.origin.who, scope);
    }
  }

  lemma {:induction false} StepKeepsRefines(s: Storage, c: Call)
    requires Refines(s)
    ensures Refines(Step(s, c))
  {
    if SubmitData(s, c).Ok? {
      var s1, s2 := AcceptedCall(s, c);
      MaybeKeepsRefines(s, s1, c, Public);
      MaybeKeepsRefines(s1, s2, c, Privileged);
      if Winner(c, s2).Some? {
        var q := Decision(c, s2, Winner(c, s2).value);
        QuorumFits(s2, q);
        FinalizeKeepsRefines(s2, q, c);
      }
    }
  }

  lemma {:induction false} RunKeepsRefines(s: Storage, calls: seq<Call>)
    requires Refines(s)
    ensures Refines(Run(s, calls))
    decreases |calls|
  {
    if calls != [] {
      StepKeepsRefines(s, calls[0]);
      RunKeepsRefines(Step(s, calls[0]), calls[1..]);
    }
  }

  /** In every reachable state the votes and the decisions are what the event history says they are. */
  lemma {:induction false} ReachableRefinesLog(calls: seq<Call>)
    ensures Refines(Run(GENESIS, calls))
  {
    RunKeepsRefines(GENESIS, calls);
  }
}
