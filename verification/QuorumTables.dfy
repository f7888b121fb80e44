/** Whose agreement a decision counts: votes are kept per batch and value, not per table. */
module QuorumTables {
  import opened Common
  import opened Indexing
  import Permissions
  import opened QuorumRuns
  import opened QuorumDecisions
  import opened QuorumReach

  // ----- One vote per account, value and scope -----

  predicate SameVote(e: Event, f: Event) {
    && e.DataSubmitted? && f.DataSubmitted? && e.who == f.who
    && e.submission.batchId == f.submission.batchId && e.submission.dataHash == f.submission.dataHash
    && e.submission.scope == f.submission.scope
  }

  ghost predicate VotedOnce(events: seq<Event>) {
    forall i, j :: 0 <= i < j < |events| ==> !SameVote(events[i], events[j])
  }

  lemma {:induction false} VoteKeepsOnce(s: Storage, s': Storage, c: Call, scope: QuorumScope)
    requires Refines(s) && VotedOnce(s.events) && c.batchId !in s.finalData && MaybeAdded(s, s', c, scope)
    ensures VotedOnce(s'.events)
  {
    if c.Can(scope) {
      var who, b, h := c.origin.who, c.batchId, c.Hash();
      assert BatchRefines(s, b);
      assert who !in Voters(s.events, b, h, scope) by {
        assert s.Votes(b, h, scope) == Voters(s.events, b, h, scope);
      }
      var e := s'.events[|s.events|];
      forall i | 0 <= i < |s.events| ensures !SameVote(s.events[i], e) {
        assert SameVote(s.events[i], e) ==> who in Voters(s.events, b, h, scope);
      }
    }
  }

  lemma {:induction false} OthersKeepOnce(events: seq<Event>, more: seq<Event>)
    requires VotedOnce(events) && forall e :: e in more ==> !e.DataSubmitted?
    ensures VotedOnce(events + more)
  {
    var all := events + more;
    forall i, j | 0 <= i < j < |all| ensures !SameVote(all[i], all[j]) {
      if j < |events| {
        assert all[i] == events[i] && all[j] == events[j];
      } else {
        assert all[j] in more;
      }
    }
  }

  lemma {:induction false} FinalizeKeepsOnce(s: Storage, q: DataQuorum, c: Call)
    requires VotedOnce(s.events) && FinalizeQuorum(s, q, c).Ok?
    ensures VotedOnce(FinalizeQuorum(s, q, c).value.events)
  {
    OthersKeepOnce(s.events, FinalEvents(q, c.blockNumber, c.chain.conversion.value));
  }

  lemma {:induction false} StepKeepsOnce(s: Storage, c: Call)
    requires Refines(s) && VotedOnce(s.events)
    ensures VotedOnce(Step(s, c).events)
  {
    if SubmitData(s, c).Ok? {
      var s1, s2 := AcceptedCall(s, c);
      MaybeKeepsRefines(s, s1, c, Public);
      VoteKeepsOnce(s, s1, c, Public);
      VoteKeepsOnce(s1, s2, c, Privileged);
      if Winner(c, s2).Some? {
        FinalizeKeepsOnce(s2, Decision(c, s2, Winner(c, s2).value), c);
      }
    }
  }

  lemma {:induction false} RunKeepsOnce(s: Storage, calls: seq<Call>)
    requires Refines(s) && VotedOnce(s.events)
    ensures VotedOnce(Run(s, calls).events)
    decreases |calls|
  {
    if calls != [] {
      StepKeepsRefines(s, calls[0]);
      StepKeepsOnce(s, calls[0]);
      RunKeepsOnce(Step(s, calls[0]), calls[1..]);
    }
  }

  // ----- Agreements and tables -----

  /** A logged vote for the decision's batch, value and scope. */
  predicate Backs(e: Event, q: DataQuorum) {
    IsVote(e, q.batchId, q.scope) && e.submission.dataHash == q.dataHash
  }

  /** The account voted for the decision and for its table. */
  ghost predicate BackedBy(events: seq<Event>, q: DataQuorum, a: AccountId) {
    exists i :: 0 <= i < |events| && Backs(events[i], q) && events[i].who == a && events[i].submission.table == q.table
  }

  /** Every agreeing account voted for the table the decision is about. */
  ghost predicate AgreedOnTable(events: seq<Event>, q: DataQuorum) {
    forall a :: a in q.agreements ==> BackedBy(events, q, a)
  }

  /** Every logged vote for the decision's batch, value and scope named that table. */
  ghost predicate VotesNameTable(events: seq<Event>, q: DataQuorum) {
    forall i :: 0 <= i < |events| && Backs(events[i], q) ==> events[i].submission.table == q.table
  }

  lemma {:induction false} NamedIsAgreed(events: seq<Event>, q: DataQuorum)
    requires Fits(events, q) && VotesNameTable(events, q)
    ensures AgreedOnTable(events, q)
  {
    forall a | a in q.agreements ensures BackedBy(events, q, a) {
      var i :| 0 <= i < |events| && IsVote(events[i], q.batchId, q.scope)
               && events[i].submission.dataHash == q.dataHash && events[i].who == a;
      assert Backs(events[i], q);
    }
  }

  lemma {:induction false} AgreedIsNamed(events: seq<Event>, q: DataQuorum)
    requires Fits(events, q) && VotedOnce(events) && AgreedOnTable(events, q)
    ensures VotesNameTable(events, q)
  {
    forall j | 0 <= j < |events| && Backs(events[j], q)
      ensures events[j].submission.table == q.table
    {
      var a := events[j].who;
      assert a in Voters(events, q.batchId, q.dataHash, q.scope);
      var i :| 0 <= i < |events| && Backs(events[i], q) && events[i].who == a && events[i].submission.table == q.table;
      assert SameVote(events[i], events[j]) && SameVote(events[j], events[i]);
      assert i == j;
    }
  }

  /** In every reachable state, the agreements of a decision all voted for its table exactly when no vote for that
      batch, value and scope named another. */
  lemma {:induction false} AgreedOnTableIff(calls: seq<Call>, b: BatchId)
    requires b in Run(GENESIS, calls).finalData
    ensures var s := Run(GENESIS, calls);
            AgreedOnTable(s.events, s.finalData[b]) <==> VotesNameTable(s.events, s.finalData[b])
  {
    var s := Run(GENESIS, calls);
    ReachableRefinesLog(calls);
    RunKeepsOnce(GENESIS, calls);
    assert BatchRefines(s, b);
    if VotesNameTable(s.events, s.finalData[b]) {
      NamedIsAgreed(s.events, s.finalData[b]);
    }
    if AgreedOnTable(s.events, s.finalData[b]) {
      AgreedIsNamed(s.events, s.finalData[b]);
    }
  }

  // ----- One table per batch is enough -----

  ghost predicate TableIs(s: Storage, b: BatchId, t: TableIdentifier) {
    && (forall e :: e in s.events && e.DataSubmitted? && e.submission.batchId == b ==> e.submission.table == t)
    && (b in s.finalData ==> s.finalData[b].table == t && s.finalData[b].batchId == b)
  }

  lemma {:induction false} StepKeepsTable(s: Storage, c: Call, b: BatchId, t: TableIdentifier)
    requires TableIs(s, b, t) && (c.batchId == b ==> c.table == t)
    ensures TableIs(Step(s, c), b, t)
  {
    forall e | e in Step(s, c).events && e.DataSubmitted? && e.submission.batchId == b
      ensures e.submission.table == t
    {
      StepVotesAuthorised(s, c, e);
    }
    if SubmitData(s, c).Ok? {
      var s1, s2 := AcceptedCall(s, c);
    }
  }

  lemma {:induction false} RunKeepsTable(s: Storage, calls: seq<Call>, b: BatchId, t: TableIdentifier)
    requires TableIs(s, b, t) && forall i :: 0 <= i < |calls| && calls[i].batchId == b ==> calls[i].table == t
    ensures TableIs(Run(s, calls), b, t)
    decreases |calls|
  {
    if calls != [] {
      StepKeepsTable(s, calls[0], b, t);
      RunKeepsTable(Step(s, calls[0]), calls[1..], b, t);
    }
  }

  /** If a batch is only ever submitted for one table, every agreement voted for it. */
  lemma {:induction false} OneTableAgreed(calls: seq<Call>, b: BatchId, t: TableIdentifier)
    requires forall i :: 0 <= i < |calls| && calls[i].batchId == b ==> calls[i].table == t
    requires b in Run(GENESIS, calls).finalData
    ensures var s := Run(GENESIS, calls); s.finalData[b].table == t && AgreedOnTable(s.events, s.finalData[b])
  {
    var s := Run(GENESIS, calls);
    RunKeepsTable(GENESIS, calls, b, t);
    forall i | 0 <= i < |s.events| && IsVote(s.events[i], b, s.finalData[b].scope)
      ensures s.events[i].submission.table == t
    {
      assert s.events[i] in s.events;
    }
    AgreedOnTableIff(calls, b);
  }

  // ----- A decision that counts another table's vote -----

  const FIRST_TABLE := TableIdentifier([65], [84])
  const SECOND_TABLE := TableIdentifier([66], [84])
  const SIZES := InsertQuorumSize(Some(1), None)
  const VOTERS: Permissions.Grants := map[1 := [PUBLIC_RIGHT], 2 := [PUBLIC_RIGHT]]

  const TWO_TABLES := Chain(
    VOTERS, map[FIRST_TABLE := SIZES, SECOND_TABLE := SIZES], {FIRST_TABLE, SECOND_TABLE}, 1,
    Ok(Insert(None, 1, [1], true)))

  function VoteFor(who: AccountId, table: TableIdentifier): Call {
    Call(Signed(who), table, [1], [7], None, TWO_TABLES)
  }

  function BallotFor(table: TableIdentifier): Ballot {
    Ballot([1], DataHash([7], None), table, SIZES)
  }

  lemma {:induction false} VoteForGood(who: AccountId, table: TableIdentifier)
    requires (who == 1 || who == 2) && (table == FIRST_TABLE || table == SECOND_TABLE)
    ensures GoodVote(VoteFor(who, table), BallotFor(table)) && !VoteFor(who, table).Can(Privileged)
  {
    assert PUBLIC_RIGHT in VOTERS[who];
  }

  lemma {:induction false} EventsOnlyGrow(s: Storage, c: Call)
    ensures s.events <= Step(s, c).events
  {
    if SubmitData(s, c).Ok? {
      var s1, s2 := AcceptedCall(s, c);
    }
  }

  lemma {:induction false} FirstVoteLogged(s: Storage, c: Call)
    requires SubmitData(s, c).Ok? && s.events == [] && c.Can(Public)
    ensures var s' := Step(s, c);
            && s'.events != []
            && s'.events[0] == DataSubmitted(c.origin.who, DataSubmission(c.table, c.batchId, c.Hash(), Public))
  {
    var s1, s2 := AcceptedCall(s, c);
  }

  /** Voter 1 submits for the first table and voter 2 the same value for the second: the decision is for the second
      table and counts both. */
  lemma {:induction false} OtherTableCounts()
    ensures var one, two := VoteFor(1, FIRST_TABLE), VoteFor(2, SECOND_TABLE); var s := Run(GENESIS, [one, two]);
            && one.batchId in s.finalData && s.finalData[one.batchId].table == SECOND_TABLE
            && s.finalData[one.batchId].agreements == {1, 2}
            && !AgreedOnTable(s.events, s.finalData[one.batchId])
  {
    var one, two := VoteFor(1, FIRST_TABLE), VoteFor(2, SECOND_TABLE);
    VoteForGood(1, FIRST_TABLE);
    VoteForGood(2, SECOND_TABLE);
    TwoTables(one, two, BallotFor(FIRST_TABLE), BallotFor(SECOND_TABLE));
    AgreedOnTableIff([one, two], one.batchId);
  }

  lemma {:induction false} RunOfTwo(c: Call, d: Call)
    ensures Run(GENESIS, [c, d]) == Step(Step(GENESIS, c), d)
  {
    var s := Step(GENESIS, c);
    assert [c, d][1..] == [d] && [d][1..] == [];
    assert Run(GENESIS, [c, d]) == Run(s, [d]);
    assert Run(s, [d]) == Run(Step(s, d), []);
  }

  lemma {:induction false} TwoTables(one: Call, two: Call, k: Ballot, l: Ballot)
    requires GoodVote(one, k) && GoodVote(two, l) && k == l.(t := k.t) && k.t != l.t && k.q == SIZES
    requires !one.Can(Privileged) && !two.Can(Privileged) && one.origin.who != two.origin.who
    ensures var s := Run(GENESIS, [one, two]);
            && DecidedAs(s, l, Public, {one.origin.who, two.origin.who}, FirstDissenters(Step(GENESIS, one), l, Public))
            && s.finalData[l.b].batchId == l.b
            && !VotesNameTable(s.events, s.finalData[l.b])
  {
    assert WithinThreshold(GENESIS, k.b, k.q);
    NothingDecides(GENESIS, one, k);
    var s1 := Step(GENESIS, one);
    assert Pub(s1, l) == {} + {one.origin.who} == {one.origin.who};
    PublicDecides(s1, two, l);
    assert {one.origin.who} + {two.origin.who} == {one.origin.who, two.origin.who};
    GoodVoteAccepted(GENESIS, one, k);
    FirstVoteLogged(GENESIS, one);
    EventsOnlyGrow(s1, two);
    RunOfTwo(one, two);
    var s := Step(s1, two);
    ReachableRefinesLog([one, two]);
    assert BatchRefines(s, l.b);
    assert s.events[0] == s1.events[0] && Backs(s.events[0], s.finalData[l.b]);
  }
}
