/** When batches are decided: at most once, and exactly past the threshold. */
module QuorumDecisions {
  import opened Common
  import opened Indexing
  import Permissions
  import opened QuorumRuns

  // ----- Who may vote -----

  /** The signer may vote in the scope: publicly with the one public right, in the privileged scope with the right for
      this very table, and only where the table has a threshold for the scope. */
  ghost predicate Entitled(c: Call, scope: QuorumScope) {
    && c.origin.Signed? && c.table in c.chain.quorums
    && match scope
       case Public =>
         && Permissions.HasPermissions(c.chain.permissions, c.origin.who,
              Permissions.IndexingPallet(Permissions.SubmitDataForPublicQuorum))
         && c.chain.quorums[c.table].public.Some?
       case Privileged =>
         && Permissions.HasPermissions(c.chain.permissions, c.origin.who,
              Permissions.IndexingPallet(Permissions.SubmitDataForPrivilegedQuorum(c.table)))
         && c.chain.quorums[c.table].privileged.Some?
  }

  lemma {:induction false} CanIff(c: Call, scope: QuorumScope)
    requires c.origin.Signed?
    ensures c.Can(scope) <==> Entitled(c, scope)
  {
  }

  /** The scope's threshold, written out. */
  ghost function ThresholdOf(c: Call, scope: QuorumScope): nat
    requires Entitled(c, scope)
  {
    match scope
    case Public => c.chain.quorums[c.table].public.value
    case Privileged => c.chain.quorums[c.table].privileged.value
  }

  // ----- Which calls are accepted -----

  /** Where the caller may vote in this scope, they have not yet and there is a place left. */
  ghost predicate Room(s: Storage, c: Call, scope: QuorumScope)
    requires c.origin.Signed?
  {
    var list := s.Votes(c.batchId, c.Hash(), scope);
    Entitled(c, scope) ==> c.origin.who !in list && |list| < 32
  }

  /** With this call's vote the list of a scope it may vote in exceeds the threshold. */
  ghost predicate Past(s: Storage, c: Call, scope: QuorumScope) {
    Entitled(c, scope) && |s.Votes(c.batchId, c.Hash(), scope)| + 1 > ThresholdOf(c, scope)
  }

  /** The call decides its batch, in one scope or the other. */
  ghost predicate Decides(s: Storage, c: Call) {
    Past(s, c, Public) || Past(s, c, Privileged)
  }

  lemma {:induction false} VoteOkIff(s: Storage, c: Call, scope: QuorumScope)
    requires c.origin.Signed?
    ensures var r := SubmitIfAllowed(s, c, c.origin.who, scope);
            && (r.Ok? <==> Room(s, c, scope))
            && (r.Ok? ==> (r.value.1.Some? <==> Past(s, c, scope)))
            && (r.Ok? ==> forall t :: t != scope ==>
                  r.value.0.Votes(c.batchId, c.Hash(), t) == s.Votes(c.batchId, c.Hash(), t))
  {
    CanIff(c, scope);
    if c.Can(scope) {
      var who := c.origin.who;
      VoteEffect(s, c, who, scope);
      if Room(s, c, scope) {
        var s' := SubmitIfAllowed(s, c, who, scope).value.0;
        forall t ensures s'.Votes(c.batchId, c.Hash(), t)
                      == if t == scope then s.Votes(c.batchId, c.Hash(), t) + {who} else s.Votes(c.batchId, c.Hash(), t)
        {
          VotesAfter(s, s', c, who, scope, c.batchId, c.Hash(), t);
        }
      }
    }
  }

  lemma {:induction false} VotesOkIff(s: Storage, c: Call)
    requires c.origin.Signed?
    ensures var r := SubmitVotes(s, c, c.origin.who);
            && (r.Ok? <==> Room(s, c, Public) && Room(s, c, Privileged))
            && (r.Ok? ==> (r.value.1.Some? <==> Decides(s, c)))
  {
    VoteOkIff(s, c, Public);
    if Room(s, c, Public) {
      var s1 := SubmitIfAllowed(s, c, c.origin.who, Public).value.0;
      assert s1.Votes(c.batchId, c.Hash(), Privileged) == s.Votes(c.batchId, c.Hash(), Privileged);
      VoteOkIff(s1, c, Privileged);
    }
  }

  /** A call is accepted exactly when it is signed, authorised, in time, well formed, new in every list it goes
      to, and, if it decides the batch, its rows convert. */
  lemma {:induction false} AcceptedIff(s: Storage, c: Call)
    ensures SubmitData(s, c).Ok? <==>
      && c.origin.Signed? && (Entitled(c, Public) || Entitled(c, Privileged))
      && c.batchId !in s.finalData
      && c.table.namespace != [] && c.table.name != [] && c.data != [] && c.batchId != [] && c.table in c.chain.schemas
      && Room(s, c, Public) && Room(s, c, Privileged)
      && (Decides(s, c) ==> c.chain.conversion.Ok?)
  {
    if c.origin.Signed? {
      CanIff(c, Public);
      CanIff(c, Privileged);
      VotesOkIff(s, c);
    }
  }

  // ----- One batch at a time, once -----

  lemma {:induction false} AcceptedKeepsOther(s: Storage, s1: Storage, s2: Storage, c: Call, b: BatchId, h: DataHash,
      t: QuorumScope)
    requires c.batchId != b && MaybeAdded(s, s1, c, Public) && MaybeAdded(s1, s2, c, Privileged)
    ensures s2.Votes(b, h, t) == s.Votes(b, h, t)
    ensures Voters(s2.events, b, h, t) == Voters(s.events, b, h, t)
  {
    if c.Can(Public) {
      VotesAfter(s, s1, c, c.origin.who, Public, b, h, t);
      LogAfter(s, s1, c, c.origin.who, Public, b, h, t);
    }
    if c.Can(Privileged) {
      VotesAfter(s1, s2, c, c.origin.who, Privileged, b, h, t);
      LogAfter(s1, s2, c, c.origin.who, Privileged, b, h, t);
    }
  }

  lemma {:induction false} FinalizeKeepsOther(s: Storage, q: DataQuorum, c: Call, b: BatchId, h: DataHash,
      t: QuorumScope)
    requires q.batchId != b && FinalizeQuorum(s, q, c).Ok?
    ensures var s' := FinalizeQuorum(s, q, c).value;
            s'.Votes(b, h, t) == s.Votes(b, h, t) && Voters(s'.events, b, h, t) == Voters(s.events, b, h, t)
  {
    LogOther(s.events, FinalEvents(q, c.blockNumber, c.chain.conversion.value), b, h, t);
  }

  /** A call for one batch leaves every other batch's votes, decision and log as they were. */
  lemma {:induction false} OtherBatchUntouched(s: Storage, c: Call, b: BatchId)
    requires c.batchId != b
    ensures b in Step(s, c).finalData <==> b in s.finalData
    ensures b in s.finalData ==> Step(s, c).finalData[b] == s.finalData[b]
    ensures forall h, t :: Step(s, c).Votes(b, h, t) == s.Votes(b, h, t)
    ensures forall h, t :: Voters(Step(s, c).events, b, h, t) == Voters(s.events, b, h, t)
  {
    if SubmitData(s, c).Ok? {
      var s1, s2 := AcceptedCall(s, c);
      var s' := Step(s, c);
      forall h, t
        ensures s'.Votes(b, h, t) == s.Votes(b, h, t) && Voters(s'.events, b, h, t) == Voters(s.events, b, h, t)
      {
        AcceptedKeepsOther(s, s1, s2, c, b, h, t);
        if Winner(c, s2).Some? {
          FinalizeKeepsOther(s2, Decision(c, s2, Winner(c, s2).value), c, b, h, t);
        }
      }
    }
  }

  /** A decided batch rejects every later call, whoever makes it, and the call changes nothing. */
  lemma {:induction false} LateCallRejected(s: Storage, c: Call)
    requires c.batchId in s.finalData
    ensures SubmitData(s, c).Err? && Step(s, c) == s
    ensures c.origin.Signed? && (c.Can(Public) || c.Can(Privileged)) ==> SubmitData(s, c) == Err(LateBatch)
  {
  }

  lemma {:induction false} DecidedForever(s: Storage, calls: seq<Call>, b: BatchId)
    requires b in s.finalData
    ensures b in Run(s, calls).finalData && Run(s, calls).finalData[b] == s.finalData[b]
    decreases |calls|
  {
    if calls != [] {
      if calls[0].batchId == b {
        LateCallRejected(s, calls[0]);
      } else {
        OtherBatchUntouched(s, calls[0], b);
      }
      DecidedForever(Step(s, calls[0]), calls[1..], b);
    }
  }

  lemma {:induction false} RunAppend(s: Storage, xs: seq<Call>, ys: seq<Call>)
    ensures Run(s, xs + ys) == Run(Run(s, xs), ys)
    decreases |xs|
  {
    if xs == [] {
      assert xs + ys == ys;
    } else {
      assert (xs + ys)[1..] == xs[1..] + ys;
      RunAppend(Step(s, xs[0]), xs[1..], ys);
    }
  }

  /** From genesis, a decision seen after a prefix is still there, unchanged and without votes, after the whole run. */
  lemma {:induction false} DecidedOnce(calls: seq<Call>, k: nat, b: BatchId)
    requires k <= |calls| && b in Run(GENESIS, calls[..k]).finalData
    ensures b in Run(GENESIS, calls).finalData
    ensures Run(GENESIS, calls).finalData[b] == Run(GENESIS, calls[..k]).finalData[b]
    ensures forall h, t :: Run(GENESIS, calls).Votes(b, h, t) == {}
  {
    assert calls == calls[..k] + calls[k..];
    RunAppend(GENESIS, calls[..k], calls[k..]);
    DecidedForever(Run(GENESIS, calls[..k]), calls[k..], b);
    ReachableRefinesLog(calls);
    assert BatchRefines(Run(GENESIS, calls), b);
  }

  // ----- Every vote was authorised -----

  ghost predicate CastBy(e: Event, c: Call) {
    && e.DataSubmitted?
    && c.origin == Signed(e.who)
    && e.submission == DataSubmission(c.table, c.batchId, c.Hash(), e.submission.scope)
    && Entitled(c, e.submission.scope)
  }

  lemma {:induction false} VoteAuthorised(s: Storage, s': Storage, c: Call, scope: QuorumScope, e: Event)
    requires MaybeAdded(s, s', c, scope) && e in s'.events && e.DataSubmitted?
    ensures e in s.events || CastBy(e, c)
  {
    if c.origin.Signed? {
      CanIff(c, scope);
    }
  }

  lemma {:induction false} StepVotesAuthorised(s: Storage, c: Call, e: Event)
    requires e in Step(s, c).events && e.DataSubmitted?
    ensures e in s.events || CastBy(e, c)
  {
    if SubmitData(s, c).Ok? {
      var s1, s2 := AcceptedCall(s, c);
      if Winner(c, s2).Some? {
        var q := Decision(c, s2, Winner(c, s2).value);
        assert Step(s, c).events == s2.events + FinalEvents(q, c.blockNumber, c.chain.conversion.value);
      }
      VoteAuthorised(s1, s2, c, Privileged, e);
      if e in s1.events {
        VoteAuthorised(s, s1, c, Public, e);
      }
    }
  }

  /** Every logged vote was cast by a signed call of that account, permitted for its scope at that moment. */
  lemma {:induction false} VotesAuthorised(s: Storage, calls: seq<Call>, e: Event)
    requires e in Run(s, calls).events && e.DataSubmitted?
    ensures e in s.events || exists i :: 0 <= i < |calls| && CastBy(e, calls[i])
    decreases |calls|
  {
    if calls != [] {
      VotesAuthorised(Step(s, calls[0]), calls[1..], e);
      if e in Step(s, calls[0]).events {
        StepVotesAuthorised(s, calls[0], e);
      } else {
        var i :| 0 <= i < |calls[1..]| && CastBy(e, calls[1..][i]);
        assert CastBy(e, calls[i + 1]);
      }
    }
  }

  /** Without the right for the table itself, whatever other rights there are, no privileged vote for it is logged. */
  lemma {:induction false} NoRightNoVote(calls: seq<Call>, who: AccountId, t: TableIdentifier)
    requires forall i :: 0 <= i < |calls| ==>
      !Permissions.HasPermissions(calls[i].chain.permissions, who,
         Permissions.IndexingPallet(Permissions.SubmitDataForPrivilegedQuorum(t)))
    ensures forall e :: e in Run(GENESIS, calls).events && e.DataSubmitted? && e.who == who ==>
      !(e.submission.table == t && e.submission.scope.Privileged?)
  {
    forall e | e in Run(GENESIS, calls).events && e.DataSubmitted? && e.who == who
      ensures !(e.submission.table == t && e.submission.scope.Privileged?)
    {
      VotesAuthorised(GENESIS, calls, e);
      var i :| 0 <= i < |calls| && CastBy(e, calls[i]);
    }
  }

  /** Two submissions count as the same value exactly when rows and block number agree. */
  lemma {:induction false} SameValueIff(c: Call, d: Call)
    ensures c.Hash() == d.Hash() <==> c.data == d.data && c.blockNumber == d.blockNumber
  {
  }

  // ----- How a call fails -----

  ghost predicate MayTry(c: Call) {
    c.origin.Signed? && (Entitled(c, Public) || Entitled(c, Privileged))
  }

  /** The first check that fails names the error. */
  lemma {:induction false} RejectedAs(s: Storage, c: Call)
    ensures !c.origin.Signed? ==> SubmitData(s, c) == Err(BadOrigin)
    ensures c.origin.Signed? && !MayTry(c) ==> SubmitData(s, c) == Err(UnauthorizedSubmitter)
    ensures MayTry(c) && c.batchId in s.finalData ==> SubmitData(s, c) == Err(LateBatch)
    ensures MayTry(c) && c.batchId !in s.finalData ==>
      && (c.table.namespace == [] || c.table.name == [] ==> SubmitData(s, c) == Err(InvalidTable))
      && (c.table.namespace != [] && c.table.name != [] ==>
            && (c.data == [] ==> SubmitData(s, c) == Err(NoData))
            && (c.data != [] && c.batchId == [] ==> SubmitData(s, c) == Err(InvalidBatch))
            && (c.data != [] && c.batchId != [] && c.table !in c.chain.schemas ==>
                  SubmitData(s, c) == Err(InvalidTable)))
  {
    if c.origin.Signed? {
      CanIff(c, Public);
      CanIff(c, Privileged);
    }
  }

  /** A well-formed call fails because of a list exactly with `AlreadySubmitted`, else with the conversion's code. */
  lemma {:induction false} RejectedLate(s: Storage, c: Call)
    requires MayTry(c) && c.batchId !in s.finalData && c.table.namespace != [] && c.table.name != [] && c.data != []
    requires c.batchId != [] && c.table in c.chain.schemas
    ensures SubmitData(s, c) == Err(AlreadySubmitted) <==> !(Room(s, c, Public) && Room(s, c, Privileged))
    ensures Room(s, c, Public) && Room(s, c, Privileged) && Decides(s, c) && c.chain.conversion.Err? ==>
      SubmitData(s, c) == Err(FinalizationError(c.chain.conversion.error))
  {
    CanIff(c, Public);
    CanIff(c, Privileged);
    VotesOkIff(s, c);
    FailedVotes(s, c);
  }

  lemma {:induction false} FailedVotes(s: Storage, c: Call)
    requires c.origin.Signed?
    ensures SubmitVotes(s, c, c.origin.who).Err? ==> SubmitVotes(s, c, c.origin.who) == Err(AlreadySubmitted)
  {
  }

  // ----- What a decision leaves behind -----

  /** The block number it records: the submitted one, else the largest in the rows, else none. */
  ghost function RecordedNumber(c: Call): Option<nat> {
    if c.blockNumber.Some? then c.blockNumber
    else if c.chain.conversion.Ok? then c.chain.conversion.value.maxBlockNumber
    else None
  }

  /** What the announcement says: an empty block exactly when there are no rows. */
  ghost predicate Announcement(e: Event, q: DataQuorum, c: Call, i: Insert) {
    e == if i.rows == 0
         then QuorumEmptyBlock(q.table, if c.blockNumber.Some? then c.blockNumber.value else 0,
                               q.agreements, q.dissents)
         else QuorumReached(q, i.bytes)
  }

  /** The block number of the decided table only, the announcement, and for a staking table one more event on how its
      processing went. */
  ghost predicate LeftBehind(s: Storage, s': Storage, q: DataQuorum, c: Call) {
    && c.chain.conversion.Ok?
    && var i, n := c.chain.conversion.value, |s'.events|;
    && s'.blockNumbers == (if RecordedNumber(c).Some? then s.blockNumbers[q.table := RecordedNumber(c).value]
                           else s.blockNumbers)
    && n > |s.events| && s.events <= s'.events
    && if IsStakingTable(q.table)
       then n == |s.events| + 2 && Announcement(s'.events[n - 2], q, c, i)
            && s'.events[n - 1] == if i.systemTableOk then SystemTableUpdate(q.table, i.bytes)
                                   else SystemTableError(q.table, i.bytes)
       else n == |s.events| + 1 && Announcement(s'.events[n - 1], q, c, i)
  }

  lemma {:induction false} FinalizeLeaves(s: Storage, q: DataQuorum, c: Call)
    requires FinalizeQuorum(s, q, c).Ok?
    ensures LeftBehind(s, FinalizeQuorum(s, q, c).value, q, c)
  {
  }

  /** An accepted call changes block numbers and decisions only by deciding; then it leaves just that behind, on top of
      its votes. */
  lemma {:induction false} DecisionLeaves(s: Storage, c: Call) returns (s2: Storage)
    requires SubmitData(s, c).Ok?
    ensures s2.blockNumbers == s.blockNumbers && s2.finalData == s.finalData && s.events <= s2.events
    ensures var s' := Step(s, c);
            if Decides(s, c)
            then c.batchId in s'.finalData && s'.finalData[c.batchId].table == c.table
                 && LeftBehind(s2, s', s'.finalData[c.batchId], c)
            else s' == s2
  {
    var who := c.origin.who;
    VotesOkIff(s, c);
    var s1 := BothVotes(s, c, who);
    s2 := SubmitVotes(s, c, who).value.0;
    var q := SubmitVotes(s, c, who).value.1;
    if q.Some? {
      FinalizeLeaves(s2, q.value, c);
    }
  }

  const STAKING_NAMESPACE := "SXT_SYSTEM_STAKING"

  lemma {:induction false} StakingTableIff(table: TableIdentifier)
    ensures IsStakingTable(table) <==>
      && |table.namespace| == |STAKING_NAMESPACE|
      && forall i :: 0 <= i < |STAKING_NAMESPACE| ==> table.namespace[i] == STAKING_NAMESPACE[i] as int
  {
  }

  // ----- Decisions are announced -----

  function Announcements(events: seq<Event>): seq<Event> {
    if events == [] then []
    else
      var e := events[|events| - 1];
      Announcements(events[..|events| - 1]) + if e.QuorumReached? || e.QuorumEmptyBlock? then [e] else []
  }

  lemma {:induction false} AnnouncementsSnoc(events: seq<Event>, e: Event)
    ensures Announcements(events + [e])
         == if e.QuorumReached? || e.QuorumEmptyBlock? then Announcements(events) + [e] else Announcements(events)
  {
    assert (events + [e])[..|events|] == events;
    assert Announcements(events) + [] == Announcements(events);
  }

  ghost predicate Announces(e: Event, q: DataQuorum) {
    || (e.QuorumReached? && e.quorum == q)
    || (e.QuorumEmptyBlock? && e.table == q.table && e.agreements == q.agreements && e.dissents == q.dissents)
  }

  /** `order` lists the decided batches, each once, and the i-th announcement is that of the i-th batch. */
  ghost predicate AnnouncedInOrder(s: Storage, order: seq<BatchId>) {
    var said := Announcements(s.events);
    && |order| == |said|
    && (forall i, j :: 0 <= i < j < |order| ==> order[i] != order[j])
    && (forall b :: b in s.finalData <==> b in order)
    && (forall i :: 0 <= i < |order| ==> order[i] in s.finalData && Announces(said[i], s.finalData[order[i]]))
  }

  lemma {:induction false} FinalAnnouncement(events: seq<Event>, q: DataQuorum, blockNumber: Option<nat>, i: Insert)
    ensures var more := FinalEvents(q, blockNumber, i);
            Announcements(events + more) == Announcements(events) + [more[0]] && Announces(more[0], q)
  {
    var more := FinalEvents(q, blockNumber, i);
    AnnouncementsSnoc(events, more[0]);
    if |more| == 1 {
      assert events + more == events + [more[0]];
    } else {
      assert events + more == events + [more[0]] + [more[1]];
      AnnouncementsSnoc(events + [more[0]], more[1]);
    }
  }

  lemma {:induction false} OneMoreAnnounced(s: Storage, s': Storage, e: Event, q: DataQuorum, order: seq<BatchId>)
    requires AnnouncedInOrder(s, order) && q.batchId !in s.finalData && s'.finalData == s.finalData[q.batchId := q]
    requires Announcements(s'.events) == Announcements(s.events) + [e] && Announces(e, q)
    ensures AnnouncedInOrder(s', order + [q.batchId])
  {
    var next := order + [q.batchId];
    forall i | 0 <= i < |next| ensures Announces(Announcements(s'.events)[i], s'.finalData[next[i]]) {
      if i < |order| {
        assert next[i] == order[i] && order[i] in s.finalData;
      }
    }
  }

  lemma {:induction false} FinalizeAnnounces(s: Storage, q: DataQuorum, c: Call, order: seq<BatchId>)
    requires AnnouncedInOrder(s, order) && q.batchId !in s.finalData && FinalizeQuorum(s, q, c).Ok?
    ensures AnnouncedInOrder(FinalizeQuorum(s, q, c).value, order + [q.batchId])
  {
    FinalAnnouncement(s.events, q, c.blockNumber, c.chain.conversion.value);
    var more := FinalEvents(q, c.blockNumber, c.chain.conversion.value);
    OneMoreAnnounced(s, FinalizeQuorum(s, q, c).value, more[0], q, order);
  }

  lemma {:induction false} VoteAnnouncesNothing(s: Storage, s': Storage, c: Call, scope: QuorumScope,
      order: seq<BatchId>)
    requires AnnouncedInOrder(s, order) && MaybeAdded(s, s', c, scope)
    ensures AnnouncedInOrder(s', order)
  {
    if c.Can(scope) {
      AnnouncementsSnoc(s.events, s'.events[|s.events|]);
    }
  }

  /** The batch this call decides, if it does. */
  function DecidedBy(s: Storage, c: Call): seq<BatchId> {
    if c.batchId in Step(s, c).finalData && c.batchId !in s.finalData then [c.batchId] else []
  }

  /** The batches a run decides, in the order of the deciding calls. */
  function DecisionOrder(s: Storage, calls: seq<Call>): seq<BatchId>
    decreases |calls|
  {
    if calls == [] then [] else DecidedBy(s, calls[0]) + DecisionOrder(Step(s, calls[0]), calls[1..])
  }

  lemma {:induction false} StepAnnounces(s: Storage, c: Call, order: seq<BatchId>)
    requires AnnouncedInOrder(s, order)
    ensures AnnouncedInOrder(Step(s, c), order + DecidedBy(s, c))
  {
    if SubmitData(s, c).Ok? {
      var s1, s2 := AcceptedCall(s, c);
      VoteAnnouncesNothing(s, s1, c, Public, order);
      VoteAnnouncesNothing(s1, s2, c, Privileged, order);
      if Winner(c, s2).Some? {
        FinalizeAnnounces(s2, Decision(c, s2, Winner(c, s2).value), c, order);
        assert DecidedBy(s, c) == [c.batchId];
      } else {
        assert DecidedBy(s, c) == [] && order + [] == order;
      }
    } else {
      assert DecidedBy(s, c) == [] && order + [] == order;
    }
  }

  lemma {:induction false} OrderAssoc(a: seq<BatchId>, b: seq<BatchId>, c: seq<BatchId>)
    ensures a + b + c == a + (b + c)
  {
  }

  lemma {:induction false} RunAnnounces(s: Storage, calls: seq<Call>, order: seq<BatchId>)
    requires AnnouncedInOrder(s, order)
    ensures AnnouncedInOrder(Run(s, calls), order + DecisionOrder(s, calls))
    decreases |calls|
  {
    if calls == [] {
      assert order + [] == order;
    } else {
      var mine, rest := DecidedBy(s, calls[0]), DecisionOrder(Step(s, calls[0]), calls[1..]);
      StepAnnounces(s, calls[0], order);
      RunAnnounces(Step(s, calls[0]), calls[1..], order + mine);
      OrderAssoc(order, mine, rest);
    }
  }

  /** In every reachable state there is exactly one announcement per decision, in the order of the deciding calls. */
  lemma {:induction false} ReachableAnnounced(calls: seq<Call>)
    ensures AnnouncedInOrder(Run(GENESIS, calls), DecisionOrder(GENESIS, calls))
  {
    RunAnnounces(GENESIS, calls, []);
    assert [] + DecisionOrder(GENESIS, calls) == DecisionOrder(GENESIS, calls);
  }

  // ----- Thresholds -----

  /** All calls for the batch name the same table under the same thresholds. */
  ghost predicate Uniform(calls: seq<Call>, b: BatchId, t: TableIdentifier, q: InsertQuorumSize) {
    forall i :: 0 <= i < |calls| && calls[i].batchId == b ==> calls[i].table == t && calls[i].chain.QuorumOf(t) == q
  }

  ghost predicate ListWithin(s: Storage, b: BatchId, q: InsertQuorumSize, h: DataHash, scope: QuorumScope) {
    if q.OfScope(scope).Some? then |s.Votes(b, h, scope)| <= q.OfScope(scope).value else s.Votes(b, h, scope) == {}
  }

  ghost predicate WithinThreshold(s: Storage, b: BatchId, q: InsertQuorumSize) {
    if b in s.finalData then
      var r := s.finalData[b];
      && q.OfScope(r.scope).Some?
      && |r.agreements| == q.OfScope(r.scope).value + 1
      && |r.agreements| <= MAX_SUBMITTERS
    else
      forall h, scope :: ListWithin(s, b, q, h, scope)
  }

  /** The lists of the voted hash after both votes of a call. */
  lemma {:induction false} VotesAfterBoth(s: Storage, s1: Storage, s2: Storage, c: Call, h: DataHash,
      scope: QuorumScope)
    requires MaybeAdded(s, s1, c, Public) && MaybeAdded(s1, s2, c, Privileged)
    ensures s2.Votes(c.batchId, h, scope)
         == s.Votes(c.batchId, h, scope) + if h == c.Hash() && c.Can(scope) then {c.origin.who} else {}
    ensures h == c.Hash() && c.Can(scope) ==>
              |s2.Votes(c.batchId, h, scope)| == |s.Votes(c.batchId, h, scope)| + 1 <= MAX_SUBMITTERS
  {
    if c.Can(Public) {
      VotesAfter(s, s1, c, c.origin.who, Public, c.batchId, h, scope);
    }
    if c.Can(Privileged) {
      VotesAfter(s1, s2, c, c.origin.who, Privileged, c.batchId, h, scope);
    }
    if h == c.Hash() && c.Can(scope) {
      assert c.origin.who !in s.Votes(c.batchId, h, scope);
    }
  }

  lemma {:induction false} WinnerWithin(s: Storage, s1: Storage, s2: Storage, c: Call, q: InsertQuorumSize,
      w: QuorumScope)
    requires c.batchId !in s.finalData && WithinThreshold(s, c.batchId, q) && c.chain.QuorumOf(c.table) == q
    requires MaybeAdded(s, s1, c, Public) && MaybeAdded(s1, s2, c, Privileged) && ScopeDecides(c, w, s2)
    ensures |s2.Votes(c.batchId, c.Hash(), w)| == q.OfScope(w).value + 1 <= MAX_SUBMITTERS
  {
    VotesAfterBoth(s, s1, s2, c, c.Hash(), w);
    assert ListWithin(s, c.batchId, q, c.Hash(), w);
  }

  lemma {:induction false} PendingWithin(s: Storage, s1: Storage, s2: Storage, c: Call, q: InsertQuorumSize,
      h: DataHash,
      scope: QuorumScope)
    requires ListWithin(s, c.batchId, q, h, scope) && c.chain.QuorumOf(c.table) == q && !ScopeDecides(c, scope, s2)
    requires MaybeAdded(s, s1, c, Public) && MaybeAdded(s1, s2, c, Privileged)
    ensures ListWithin(s2, c.batchId, q, h, scope)
  {
    VotesAfterBoth(s, s1, s2, c, h, scope);
  }

  lemma {:induction false} StepWithinThreshold(s: Storage, c: Call, q: InsertQuorumSize)
    requires WithinThreshold(s, c.batchId, q) && c.chain.QuorumOf(c.table) == q
    ensures WithinThreshold(Step(s, c), c.batchId, q)
  {
    if SubmitData(s, c).Ok? {
      var s1, s2 := AcceptedCall(s, c);
      if Winner(c, s2).Some? {
        WinnerWithin(s, s1, s2, c, q, Winner(c, s2).value);
      } else {
        forall h, scope ensures ListWithin(s2, c.batchId, q, h, scope) {
          assert ListWithin(s, c.batchId, q, h, scope);
          assert !ScopeDecides(c, scope, s2);
          PendingWithin(s, s1, s2, c, q, h, scope);
        }
      }
    }
  }

  lemma {:induction false} RunWithinThreshold(s: Storage, calls: seq<Call>, b: BatchId, t: TableIdentifier,
      q: InsertQuorumSize)
    requires WithinThreshold(s, b, q) && Uniform(calls, b, t, q)
    ensures WithinThreshold(Run(s, calls), b, q)
    decreases |calls|
  {
    if calls != [] {
      var s' := Step(s, calls[0]);
      if calls[0].batchId == b {
        StepWithinThreshold(s, calls[0], q);
      } else {
        OtherBatchUntouched(s, calls[0], b);
        if b !in s.finalData {
          forall h, scope ensures ListWithin(s', b, q, h, scope) {
            assert ListWithin(s, b, q, h, scope);
          }
        }
      }
      RunWithinThreshold(s', calls[1..], b, t, q);
    }
  }

  /** Under fixed thresholds no pending list exceeds its own, and a decision has exactly threshold + 1 agreements;
      a threshold of 32 or more is out of reach. */
  lemma {:induction false} ReachableWithinThreshold(calls: seq<Call>, b: BatchId, t: TableIdentifier,
      q: InsertQuorumSize)
    requires Uniform(calls, b, t, q)
    ensures var s := Run(GENESIS, calls);
            && WithinThreshold(s, b, q)
            && (b in s.finalData ==> q.OfScope(s.finalData[b].scope).value < MAX_SUBMITTERS)
  {
    assert WithinThreshold(GENESIS, b, q);
    RunWithinThreshold(GENESIS, calls, b, t, q);
  }
}
