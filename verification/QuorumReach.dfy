/** Which fresh votes decide a batch, and when the order of the voters shows in the decision. */
module QuorumReach {
  import opened Common
  import opened Indexing
  import Permissions
  import opened QuorumRuns
  import opened QuorumDecisions

  /** One value of one batch, voted on for one table under fixed thresholds. */
  datatype Ballot = Ballot(b: BatchId, h: DataHash, t: TableIdentifier, q: InsertQuorumSize) {
    function PrivilegedSize(): nat {
      if q.privileged.Some? then q.privileged.value else 0
    }
  }

  ghost function Pub(s: Storage, k: Ballot): set<AccountId> {
    s.Votes(k.b, k.h, Public)
  }

  ghost function Priv(s: Storage, k: Ballot): set<AccountId> {
    s.Votes(k.b, k.h, Privileged)
  }

  /** The batch is undecided, its lists are within their thresholds and the public threshold can be exceeded. */
  ghost predicate Open(s: Storage, k: Ballot) {
    && k.b !in s.finalData && WithinThreshold(s, k.b, k.q)
    && |Priv(s, k)| <= MAX_SUBMITTERS
    && k.q.public.Some? && k.q.public.value < MAX_SUBMITTERS
  }

  lemma {:induction false} OpenBounds(s: Storage, k: Ballot)
    requires Open(s, k)
    ensures |Pub(s, k)| <= k.q.public.value && |Priv(s, k)| <= k.PrivilegedSize()
  {
    assert ListWithin(s, k.b, k.q, k.h, Public) && ListWithin(s, k.b, k.q, k.h, Privileged);
  }

  /** A public vote for the value that nothing but the current lists could reject. */
  ghost predicate GoodVote(c: Call, k: Ballot) {
    && c.origin.Signed? && c.batchId == k.b && c.table == k.t && c.Hash() == k.h
    && c.chain.QuorumOf(k.t) == k.q && c.Can(Public)
    && k.t.namespace != [] && k.t.name != [] && c.data != [] && k.b != [] && k.t in c.chain.schemas
    && c.chain.conversion.Ok?
  }

  ghost predicate NotVoted(s: Storage, c: Call, k: Ballot) {
    c.origin.Signed? && c.origin.who !in Pub(s, k) && c.origin.who !in Priv(s, k)
  }

  // ----- Voters -----

  function Signers(cs: seq<Call>): set<AccountId> {
    set c | c in cs && c.origin.Signed? :: c.origin.who
  }

  /** The voters who may vote in the privileged scope too. */
  function Dual(cs: seq<Call>): set<AccountId> {
    set c | c in cs && c.origin.Signed? && c.Can(Privileged) :: c.origin.who
  }

  /** Good votes of different accounts that have not voted for the value yet. */
  ghost predicate Fresh(s: Storage, cs: seq<Call>, k: Ballot) {
    && (forall c :: c in cs ==> GoodVote(c, k) && NotVoted(s, c, k))
    && |Signers(cs)| == |cs|
  }

  lemma {:induction false} SignersAppend(xs: seq<Call>, ys: seq<Call>)
    ensures Signers(xs + ys) == Signers(xs) + Signers(ys)
  {
    assert forall c :: c in xs + ys <==> c in xs || c in ys;
  }

  lemma {:induction false} SignersSize(cs: seq<Call>)
    ensures |Signers(cs)| <= |cs|
    decreases |cs|
  {
    if cs != [] {
      assert cs == [cs[0]] + cs[1..];
      SignersAppend([cs[0]], cs[1..]);
      SignersSize(cs[1..]);
      if cs[0].origin.Signed? {
        assert Signers([cs[0]]) == {cs[0].origin.who};
      } else {
        assert Signers([cs[0]]) == {};
      }
    }
  }

  /** A union as large as the two bounds together has disjoint parts of just those sizes. */
  lemma {:induction false} UnionSizes(x: set<AccountId>, y: set<AccountId>, n: nat, m: nat)
    requires |x| <= n && |y| <= m && |x + y| == n + m
    ensures |x| == n && |y| == m && x !! y
  {
    assert x + y == x + (y - x);
    assert |x + y| == |x| + |y - x|;
    assert y == (y - x) + (y * x);
    assert |y| == |y - x| + |y * x|;
  }

  lemma {:induction false} SignersHead(cs: seq<Call>)
    requires cs != [] && cs[0].origin.Signed?
    ensures Signers(cs) == {cs[0].origin.who} + Signers(cs[1..])
  {
    assert cs == [cs[0]] + cs[1..];
    assert Signers([cs[0]]) == {cs[0].origin.who};
    SignersAppend([cs[0]], cs[1..]);
  }

  /** Splitting a list of different voters splits the voters. */
  lemma {:induction false} SplitVoters(xs: seq<Call>, ys: seq<Call>)
    requires |Signers(xs + ys)| == |xs + ys|
    ensures |Signers(xs)| == |xs| && |Signers(ys)| == |ys| && Signers(xs) !! Signers(ys)
  {
    SignersAppend(xs, ys);
    SignersSize(xs);
    SignersSize(ys);
    UnionSizes(Signers(xs), Signers(ys), |xs|, |ys|);
  }

  lemma {:induction false} DualCons(cs: seq<Call>)
    requires cs != [] && cs[0].origin.Signed? && cs[0].origin.who !in Signers(cs[1..])
    ensures |Dual(cs)| == |Dual(cs[1..])| + if cs[0].Can(Privileged) then 1 else 0
  {
    var c, tail := cs[0], cs[1..];
    assert cs == [c] + tail;
    assert forall x :: x in cs <==> x == c || x in tail;
    assert c.origin.who !in Dual(tail);
    if c.Can(Privileged) {
      assert Dual(cs) == {c.origin.who} + Dual(tail);
    } else {
      assert Dual(cs) == Dual(tail);
    }
  }

  lemma {:induction false} FreshHead(s: Storage, cs: seq<Call>, k: Ballot)
    requires Fresh(s, cs, k) && cs != []
    ensures GoodVote(cs[0], k) && NotVoted(s, cs[0], k)
    ensures |Signers(cs[1..])| == |cs[1..]| && cs[0].origin.who !in Signers(cs[1..])
    ensures Signers(cs) == {cs[0].origin.who} + Signers(cs[1..])
    ensures |Dual(cs)| == |Dual(cs[1..])| + if cs[0].Can(Privileged) then 1 else 0
  {
    var c, tail := cs[0], cs[1..];
    assert c in cs && cs == [c] + tail;
    assert Signers([c]) == {c.origin.who};
    SignersAppend([c], tail);
    SplitVoters([c], tail);
    DualCons(cs);
  }

  lemma {:induction false} FreshTail(s: Storage, s': Storage, cs: seq<Call>, k: Ballot)
    requires Fresh(s, cs, k) && cs != [] && cs[0].origin.Signed?
    requires Pub(s', k) <= Pub(s, k) + {cs[0].origin.who} && Priv(s', k) <= Priv(s, k) + {cs[0].origin.who}
    ensures Fresh(s', cs[1..], k)
  {
    FreshHead(s, cs, k);
    forall c | c in cs[1..] ensures GoodVote(c, k) && NotVoted(s', c, k) {
      assert c in cs;
      assert c.origin.who in Signers(cs[1..]);
    }
  }

  lemma {:induction false} DualSize(cs: seq<Call>)
    ensures |Dual(cs)| <= |cs|
  {
    assert Dual(cs) <= Signers(cs);
    SubsetSize(Dual(cs), Signers(cs));
    SignersSize(cs);
  }

  // ----- One fresh vote -----

  /** The privileged list is full, so the call of a voter with both rights fails as a whole. */
  lemma {:induction false} RejectedVote(s: Storage, c: Call, k: Ballot)
    requires Open(s, k) && GoodVote(c, k) && c.Can(Privileged) && |Priv(s, k)| == MAX_SUBMITTERS
    ensures Step(s, c) == s
  {
    AcceptedIff(s, c);
  }

  ghost predicate DecidedAs(s: Storage, k: Ballot, scope: QuorumScope, agreements: set<AccountId>,
      dissents: set<AccountId>) {
    && k.b in s.finalData
    && var r := s.finalData[k.b];
    && r.table == k.t && r.dataHash == k.h && r.scope == scope
    && r.agreements == agreements && r.dissents == dissents
  }

  ghost function FirstDissenters(s: Storage, k: Ballot, scope: QuorumScope): set<AccountId> {
    First(Dissenters(s, k.b, k.h, scope), MAX_SUBMITTERS)
  }

  /** The lists as the vote leaves them, before any decision. */
  ghost predicate Voted(s: Storage, s2: Storage, c: Call, k: Ballot) {
    && c.origin.Signed?
    && Pub(s2, k) == Pub(s, k) + {c.origin.who} && |Pub(s2, k)| == |Pub(s, k)| + 1
    && (if c.Can(Privileged) then Priv(s2, k) == Priv(s, k) + {c.origin.who} && |Priv(s2, k)| == |Priv(s, k)| + 1
        else Priv(s2, k) == Priv(s, k))
    && forall scope :: FirstDissenters(s2, k, scope) == FirstDissenters(s, k, scope)
  }

  lemma {:induction false} DissentersKept(s: Storage, s1: Storage, s2: Storage, c: Call, scope: QuorumScope)
    requires MaybeAdded(s, s1, c, Public) && MaybeAdded(s1, s2, c, Privileged)
    ensures Dissenters(s2, c.batchId, c.Hash(), scope) == Dissenters(s, c.batchId, c.Hash(), scope)
  {
    if c.Can(Public) {
      VoteKeepsDissenters(s, s1, c, c.origin.who, Public, scope);
    }
    if c.Can(Privileged) {
      VoteKeepsDissenters(s1, s2, c, c.origin.who, Privileged, scope);
    }
  }

  lemma {:induction false} VotedBoth(s: Storage, s1: Storage, s2: Storage, c: Call, k: Ballot)
    requires GoodVote(c, k) && MaybeAdded(s, s1, c, Public) && MaybeAdded(s1, s2, c, Privileged)
    ensures Voted(s, s2, c, k) && s2.finalData == s.finalData
  {
    VotesAfterBoth(s, s1, s2, c, k.h, Public);
    VotesAfterBoth(s, s1, s2, c, k.h, Privileged);
    forall scope ensures FirstDissenters(s2, k, scope) == FirstDissenters(s, k, scope) {
      DissentersKept(s, s1, s2, c, scope);
    }
  }

  lemma {:induction false} GoodVoteAccepted(s: Storage, c: Call, k: Ballot)
    requires Open(s, k) && GoodVote(c, k) && NotVoted(s, c, k) && (c.Can(Privileged) ==> |Priv(s, k)| < MAX_SUBMITTERS)
    ensures SubmitData(s, c).Ok?
  {
    OpenBounds(s, k);
    AcceptedIff(s, c);
  }

  lemma {:induction false} VoteCounts(s: Storage, c: Call, k: Ballot) returns (s2: Storage)
    requires Open(s, k) && GoodVote(c, k) && NotVoted(s, c, k) && (c.Can(Privileged) ==> |Priv(s, k)| < MAX_SUBMITTERS)
    ensures Voted(s, s2, c, k) && WithinThreshold(Step(s, c), k.b, k.q)
    ensures var w := Winner(c, s2);
            if w.Some? then FinalizeQuorum(s2, Decision(c, s2, w.value), c) == Ok(Step(s, c)) else Step(s, c) == s2
    ensures s2.finalData == s.finalData
  {
    GoodVoteAccepted(s, c, k);
    StepWithinThreshold(s, c, k.q);
    var s1;
    s1, s2 := AcceptedCall(s, c);
    VotedBoth(s, s1, s2, c, k);
  }

  /** Past the public threshold the enlarged public list decides, whatever the privileged one does. */
  lemma {:induction false} PublicDecides(s: Storage, c: Call, k: Ballot)
    requires Open(s, k) && GoodVote(c, k) && NotVoted(s, c, k) && (c.Can(Privileged) ==> |Priv(s, k)| < MAX_SUBMITTERS)
    requires |Pub(s, k)| == k.q.public.value
    ensures DecidedAs(Step(s, c), k, Public, Pub(s, k) + {c.origin.who}, FirstDissenters(s, k, Public))
  {
    var s2 := VoteCounts(s, c, k);
    assert ScopeDecides(c, Public, s2);
    assert FirstDissenters(s2, k, Public) == FirstDissenters(s, k, Public);
  }

  lemma {:induction false} PrivilegedDecides(s: Storage, c: Call, k: Ballot)
    requires Open(s, k) && GoodVote(c, k) && NotVoted(s, c, k) && c.Can(Privileged) && |Priv(s, k)| < MAX_SUBMITTERS
    requires |Pub(s, k)| < k.q.public.value && |Priv(s, k)| == k.PrivilegedSize()
    ensures DecidedAs(Step(s, c), k, Privileged, Priv(s, k) + {c.origin.who}, FirstDissenters(s, k, Privileged))
  {
    var s2 := VoteCounts(s, c, k);
    assert !ScopeDecides(c, Public, s2) && ScopeDecides(c, Privileged, s2);
    assert FirstDissenters(s2, k, Privileged) == FirstDissenters(s, k, Privileged);
  }

  lemma {:induction false} NothingDecides(s: Storage, c: Call, k: Ballot)
    requires Open(s, k) && GoodVote(c, k) && NotVoted(s, c, k) && |Pub(s, k)| < k.q.public.value
    requires c.Can(Privileged) ==> |Priv(s, k)| < MAX_SUBMITTERS && |Priv(s, k)| < k.PrivilegedSize()
    ensures Voted(s, Step(s, c), c, k) && Open(Step(s, c), k)
  {
    var s2 := VoteCounts(s, c, k);
    assert !ScopeDecides(c, Public, s2) && !ScopeDecides(c, Privileged, s2);
  }

  // ----- Exactly which fresh votes decide -----

  /** With `a` public and `v` privileged votes so far, `n` voters of whom `d` have both rights: those beyond the room
      in the privileged list are lost to the public list as well. */
  predicate Reaches(a: int, v: int, n: int, d: int, publicSize: int, privilegedSize: int) {
    var room := if d <= MAX_SUBMITTERS - v then d else MAX_SUBMITTERS - v;
    a + n - d + room > publicSize || v + room > privilegedSize
  }

  ghost predicate WillDecide(s: Storage, cs: seq<Call>, k: Ballot)
    requires k.q.public.Some?
  {
    Reaches(|Pub(s, k)|, |Priv(s, k)|, |cs|, |Dual(cs)|, k.q.public.value, k.PrivilegedSize())
  }

  lemma {:induction false} TailWillDecide(s: Storage, s': Storage, cs: seq<Call>, k: Ballot)
    requires Open(s, k) && Fresh(s, cs, k) && cs != [] && k.q.public.Some?
    requires if cs[0].Can(Privileged) && |Priv(s, k)| == MAX_SUBMITTERS then s' == s else Voted(s, s', cs[0], k)
    ensures WillDecide(s', cs[1..], k) <==> WillDecide(s, cs, k)
  {
    FreshHead(s, cs, k);
    OpenBounds(s, k);
  }

  lemma {:induction false} HeadWillDecide(s: Storage, cs: seq<Call>, k: Ballot)
    requires Open(s, k) && Fresh(s, cs, k) && cs != []
    requires cs[0].Can(Privileged) ==> |Priv(s, k)| < MAX_SUBMITTERS
    requires |Pub(s, k)| == k.q.public.value || (cs[0].Can(Privileged) && |Priv(s, k)| == k.PrivilegedSize())
    ensures WillDecide(s, cs, k)
  {
    FreshHead(s, cs, k);
    DualSize(cs[1..]);
    OpenBounds(s, k);
  }

  /** Fresh public votes for one value decide an open batch exactly when they are enough for one of the thresholds,
      not counting the calls that fail because the privileged list is full. */
  lemma {:induction false} FreshVotesDecideIff(s: Storage, cs: seq<Call>, k: Ballot)
    requires Open(s, k) && Fresh(s, cs, k)
    ensures k.b in Run(s, cs).finalData <==> WillDecide(s, cs, k)
    decreases |cs|
  {
    OpenBounds(s, k);
    if cs == [] {
      assert Dual(cs) == {};
    } else {
      var c, s' := cs[0], Step(s, cs[0]);
      FreshHead(s, cs, k);
      if c.Can(Privileged) && |Priv(s, k)| == MAX_SUBMITTERS {
        RejectedVote(s, c, k);
        TailWillDecide(s, s', cs, k);
        FreshTail(s, s', cs, k);
        FreshVotesDecideIff(s', cs[1..], k);
      } else if |Pub(s, k)| == k.q.public.value {
        PublicDecides(s, c, k);
        HeadWillDecide(s, cs, k);
        DecidedForever(s', cs[1..], k.b);
      } else if c.Can(Privileged) && |Priv(s, k)| == k.PrivilegedSize() {
        PrivilegedDecides(s, c, k);
        HeadWillDecide(s, cs, k);
        DecidedForever(s', cs[1..], k.b);
      } else {
        NothingDecides(s, c, k);
        TailWillDecide(s, s', cs, k);
        FreshTail(s, s', cs, k);
        FreshVotesDecideIff(s', cs[1..], k);
      }
    }
  }

  lemma {:induction false} ReachableOpen(calls: seq<Call>, k: Ballot)
    requires Uniform(calls, k.b, k.t, k.q) && k.b !in Run(GENESIS, calls).finalData
    requires k.q.public.Some? && k.q.public.value < MAX_SUBMITTERS
    ensures Open(Run(GENESIS, calls), k)
  {
    ReachableWithinThreshold(calls, k.b, k.t, k.q);
    ReachableRefinesLog(calls);
  }

  /** From every undecided reachable state, threshold + 1 fresh public votes for one value decide the batch exactly
      when the privileged threshold is below 32 or the privileged list leaves enough room for them. */
  lemma {:induction false} ReachableCanDecideIff(calls: seq<Call>, cs: seq<Call>, k: Ballot)
    requires Uniform(calls, k.b, k.t, k.q) && k.b !in Run(GENESIS, calls).finalData
    requires k.q.public.Some? && k.q.public.value < MAX_SUBMITTERS && |cs| == k.q.public.value + 1
    requires Fresh(Run(GENESIS, calls), cs, k)
    ensures var s := Run(GENESIS, calls);
            k.b in Run(GENESIS, calls + cs).finalData <==>
            k.PrivilegedSize() < MAX_SUBMITTERS || |Priv(s, k)| + |Dual(cs)| <= |Pub(s, k)| + MAX_SUBMITTERS
  {
    var s := Run(GENESIS, calls);
    ReachableOpen(calls, k);
    OpenBounds(s, k);
    DualSize(cs);
    RunAppend(GENESIS, calls, cs);
    FreshVotesDecideIff(s, cs, k);
  }

  // ----- A full privileged list -----

  const PUBLIC_RIGHT := Permissions.IndexingPallet(Permissions.SubmitDataForPublicQuorum)
  const PRIVILEGED_RIGHT := Permissions.IndexingPallet(Permissions.SubmitDataForPrivilegedQuorum(SOME_TABLE))
  const SOME_TABLE := TableIdentifier([84], [84])

  function ChainWith(grants: Permissions.Grants, q: InsertQuorumSize): Chain {
    Chain(grants, map[SOME_TABLE := q], {SOME_TABLE}, 1, Ok(Insert(None, 1, [1], true)))
  }

  function VoteOf(who: AccountId, chain: Chain): Call {
    Call(Signed(who), SOME_TABLE, [1], [7], None, chain)
  }

  function SomeBallot(q: InsertQuorumSize): Ballot {
    Ballot([1], DataHash([7], None), SOME_TABLE, q)
  }

  /** Accounts 0 .. 31 may vote in the privileged scope only, account 32 in both. */
  const CROWD: Permissions.Grants :=
    map a: AccountId | 0 <= a < 33 :: if a < 32 then [PRIVILEGED_RIGHT] else [PUBLIC_RIGHT, PRIVILEGED_RIGHT]

  const CROWD_SIZES := InsertQuorumSize(Some(0), Some(32))

  function CrowdVotes(n: nat): seq<Call> {
    seq(n, i requires 0 <= i < n => VoteOf(i, ChainWith(CROWD, CROWD_SIZES)))
  }

  lemma {:induction false} CrowdRights(who: AccountId)
    requires who < 33
    ensures var c := VoteOf(who, ChainWith(CROWD, CROWD_SIZES)); c.Can(Privileged) && (c.Can(Public) <==> who == 32)
  {
    assert CROWD[who] == if who < 32 then [PRIVILEGED_RIGHT] else [PUBLIC_RIGHT, PRIVILEGED_RIGHT];
    assert PUBLIC_RIGHT in [PUBLIC_RIGHT, PRIVILEGED_RIGHT] && PRIVILEGED_RIGHT in [PUBLIC_RIGHT, PRIVILEGED_RIGHT];
  }

  ghost predicate Filled(s: Storage, n: nat) {
    var k := SomeBallot(CROWD_SIZES);
    k.b !in s.finalData && Pub(s, k) == {} && |Priv(s, k)| == n && forall a :: a in Priv(s, k) ==> a < n
  }

  lemma {:induction false} CrowdVote(s: Storage, n: nat)
    requires n < 32 && Filled(s, n)
    ensures Filled(Step(s, VoteOf(n, ChainWith(CROWD, CROWD_SIZES))), n + 1)
  {
    var k, c := SomeBallot(CROWD_SIZES), VoteOf(n, ChainWith(CROWD, CROWD_SIZES));
    CrowdRights(n);
    AcceptedIff(s, c);
    var s1, s2 := AcceptedCall(s, c);
    VotesAfterBoth(s, s1, s2, c, k.h, Public);
    VotesAfterBoth(s, s1, s2, c, k.h, Privileged);
  }

  lemma {:induction false} CrowdUniform(n: nat)
    ensures Uniform(CrowdVotes(n), [1], SOME_TABLE, CROWD_SIZES)
  {
  }

  lemma {:induction false} CrowdFills(n: nat)
    requires n <= 32
    ensures Filled(Run(GENESIS, CrowdVotes(n)), n)
  {
    if n > 0 {
      CrowdFills(n - 1);
      var s, last := Run(GENESIS, CrowdVotes(n - 1)), VoteOf(n - 1, ChainWith(CROWD, CROWD_SIZES));
      assert CrowdVotes(n) == CrowdVotes(n - 1) + [last];
      RunAppend(GENESIS, CrowdVotes(n - 1), [last]);
      CrowdVote(s, n - 1);
      assert [last][1..] == [];
      assert Run(s, [last]) == Step(s, last);
    }
  }

  /** Threshold + 1 fresh voters who decide nothing: the privileged list is full under a threshold of 32, and the
      call of a voter with both rights is rejected together with its public vote. */
  lemma {:induction false} FullListBlocksPublic() returns (calls: seq<Call>, cs: seq<Call>, k: Ballot)
    ensures Uniform(calls, k.b, k.t, k.q) && k.q.public.Some? && k.q.public.value < MAX_SUBMITTERS
    ensures |cs| == k.q.public.value + 1 && Fresh(Run(GENESIS, calls), cs, k)
    ensures k.b !in Run(GENESIS, calls + cs).finalData
  {
    k := SomeBallot(CROWD_SIZES);
    calls, cs := CrowdVotes(32), [VoteOf(32, ChainWith(CROWD, CROWD_SIZES))];
    CrowdUniform(32);
    CrowdFills(32);
    CrowdRights(32);
    LoneVote(Run(GENESIS, calls), cs[0], k);
    ReachableCanDecideIff(calls, cs, k);
  }

  lemma {:induction false} LoneVote(s: Storage, c: Call, k: Ballot)
    requires GoodVote(c, k) && NotVoted(s, c, k) && c.Can(Privileged)
    ensures Fresh(s, [c], k) && |Dual([c])| == 1
  {
    assert c in [c];
    assert Signers([c]) == {c.origin.who} == Dual([c]);
  }
}
