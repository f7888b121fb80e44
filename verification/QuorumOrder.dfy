/** When the order in which the missing voters arrive shows in the decision. */
module QuorumOrder {
  import opened Common
  import opened Indexing
  import opened QuorumRuns
  import opened QuorumDecisions
  import opened QuorumReach

  /** `cs` are fresh public votes, exactly as many as the public list still lacks. */
  ghost predicate Missing(s: Storage, cs: seq<Call>, k: Ballot) {
    Open(s, k) && Fresh(s, cs, k) && |Pub(s, k)| + |cs| == k.q.public.value + 1
  }

  /** Agreements and dissents of the batch, if it is decided. */
  ghost function Outcome(s: Storage, b: BatchId): Option<(set<AccountId>, set<AccountId>)> {
    if b in s.finalData then Some((s.finalData[b].agreements, s.finalData[b].dissents)) else None
  }

  /** The privileged list stays within its threshold, or exceeds it only with the very last vote, or never can. */
  ghost predicate Quiet(s: Storage, cs: seq<Call>, k: Ballot) {
    var v, d, p := |Priv(s, k)|, |Dual(cs)|, k.PrivilegedSize();
    p >= MAX_SUBMITTERS || v + d <= p || (d == |cs| && v + d == p + 1)
  }

  lemma {:induction false} MissingHead(s: Storage, cs: seq<Call>, k: Ballot)
    requires Missing(s, cs, k)
    ensures cs != [] && GoodVote(cs[0], k) && NotVoted(s, cs[0], k)
    ensures |Dual(cs)| == |Dual(cs[1..])| + if cs[0].Can(Privileged) then 1 else 0
    ensures Signers(cs) == {cs[0].origin.who} + Signers(cs[1..])
    ensures |Priv(s, k)| <= k.PrivilegedSize()
  {
    OpenBounds(s, k);
    FreshHead(s, cs, k);
  }

  /** A vote that decides nothing leaves the remaining calls missing. */
  lemma {:induction false} MissingStep(s: Storage, cs: seq<Call>, k: Ballot) returns (s': Storage)
    requires Missing(s, cs, k) && |cs| > 1
    requires cs[0].Can(Privileged) ==> |Priv(s, k)| < MAX_SUBMITTERS && |Priv(s, k)| < k.PrivilegedSize()
    ensures Missing(s', cs[1..], k) && Voted(s, s', cs[0], k) && Run(s, cs) == Run(s', cs[1..])
    ensures s' == Step(s, cs[0])
  {
    MissingHead(s, cs, k);
    NothingDecides(s, cs[0], k);
    s' := Step(s, cs[0]);
    FreshTail(s, s', cs, k);
  }

  /** What a vote adds to the lists it takes from the voters still to come. */
  lemma {:induction false} VoteMoves(s: Storage, s': Storage, cs: seq<Call>, k: Ballot)
    requires Missing(s, cs, k) && cs != [] && Voted(s, s', cs[0], k)
    ensures Pub(s', k) + Signers(cs[1..]) == Pub(s, k) + Signers(cs)
    ensures |Priv(s', k)| + |Dual(cs[1..])| == |Priv(s, k)| + |Dual(cs)|
    ensures FirstDissenters(s', k, Public) == FirstDissenters(s, k, Public)
  {
    MissingHead(s, cs, k);
    UnionAssoc(Pub(s, k), {cs[0].origin.who}, Signers(cs[1..]));
  }

  lemma {:induction false} QuietHead(s: Storage, cs: seq<Call>, k: Ballot)
    requires Missing(s, cs, k) && Quiet(s, cs, k) && |cs| > 1 && |Priv(s, k)| + |Dual(cs)| <= MAX_SUBMITTERS
    ensures cs[0].Can(Privileged) ==> |Priv(s, k)| < MAX_SUBMITTERS && |Priv(s, k)| < k.PrivilegedSize()
  {
    MissingHead(s, cs, k);
  }

  lemma {:induction false} LastDecides(s: Storage, cs: seq<Call>, k: Ballot)
    requires Missing(s, cs, k) && |cs| == 1 && |Priv(s, k)| + |Dual(cs)| <= MAX_SUBMITTERS
    ensures DecidedAs(Run(s, cs), k, Public, Pub(s, k) + Signers(cs), FirstDissenters(s, k, Public))
  {
    MissingHead(s, cs, k);
    PublicDecides(s, cs[0], k);
    assert cs[1..] == [] && Signers(cs[1..]) == {};
  }

  lemma {:induction false} QuietTail(s: Storage, s': Storage, cs: seq<Call>, k: Ballot)
    requires Missing(s, cs, k) && Quiet(s, cs, k) && |cs| > 1 && |Priv(s, k)| + |Dual(cs)| <= MAX_SUBMITTERS
    requires Voted(s, s', cs[0], k)
    ensures Quiet(s', cs[1..], k)
  {
    MissingHead(s, cs, k);
    DualSize(cs[1..]);
  }

  // ----- Orders that do not show -----

  /** With a quiet privileged list that has room, the public list decides with all the voters. */
  lemma {:induction false} MissingVotesDecision(s: Storage, cs: seq<Call>, k: Ballot)
    requires Missing(s, cs, k) && Quiet(s, cs, k) && |Priv(s, k)| + |Dual(cs)| <= MAX_SUBMITTERS
    ensures DecidedAs(Run(s, cs), k, Public, Pub(s, k) + Signers(cs), FirstDissenters(s, k, Public))
    decreases |cs|
  {
    MissingHead(s, cs, k);
    if |cs| == 1 {
      LastDecides(s, cs, k);
    } else {
      QuietHead(s, cs, k);
      var s' := MissingStep(s, cs, k);
      QuietTail(s, s', cs, k);
      VoteMoves(s, s', cs, k);
      MissingVotesDecision(s', cs[1..], k);
    }
  }

  /** Membership and number are all that freshness looks at. */
  lemma {:induction false} Reordered(s: Storage, cs: seq<Call>, ds: seq<Call>, k: Ballot)
    requires multiset(cs) == multiset(ds) && Missing(s, cs, k)
    ensures Missing(s, ds, k) && |cs| == |ds| && Dual(ds) == Dual(cs) && Signers(ds) == Signers(cs)
  {
    assert |multiset(cs)| == |multiset(ds)|;
    forall c ensures c in ds <==> c in cs {
      assert c in ds <==> c in multiset(ds);
      assert c in cs <==> c in multiset(cs);
    }
    assert Signers(ds) == Signers(cs) && Dual(ds) == Dual(cs);
  }

  lemma {:induction false} QuietOrder(s: Storage, cs: seq<Call>, ds: seq<Call>, k: Ballot)
    requires Missing(s, cs, k) && Quiet(s, cs, k) && multiset(cs) == multiset(ds)
    ensures Outcome(Run(s, ds), k.b) == Outcome(Run(s, cs), k.b)
  {
    Reordered(s, cs, ds, k);
    if |Priv(s, k)| + |Dual(cs)| <= MAX_SUBMITTERS {
      MissingVotesDecision(s, cs, k);
      MissingVotesDecision(s, ds, k);
    } else {
      FreshVotesDecideIff(s, cs, k);
      FreshVotesDecideIff(s, ds, k);
    }
  }

  // ----- Orders that do -----

  lemma {:induction false} UnionAssoc(a: set<AccountId>, b: set<AccountId>, c: set<AccountId>)
    ensures a + b + c == a + (b + c)
  {
  }

  lemma {:induction false} Prefix(cs: seq<Call>, j: nat)
    requires 0 < j <= |cs|
    ensures cs[..j][0] == cs[0] && cs[..j][1..] == cs[1..][..j - 1] && cs[j..] == cs[1..][j - 1..]
    ensures forall i :: 0 <= i < j - 1 ==> cs[1..][i] == cs[i + 1]
  {
  }

  lemma {:induction false} PrefixSigners(cs: seq<Call>, j: nat)
    requires 0 < j <= |cs| && cs[0].origin.Signed?
    ensures Signers(cs[..j]) == {cs[0].origin.who} + Signers(cs[1..][..j - 1])
  {
    Prefix(cs, j);
    SignersHead(cs[..j]);
  }

  ghost predicate AgreedBy(s: Storage, b: BatchId, agreements: set<AccountId>) {
    b in s.finalData && s.finalData[b].agreements == agreements
  }

  lemma {:induction false} PrivilegedNow(s: Storage, cs: seq<Call>, k: Ballot)
    requires Missing(s, cs, k) && |cs| > 1 && cs[0].Can(Privileged)
    requires k.PrivilegedSize() < MAX_SUBMITTERS && |Priv(s, k)| == k.PrivilegedSize()
    ensures AgreedBy(Run(s, cs), k.b, Priv(s, k) + Signers(cs[..1]))
  {
    MissingHead(s, cs, k);
    FirstSigner(cs);
    PrivilegedDecides(s, cs[0], k);
    DecidedForever(Step(s, cs[0]), cs[1..], k.b);
  }

  lemma {:induction false} FirstSigner(cs: seq<Call>)
    requires cs != [] && cs[0].origin.Signed?
    ensures Signers(cs[..1]) == {cs[0].origin.who}
  {
    assert cs[..1] == [cs[0]];
  }

  ghost predicate RightsFirst(cs: seq<Call>, j: nat) {
    j <= |cs| && forall i :: 0 <= i < j ==> cs[i].Can(Privileged)
  }

  lemma {:induction false} RightsTail(cs: seq<Call>, j: nat)
    requires 0 < j <= |cs| && RightsFirst(cs, j)
    ensures cs[0].Can(Privileged) && RightsFirst(cs[1..], j - 1)
  {
    forall i | 0 <= i < j - 1 ensures cs[1..][i].Can(Privileged) {
      assert cs[1..][i] == cs[i + 1];
    }
  }

  lemma {:induction false} PrivilegedMoves(s: Storage, s': Storage, cs: seq<Call>, j: nat, k: Ballot)
    requires 1 < j <= |cs| && Voted(s, s', cs[0], k) && cs[0].Can(Privileged)
    ensures |Priv(s', k)| + j - 1 == |Priv(s, k)| + j
    ensures Priv(s', k) + Signers(cs[1..][..j - 1]) == Priv(s, k) + Signers(cs[..j])
  {
    PrefixSigners(cs, j);
    UnionAssoc(Priv(s, k), {cs[0].origin.who}, Signers(cs[1..][..j - 1]));
  }

  /** The first `j` of the missing voters have both rights and are what the privileged list lacks. */
  ghost predicate DualFirst(s: Storage, cs: seq<Call>, j: nat, k: Ballot) {
    && Missing(s, cs, k) && 0 < j < |cs| && RightsFirst(cs, j)
    && k.PrivilegedSize() < MAX_SUBMITTERS && |Priv(s, k)| + j == k.PrivilegedSize() + 1
  }

  lemma {:induction false} DualStep(s: Storage, cs: seq<Call>, j: nat, k: Ballot) returns (s': Storage)
    requires DualFirst(s, cs, j, k) && j > 1
    ensures DualFirst(s', cs[1..], j - 1, k) && Run(s, cs) == Run(s', cs[1..])
    ensures Priv(s', k) + Signers(cs[1..][..j - 1]) == Priv(s, k) + Signers(cs[..j])
  {
    RightsTail(cs, j);
    s' := MissingStep(s, cs, k);
    PrivilegedMoves(s, s', cs, j, k);
  }

  /** They decide there. */
  lemma {:induction false} PrivilegedFirst(s: Storage, cs: seq<Call>, j: nat, k: Ballot)
    requires DualFirst(s, cs, j, k)
    ensures AgreedBy(Run(s, cs), k.b, Priv(s, k) + Signers(cs[..j]))
    decreases j
  {
    if j == 1 {
      RightsTail(cs, j);
      PrivilegedNow(s, cs, k);
    } else {
      var s' := DualStep(s, cs, j, k);
      PrivilegedFirst(s', cs[1..], j - 1, k);
    }
  }

  /** If the first `j` voters have no privileged right, they leave the privileged list alone. */
  lemma {:induction false} PublicFirst(s: Storage, cs: seq<Call>, j: nat, k: Ballot)
    requires Missing(s, cs, k) && j < |cs| && forall i :: 0 <= i < j ==> !cs[i].Can(Privileged)
    ensures var s' := Run(s, cs[..j]);
            Missing(s', cs[j..], k) && Priv(s', k) == Priv(s, k) && Pub(s', k) == Pub(s, k) + Signers(cs[..j])
    decreases |cs|
  {
    if j == 0 {
      assert cs[..0] == [] && cs[0..] == cs && Signers([]) == {};
    } else {
      var c := cs[0];
      MissingHead(s, cs, k);
      var s' := MissingStep(s, cs, k);
      Prefix(cs, j);
      PublicFirst(s', cs[1..], j - 1, k);
      PrefixSigners(cs, j);
      UnionAssoc(Pub(s, k), {c.origin.who}, Signers(cs[1..][..j - 1]));
      assert Run(s, cs[..j]) == Run(s', cs[1..][..j - 1]);
    }
  }

  function WithRight(cs: seq<Call>, right: bool): (r: seq<Call>)
    ensures forall c :: c in r ==> c in cs && c.Can(Privileged) == right
    decreases |cs|
  {
    if cs == [] then []
    else (if cs[0].Can(Privileged) == right then [cs[0]] else []) + WithRight(cs[1..], right)
  }

  lemma {:induction false} Partition(cs: seq<Call>)
    ensures multiset(WithRight(cs, true) + WithRight(cs, false)) == multiset(cs)
    decreases |cs|
  {
    if cs != [] {
      Partition(cs[1..]);
      assert cs == [cs[0]] + cs[1..];
    }
  }

  lemma {:induction false} DualAre(s: Storage, cs: seq<Call>, k: Ballot)
    requires Fresh(s, cs, k)
    ensures |WithRight(cs, true)| == |Dual(cs)|
    decreases |cs|
  {
    if cs == [] {
      assert Dual(cs) == {};
    } else {
      FreshHead(s, cs, k);
      FreshTail(s, s, cs, k);
      DualAre(s, cs[1..], k);
    }
  }

  lemma {:induction false} VoterIn(c: Call, cs: seq<Call>)
    requires c in cs && c.origin.Signed?
    ensures c.origin.who in Signers(cs)
  {
  }

  /** More voters with both rights than the privileged list lacks: whichever come first are the agreements. */
  lemma {:induction false} RotationShows(s: Storage, xs: seq<Call>, ys: seq<Call>, k: Ballot, j: nat)
    requires Missing(s, xs + ys, k) && (forall c :: c in xs ==> c.Can(Privileged)) && 0 < j < |xs|
    requires k.PrivilegedSize() < MAX_SUBMITTERS && |Priv(s, k)| + j == k.PrivilegedSize() + 1
    ensures var zs := xs[1..] + [xs[0]] + ys;
            multiset(zs) == multiset(xs + ys) && Outcome(Run(s, zs), k.b) != Outcome(Run(s, xs + ys), k.b)
  {
    var cs, zs := xs + ys, xs[1..] + [xs[0]] + ys;
    Rotation(xs, ys, j);
    Reordered(s, cs, zs, k);
    PrivilegedFirst(s, cs, j, k);
    PrivilegedFirst(s, zs, j, k);
    HeadDiffers(s, cs, zs[..j], j, k);
  }

  lemma {:induction false} Rotation(xs: seq<Call>, ys: seq<Call>, j: nat)
    requires 0 < j < |xs| && forall c :: c in xs ==> c.Can(Privileged)
    ensures var cs, zs := xs + ys, xs[1..] + [xs[0]] + ys;
            && multiset(zs) == multiset(cs) && |zs| == |cs|
            && (forall i :: 0 <= i < j ==> cs[i].Can(Privileged) && zs[i].Can(Privileged))
            && zs[..j] == cs[1..][..j]
  {
    var cs, zs := xs + ys, xs[1..] + [xs[0]] + ys;
    assert xs == [xs[0]] + xs[1..];
    forall i | 0 <= i < j ensures cs[i].Can(Privileged) && zs[i].Can(Privileged) {
      assert cs[i] == xs[i] && zs[i] == xs[i + 1];
    }
  }

  /** The first voter is among the first `j` and not among the `j` after it. */
  lemma {:induction false} HeadDiffers(s: Storage, cs: seq<Call>, part: seq<Call>, j: nat, k: Ballot)
    requires Fresh(s, cs, k) && 0 < j < |cs| && part == cs[1..][..j]
    ensures Priv(s, k) + Signers(cs[..j]) != Priv(s, k) + Signers(part)
  {
    FreshHead(s, cs, k);
    PrefixSigners(cs, j);
    SignersOfPrefix(cs[1..], j);
    MemberDiffers(cs[0].origin.who, Priv(s, k), Signers(cs[..j]), Signers(part));
  }

  lemma {:induction false} SignersOfPrefix(cs: seq<Call>, j: nat)
    requires j <= |cs|
    ensures Signers(cs[..j]) <= Signers(cs)
  {
    assert cs == cs[..j] + cs[j..];
    SignersAppend(cs[..j], cs[j..]);
  }

  lemma {:induction false} MemberDiffers(x: AccountId, a: set<AccountId>, b: set<AccountId>, c: set<AccountId>)
    requires x in b && x !in a && x !in c
    ensures a + b != a + c
  {
    assert x in a + b;
  }

  /** As many as it lacks: with the others in front the last vote reaches both thresholds and the public list wins. */
  lemma {:induction false} OthersFirstShows(s: Storage, xs: seq<Call>, ys: seq<Call>, k: Ballot)
    requires Missing(s, xs + ys, k) && xs != [] && ys != []
    requires (forall c :: c in xs ==> c.Can(Privileged)) && (forall c :: c in ys ==> !c.Can(Privileged))
    requires k.PrivilegedSize() < MAX_SUBMITTERS && |Priv(s, k)| + |xs| == k.PrivilegedSize() + 1
    ensures multiset(ys + xs) == multiset(xs + ys) && Outcome(Run(s, ys + xs), k.b) != Outcome(Run(s, xs + ys), k.b)
  {
    assert multiset(ys + xs) == multiset(ys) + multiset(xs) == multiset(xs + ys);
    Reordered(s, xs + ys, ys + xs, k);
    assert (xs + ys)[..|xs|] == xs;
    PrivilegedFirst(s, xs + ys, |xs|, k);
    OthersThenDual(s, ys, xs, k);
    var c := ys[0];
    assert c in ys && c in xs + ys && NotVoted(s, c, k);
    VoterIn(c, ys);
    SplitVoters(xs, ys);
    assert c.origin.who !in Priv(s, k) + Signers(xs);
  }

  lemma {:induction false} OthersThenDual(s: Storage, ys: seq<Call>, xs: seq<Call>, k: Ballot)
    requires Missing(s, ys + xs, k) && xs != []
    requires (forall c :: c in xs ==> c.Can(Privileged)) && (forall c :: c in ys ==> !c.Can(Privileged))
    requires k.PrivilegedSize() < MAX_SUBMITTERS && |Priv(s, k)| + |xs| == k.PrivilegedSize() + 1
    ensures AgreedBy(Run(s, ys + xs), k.b, Pub(s, k) + Signers(ys) + Signers(xs))
  {
    assert (ys + xs)[..|ys|] == ys && (ys + xs)[|ys|..] == xs;
    PublicFirst(s, ys + xs, |ys|, k);
    RunAppend(s, ys, xs);
    AllDual(Run(s, ys), xs, k);
    MissingVotesDecision(Run(s, ys), xs, k);
  }

  lemma {:induction false} AllDual(s: Storage, cs: seq<Call>, k: Ballot)
    requires Fresh(s, cs, k) && forall c :: c in cs ==> c.Can(Privileged)
    ensures |Dual(cs)| == |cs|
  {
    assert Dual(cs) == Signers(cs);
  }

  lemma {:induction false} LoudOrder(s: Storage, cs: seq<Call>, k: Ballot) returns (xs: seq<Call>, ys: seq<Call>)
    requires Missing(s, cs, k) && !Quiet(s, cs, k)
    ensures multiset(xs) == multiset(cs) == multiset(ys) && Outcome(Run(s, xs), k.b) != Outcome(Run(s, ys), k.b)
  {
    var dual, plain := WithRight(cs, true), WithRight(cs, false);
    Partition(cs);
    Reordered(s, cs, dual + plain, k);
    DualAre(s, cs, k);
    OpenBounds(s, k);
    var j := k.PrivilegedSize() + 1 - |Priv(s, k)|;
    xs := dual + plain;
    if j < |dual| {
      RotationShows(s, dual, plain, k, j);
      ys := dual[1..] + [dual[0]] + plain;
    } else {
      OthersFirstShows(s, dual, plain, k);
      ys := plain + dual;
    }
  }

  /** All orders of the missing voters give the same agreements and dissents exactly when the privileged list is
      quiet: it cannot be exceeded, is not exceeded, or is exceeded only with the vote that decides publicly. */
  lemma {:induction false} OrderDoesNotMatterIff(s: Storage, cs: seq<Call>, k: Ballot)
    requires Missing(s, cs, k)
    ensures (forall ds :: multiset(ds) == multiset(cs) ==> Outcome(Run(s, ds), k.b) == Outcome(Run(s, cs), k.b))
       <==> Quiet(s, cs, k)
  {
    if Quiet(s, cs, k) {
      forall ds | multiset(ds) == multiset(cs) ensures Outcome(Run(s, ds), k.b) == Outcome(Run(s, cs), k.b) {
        QuietOrder(s, cs, ds, k);
      }
    } else {
      var xs, ys := LoudOrder(s, cs, k);
    }
  }

  // ----- An order that shows, from genesis -----

  /** Account 1 may vote publicly, account 2 in both scopes. */
  const PAIR := map[1 := [PUBLIC_RIGHT], 2 := [PUBLIC_RIGHT, PRIVILEGED_RIGHT]]
  const PAIR_SIZES := InsertQuorumSize(Some(1), Some(0))

  lemma {:induction false} PairRights(who: AccountId)
    requires who == 1 || who == 2
    ensures var c := VoteOf(who, ChainWith(PAIR, PAIR_SIZES)); c.Can(Public) && (c.Can(Privileged) <==> who == 2)
  {
    assert PUBLIC_RIGHT in PAIR[1] && PRIVILEGED_RIGHT !in PAIR[1];
    assert PUBLIC_RIGHT in PAIR[2] && PRIVILEGED_RIGHT in PAIR[2];
  }

  /** Under thresholds 1 and 0, voter 1 before voter 2 decides publicly with both, voter 2 first decides alone. */
  lemma {:induction false} TwoScopesOrderShows()
    ensures var one, two := VoteOf(1, ChainWith(PAIR, PAIR_SIZES)), VoteOf(2, ChainWith(PAIR, PAIR_SIZES));
            var k := SomeBallot(PAIR_SIZES);
            && Missing(GENESIS, [one, two], k)
            && AgreedBy(Run(GENESIS, [one, two]), k.b, {1, 2}) && AgreedBy(Run(GENESIS, [two, one]), k.b, {2})
  {
    var one, two := VoteOf(1, ChainWith(PAIR, PAIR_SIZES)), VoteOf(2, ChainWith(PAIR, PAIR_SIZES));
    PairRights(1);
    PairRights(2);
    TwoMissing(one, two, SomeBallot(PAIR_SIZES));
    OrderOfTwo(one, two, SomeBallot(PAIR_SIZES));
    OtherOrderOfTwo(one, two, SomeBallot(PAIR_SIZES));
  }

  lemma {:induction false} OrderOfTwo(one: Call, two: Call, k: Ballot)
    requires GoodVote(one, k) && GoodVote(two, k) && one.origin.who != two.origin.who
    requires !one.Can(Privileged) && two.Can(Privileged) && k.q == PAIR_SIZES
    ensures AgreedBy(Run(GENESIS, [one, two]), k.b, {one.origin.who, two.origin.who})
  {
    TwoMissing(one, two, k);
    LoneSigner(one);
    LoneSigner(two);
    assert [one] + [two] == [one, two];
    OthersThenDual(GENESIS, [one], [two], k);
    assert {} + {one.origin.who} + {two.origin.who} == {one.origin.who, two.origin.who};
  }

  lemma {:induction false} OtherOrderOfTwo(one: Call, two: Call, k: Ballot)
    requires GoodVote(one, k) && GoodVote(two, k) && one.origin.who != two.origin.who
    requires two.Can(Privileged) && k.q == PAIR_SIZES
    ensures AgreedBy(Run(GENESIS, [two, one]), k.b, {two.origin.who})
  {
    TwoMissing(two, one, k);
    PrivilegedNow(GENESIS, [two, one], k);
    FirstSigner([two, one]);
    assert {} + {two.origin.who} == {two.origin.who};
  }

  lemma {:induction false} LoneSigner(c: Call)
    requires c.origin.Signed?
    ensures Signers([c]) == {c.origin.who}
  {
  }

  lemma {:induction false} TwoMissing(c: Call, d: Call, k: Ballot)
    requires GoodVote(c, k) && GoodVote(d, k) && c.origin.who != d.origin.who && k.q == PAIR_SIZES
    ensures Missing(GENESIS, [c, d], k)
  {
    assert WithinThreshold(GENESIS, k.b, k.q);
    assert Signers([c, d]) == {c.origin.who, d.origin.who};
  }
}
