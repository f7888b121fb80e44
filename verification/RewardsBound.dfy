/** How many blocks it takes to record an era as paid, and that the bound is reached. */
module RewardsBound {
  import opened Arithmetic
  import opened Common
  import opened Rewards

  function Total(pages: Pages, era: EraIndex, holders: seq<AccountId>): nat {
    if holders == [] then 0 else PagesOf(pages, era, holders[0]) + Total(pages, era, holders[1..])
  }

  ghost predicate AtMost(pages: Pages, era: EraIndex, holders: seq<AccountId>, p: nat) {
    forall v :: v in holders ==> PagesOf(pages, era, v) <= p
  }

  /** Blocks that still make payouts, for `t` unpaid pages of which no validator has more than `p`. */
  function PayingBlocks(t: nat, p: nat, m: nat): int
    requires m > 0
  {
    (t - p) / m + p
  }

  lemma {:induction false} PayingBlocksNat(t: nat, p: nat, m: nat)
    requires m > 0
    ensures PayingBlocks(t, p, m) >= 0
  {
    MulMonotone(p, 1, m);
    assert m * (0 - p) <= 0 - p;
    DivMonotone(m * (0 - p), t - p, m);
    DivIs(m * (0 - p), m, 0 - p);
  }

  lemma {:induction false} TotalLowers(pages: Pages, pages': Pages, era: EraIndex, holders: seq<AccountId>)
    requires forall v :: v in holders ==> PagesOf(pages', era, v) <= PagesOf(pages, era, v)
    ensures Total(pages', era, holders) <= Total(pages, era, holders)
  {
    if holders != [] {
      TotalLowers(pages, pages', era, holders[1..]);
    }
  }

  lemma {:induction false} TotalSame(pages: Pages, pages': Pages, era: EraIndex, holders: seq<AccountId>)
    requires forall v :: v in holders ==> PagesOf(pages', era, v) == PagesOf(pages, era, v)
    ensures Total(pages', era, holders) == Total(pages, era, holders)
  {
    TotalLowers(pages, pages', era, holders);
    TotalLowers(pages', pages, era, holders);
  }

  ghost predicate Succeeding(holders: seq<AccountId>, failing: set<AccountId>) {
    forall v :: v in holders ==> v !in failing
  }

  ghost predicate EveryoneLowered(pages: Pages, pages': Pages, era: EraIndex, holders: seq<AccountId>) {
    forall v :: v in holders ==> PagesOf(pages', era, v) == (if PagesOf(pages, era, v)
       == 0 then 0 else PagesOf(pages, era, v) - 1)
  }

  /** Every call pays one page, and a walk that stops short of its budget has paid every pending holder. */
  lemma {:induction false} WalkPays(pages: Pages, era: EraIndex, holders: seq<AccountId>, budget: nat,
      failing: set<AccountId>)
    requires Distinct(holders) && Succeeding(holders, failing)
    ensures var r := PayList(pages, era, holders, budget, failing);
            && Total(r.pages, era, holders) == Total(pages, era, holders) - r.calls
            && r.calls <= budget
            && (r.calls == budget || EveryoneLowered(pages, r.pages, era, holders))
    decreases |holders|
  {
    if holders != [] && budget > 0 {
      var v, rest := holders[0], holders[1..];
      assert v !in rest;
      var pages1 := PayOne(pages, era, v, failing);
      var pending := PagesOf(pages, era, v) > 0;
      var left := if pending then budget - 1 else budget;
      WalkPays(pages1, era, rest, left, failing);
      PayListOnlyLowers(pages1, era, rest, left, failing, era, v);
      TotalSame(pages, pages1, era, rest);
      assert forall w :: w in holders ==> w == v || w in rest;
    }
  }

  // ----- The bound -----

  /** A block in which the era can be paid: the payer is set and no payout is refused. */
  ghost predicate GoodBlock(cfg: Config, e: EraIndex, holders: seq<AccountId>, s: State, s': State) {
    && s.payer.Some? && e < s.staking.Active() && s.staking.Holders(e) == holders
    && exists failing :: Succeeding(holders, failing) && s' == OnInitialize(s, cfg, failing)
  }

  ghost function Left(s: State, e: EraIndex, p: nat, m: nat): int
    requires m > 0
  {
    PayingBlocks(Total(s.staking.pages, e, s.staking.Holders(e)), p, m)
  }

  lemma {:induction false} FewerBlocks(t: nat, p: nat, m: nat, calls: nat)
    requires 0 < calls <= t && m > 0
    ensures calls == m ==> PayingBlocks(t - m, p, m) == PayingBlocks(t, p, m) - 1
    ensures p > 0 ==> PayingBlocks(t - calls, p - 1, m) <= PayingBlocks(t, p, m) - 1
  {
    if calls == m {
      DivStep(t - p, m);
    }
    if p > 0 {
      DivMonotone(t - calls - (p - 1), t - p, m);
    }
  }

  /** A block with something pending uses up one of the paying blocks, for a possibly smaller page bound. */
  lemma {:induction false} GoodBlockPays(cfg: Config, e: EraIndex, holders: seq<AccountId>, s: State, s': State,
      p: nat) returns (p': nat)
    requires Paying(cfg) && Distinct(holders) && GoodBlock(cfg, e, holders, s, s') && s.nextPaidEra == e
    requires AtMost(s.staking.pages, e, holders, p) && SomePending(s.staking.pages, e, holders)
    ensures s'.nextPaidEra == e && s'.staking.Holders(e) == holders && AtMost(s'.staking.pages, e, holders, p')
    ensures Left(s', e, p', cfg.maxPayouts) <= Left(s, e, p, cfg.maxPayouts) - 1
  {
    var m := cfg.maxPayouts;
    var failing :| Succeeding(holders, failing) && s' == OnInitialize(s, cfg, failing);
    HookAdvancesIff(s, cfg, failing);
    var pages := s.staking.pages;
    var r := PayList(pages, e, holders, m, failing);
    WalkPays(pages, e, holders, m, failing);
    CallsIffPending(pages, e, holders, m, failing);
    var t := Total(pages, e, holders);
    forall v | v in holders ensures PagesOf(r.pages, e, v) <= PagesOf(pages, e, v) {
      PayListOnlyLowers(pages, e, holders, m, failing, e, v);
    }
    FewerBlocks(t, p, m, r.calls);
    if r.calls == m {
      p' := p;
    } else {
      assert p > 0;
      p' := p - 1;
    }
  }

  ghost predicate GoodRun(cfg: Config, e: EraIndex, holders: seq<AccountId>, before: seq<State>, after: seq<State>) {
    && |before| == |after| > 0
    && before[0].nextPaidEra == e
    && (forall i :: 0 <= i < |before| ==> GoodBlock(cfg, e, holders, before[i], after[i]))
    && (forall i :: 0 < i < |before| ==> Between(after[i - 1], before[i]))
  }

  /** Between hooks anyone may pay further pages; that only shortens the wait. */
  lemma {:induction false} BetweenHelps(cfg: Config, e: EraIndex, holders: seq<AccountId>, s: State, s': State, p: nat)
    requires Paying(cfg) && Between(s, s') && e < s.staking.Active()
    requires s.staking.Holders(e) == s'.staking.Holders(e) == holders && AtMost(s.staking.pages, e, holders, p)
    ensures AtMost(s'.staking.pages, e, holders, p)
    ensures Left(s', e, p, cfg.maxPayouts) <= Left(s, e, p, cfg.maxPayouts)
  {
    TotalLowers(s.staking.pages, s'.staking.pages, e, holders);
    DivMonotone(Total(s'.staking.pages, e, holders) - p, Total(s.staking.pages, e, holders) - p, cfg.maxPayouts);
  }

  /** An era with `t` unpaid pages, at most `p` per validator, is recorded within (t - p) / m + p + 1 blocks. */
  lemma {:induction false} EraPaidWithin(cfg: Config, e: EraIndex, holders: seq<AccountId>, before: seq<State>,
      after: seq<State>, p: nat)
    returns (i: nat)
    requires Paying(cfg) && Distinct(holders) && GoodRun(cfg, e, holders, before, after)
    requires AtMost(before[0].staking.pages, e, holders, p)
    requires |after| > Left(before[0], e, p, cfg.maxPayouts)
    ensures i <= Left(before[0], e, p, cfg.maxPayouts) && i < |after| && after[i].nextPaidEra == e + 1
    decreases |after|
  {
    var m := cfg.maxPayouts;
    assert GoodBlock(cfg, e, holders, before[0], after[0]);
    if SomePending(before[0].staking.pages, e, holders) {
      var p' := GoodBlockPays(cfg, e, holders, before[0], after[0], p);
      PayingBlocksNat(Total(after[0].staking.pages, e, holders), p', m);
      assert Between(after[0], before[1]) && GoodBlock(cfg, e, holders, before[1], after[1]);
      BetweenHelps(cfg, e, holders, after[0], before[1], p');
      GoodTail(cfg, e, holders, before, after);
      var k := EraPaidWithin(cfg, e, holders, before[1..], after[1..], p');
      i := k + 1;
    } else {
      var failing :| Succeeding(holders, failing) && after[0] == OnInitialize(before[0], cfg, failing);
      HookAdvancesIff(before[0], cfg, failing);
      PayingBlocksNat(Total(before[0].staking.pages, e, holders), p, m);
      i := 0;
    }
  }

  lemma {:induction false} GoodTail(cfg: Config, e: EraIndex, holders: seq<AccountId>, before: seq<State>,
      after: seq<State>)
    requires GoodRun(cfg, e, holders, before, after) && |after| > 1 && after[0].nextPaidEra == e
    ensures GoodRun(cfg, e, holders, before[1..], after[1..])
  {
    assert Between(after[0], before[1]);
  }

  /** The rounded-up form of the bound: floor(t / m) + p + 1 blocks always suffice. */
  lemma {:induction false} PlainBound(t: nat, p: nat, m: nat)
    requires m > 0
    ensures PayingBlocks(t, p, m) <= t / m + p
  {
    DivMonotone(t - p, t, m);
  }

  // ----- The bound is reached -----

  function UpTo(n: nat): seq<AccountId> {
    seq(n, i => i)
  }

  /** Validators 0 .. a-1 have one page each, the first `j` of them already paid; validator `a` has `p`. */
  ghost predicate Ladder(pages: Pages, e: EraIndex, a: nat, j: nat, p: nat) {
    && j <= a
    && (forall v: nat :: v < j ==> PagesOf(pages, e, v) == 0)
    && (forall v: nat :: j <= v < a ==> PagesOf(pages, e, v) == 1)
    && PagesOf(pages, e, a) == p
  }

  lemma {:induction false} LadderSkip(pages: Pages, e: EraIndex, a: nat, j: nat, p: nat, i: nat, budget: nat)
    requires Ladder(pages, e, a, j, p) && i <= j
    ensures PayList(pages, e, UpTo(a + 1)[i..], budget, {}) == PayList(pages, e, UpTo(a + 1)[j..], budget, {})
    decreases j - i
  {
    if i < j && budget > 0 {
      assert UpTo(a + 1)[i..][1..] == UpTo(a + 1)[i + 1..];
      LadderSkip(pages, e, a, j, p, i + 1, budget);
    }
  }

  lemma {:induction false} LadderPay(pages: Pages, e: EraIndex, a: nat, j: nat, p: nat, budget: nat)
    requires Ladder(pages, e, a, j, p) && p > 0
    ensures var pages' := PayList(pages, e, UpTo(a + 1)[j..], budget, {}).pages;
            if budget <= a - j then Ladder(pages', e, a, j + budget, p) else Ladder(pages', e, a, a, p - 1)
    decreases budget
  {
    var l := UpTo(a + 1);
    if budget > 0 {
      assert PagesOf(pages, e, j) > 0;
      assert l[j..][0] == j && l[j..][1..] == l[j + 1..];
      var pages1 := PayOne(pages, e, j, {});
      assert forall v: nat :: v != j ==> PagesOf(pages1, e, v) == PagesOf(pages, e, v);
      if j < a {
        assert Ladder(pages1, e, a, j + 1, p);
        LadderPay(pages1, e, a, j + 1, p, budget - 1);
      } else {
        assert l[j + 1..] == [];
        assert Ladder(pages1, e, a, a, p - 1);
      }
    }
  }

  function Blocks(s: State, cfg: Config, k: nat): State
    decreases k
  {
    if k == 0 then s else Blocks(OnInitialize(s, cfg, {}), cfg, k - 1)
  }

  ghost predicate OnLadder(s: State, a: nat, j: nat, p: nat) {
    && s.payer.Some? && s.nextPaidEra == 0 && s.staking.Active() == 1
    && s.staking.Holders(0) == UpTo(a + 1) && Ladder(s.staking.pages, 0, a, j, p)
  }

  /** One block on a ladder with its top unpaid: the next `m` rungs, or all of them and the top. */
  lemma {:induction false} LadderBlock(s: State, cfg: Config, a: nat, j: nat, p: nat)
    requires Paying(cfg) && OnLadder(s, a, j, p) && p > 0
    ensures var s', m := OnInitialize(s, cfg, {}), cfg.maxPayouts;
            if m <= a - j then OnLadder(s', a, j + m, p) else OnLadder(s', a, a, p - 1)
  {
    assert UpTo(a + 1)[a] in UpTo(a + 1);
    HookAdvancesIff(s, cfg, {});
    LadderSkip(s.staking.pages, 0, a, j, p, 0, cfg.maxPayouts);
    LadderPay(s.staking.pages, 0, a, j, p, cfg.maxPayouts);
    assert UpTo(a + 1)[0..] == UpTo(a + 1);
  }

  lemma {:induction false} LadderLasts(s: State, cfg: Config, a: nat, j: nat, p: nat, k: nat)
    requires Paying(cfg) && OnLadder(s, a, j, p) && (p == 0 ==> j == a)
    requires k <= (a - j) / cfg.maxPayouts + p
    ensures Blocks(s, cfg, k).nextPaidEra == 0
    decreases k
  {
    var m := cfg.maxPayouts;
    if a - j < m {
      DivIs(a - j, m, 0);
    }
    if k > 0 {
      LadderBlock(s, cfg, a, j, p);
      var s' := OnInitialize(s, cfg, {});
      if m <= a - j {
        DivStep(a - j, m);
        LadderLasts(s', cfg, a, j + m, p, k - 1);
      } else {
        DivIs(0, m, 0);
        LadderLasts(s', cfg, a, a, p - 1, k - 1);
      }
    }
  }

  lemma {:induction false} LadderTotal(pages: Pages, a: nat, p: nat, i: nat)
    requires Ladder(pages, 0, a, 0, p) && i <= a
    ensures Total(pages, 0, UpTo(a + 1)[i..]) == a - i + p
    decreases a - i
  {
    assert UpTo(a + 1)[i..][1..] == UpTo(a + 1)[i + 1..];
    if i < a {
      LadderTotal(pages, a, p, i + 1);
    }
  }

  /** For every m, t and p there is an era that needs all (t - p) / m + p + 1 blocks. */
  lemma {:induction false} BoundIsReached(cfg: Config, t: nat, p: nat) returns (s: State)
    requires Paying(cfg) && 0 < p <= t
    ensures s.payer.Some? && s.nextPaidEra == 0 < s.staking.Active() && Distinct(s.staking.Holders(0))
    ensures Total(s.staking.pages, 0, s.staking.Holders(0)) == t && AtMost(s.staking.pages, 0, s.staking.Holders(0), p)
    ensures forall k: nat :: k <= Left(s, 0, p, cfg.maxPayouts) ==> Blocks(s, cfg, k).nextPaidEra == 0
  {
    var a := t - p;
    var pages: Pages := map v: nat | v <= a :: (0, v) := if v < a then 1 else p;
    s := State(0, Some(0), Staking(Some(1), map[0 := UpTo(a + 1)], pages), []);
    assert forall v: nat :: v <= a ==> (0, v) in pages && pages[(0, v)] == if v < a then 1 else p;
    LadderTotal(pages, a, p, 0);
    assert UpTo(a + 1)[0..] == UpTo(a + 1);
    forall k: nat | k <= Left(s, 0, p, cfg.maxPayouts) ensures Blocks(s, cfg, k).nextPaidEra == 0 {
      LadderLasts(s, cfg, a, 0, p, k);
    }
  }
}
