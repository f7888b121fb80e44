/** The rewards pallet: at each block, one page for a few validators of the oldest unpaid era. */
module Rewards {
  import opened Common

  type EraIndex = nat

  datatype Weight = Weight(refTime: nat, proofSize: nat) {
    function SaturatingAdd(w: Weight): Weight {
      Weight(Saturate(refTime + w.refTime), Saturate(proofSize + w.proofSize))
    }
  }

  const NO_WEIGHT := Weight(0, 0)

  function Saturate(n: nat): nat {
    if n <= U64_MAX then n else U64_MAX
  }

  /** Unclaimed pages per (era, validator); an absent entry has none. */
  type Pages = map<(EraIndex, AccountId), nat>

  function PagesOf(pages: Pages, era: EraIndex, v: AccountId): nat {
    if (era, v) in pages then pages[(era, v)] else 0
  }

  /** What the staking pallet holds: the active era, each era's reward-point holders, and the unclaimed pages. */
  datatype Staking = Staking(activeEra: Option<EraIndex>, points: map<EraIndex, seq<AccountId>>, pages: Pages) {
    function Active(): EraIndex {
      if activeEra.Some? then activeEra.value else 0
    }

    function Holders(era: EraIndex): seq<AccountId> {
      if era in points then points[era] else []
    }
  }

  datatype Event =
    | EraPaid(index: EraIndex)
    | Payout(validator: AccountId)
    | Status(currentEra: EraIndex, payingEra: EraIndex)
    | PayoutError(validator: AccountId)
    | NoPayerSet

  datatype Config = Config(maxPayouts: nat, callWeight: Weight)

  datatype State = State(nextPaidEra: EraIndex, payer: Option<AccountId>, staking: Staking, events: seq<Event>)

  datatype Paid = Paid(pages: Pages, events: seq<Event>, calls: nat)

  /** One payout call: takes a page off the validator unless the staking pallet refuses. */
  function PayOne(pages: Pages, era: EraIndex, v: AccountId, failing: set<AccountId>): Pages {
    if v in failing || PagesOf(pages, era, v) == 0 then pages else pages[(era, v) := PagesOf(pages, era, v) - 1]
  }

  function PayoutEvent(v: AccountId, failing: set<AccountId>): Event {
    if v in failing then PayoutError(v) else Payout(v)
  }

  /** Walks the holders in order, calling for each pending one until the budget is used up. */
  function PayList(pages: Pages, era: EraIndex, holders: seq<AccountId>, budget: nat, failing: set<AccountId>): Paid
    decreases |holders|
  {
    if holders == [] || budget == 0 then Paid(pages, [], 0)
    else
      var v := holders[0];
      if PagesOf(pages, era, v) == 0 then PayList(pages, era, holders[1..], budget, failing)
      else
        var rest := PayList(PayOne(pages, era, v, failing), era, holders[1..], budget - 1, failing);
        Paid(rest.pages, [PayoutEvent(v, failing)] + rest.events, rest.calls + 1)
  }

  /** The per-call weights added up, as `reduce` does; no call gives the zero weight. */
  function TotalWeight(w: Weight, calls: nat): Weight {
    if calls == 0 then NO_WEIGHT else if calls == 1 then w else TotalWeight(w, calls - 1).SaturatingAdd(w)
  }

  function OnInitialize(s: State, cfg: Config, failing: set<AccountId>): State {
    var era, current := s.nextPaidEra, s.staking.Active();
    if era >= current then s
    else
      var events := s.events + [Status(current, era)];
      if s.payer.None? then s.(events := events + [NoPayerSet])
      else
        var paid := PayList(s.staking.pages, era, s.staking.Holders(era), cfg.maxPayouts, failing);
        var s' := s.(staking := s.staking.(pages := paid.pages), events := events + paid.events);
        if TotalWeight(cfg.callWeight, paid.calls) == NO_WEIGHT
        then s'.(nextPaidEra := era + 1, events := s'.events + [EraPaid(era)])
        else s'
  }

  class RewardsPallet {
    var nextPaidEra: EraIndex
    var payer: Option<AccountId>
    var staking: Staking
    var events: seq<Event>

    ghost function Value(): State
      reads this
    {
      State(nextPaidEra, payer, staking, events)
    }

    constructor (staking: Staking)
      ensures Value() == State(0, None, staking, [])
    {
      nextPaidEra, payer, this.staking, events := 0, None, staking, [];
    }

    method PayPending(era: EraIndex, cfg: Config, failing: set<AccountId>) returns (weight: Weight)
      modifies this`staking, this`events
      ensures var paid := PayList(old(staking).pages, era, old(staking).Holders(era), cfg.maxPayouts, failing);
              && staking == old(staking).(pages := paid.pages)
              && events == old(events) + paid.events
              && weight == TotalWeight(cfg.callWeight, paid.calls)
    {
      var holders := staking.Holders(era);
      ghost var whole := PayList(staking.pages, era, holders, cfg.maxPayouts, failing);
      ghost var done := [];
      var i, calls := 0, 0;
      weight := NO_WEIGHT;
      while i < |holders| && calls < cfg.maxPayouts
        invariant 0 <= i <= |holders| && 0 <= calls <= cfg.maxPayouts
        invariant staking == old(staking).(pages := staking.pages)
        invariant events == old(events) + done
        invariant weight == TotalWeight(cfg.callWeight, calls)
        invariant var rest := PayList(staking.pages, era, holders[i..], cfg.maxPayouts - calls, failing);
                  && whole.pages == rest.pages && whole.events == done + rest.events
                     && whole.calls == calls + rest.calls
      {
        var v := holders[i];
        assert holders[i..][1..] == holders[i + 1..];
        if PagesOf(staking.pages, era, v) > 0 {
          ghost var rest := PayList(PayOne(staking.pages, era, v, failing), era, holders[i + 1..],
              cfg.maxPayouts - calls - 1, failing);
          assert done + ([PayoutEvent(v, failing)] + rest.events) == done + [PayoutEvent(v, failing)] + rest.events;
          staking := staking.(pages := PayOne(staking.pages, era, v, failing));
          events := events + [PayoutEvent(v, failing)];
          done := done + [PayoutEvent(v, failing)];
          weight := if calls == 0 then cfg.callWeight else weight.SaturatingAdd(cfg.callWeight);
          calls := calls + 1;
        }
        i := i + 1;
      }
    }

    method Hook(cfg: Config, failing: set<AccountId>)
      modifies this
      ensures Value() == OnInitialize(old(Value()), cfg, failing)
    {
      var era, current := nextPaidEra, staking.Active();
      if era >= current {
        return;
      }
      events := events + [Status(current, era)];
      if payer.None? {
        events := events + [NoPayerSet];
        return;
      }
      var weight := PayPending(era, cfg, failing);
      if weight == NO_WEIGHT {
        events := events + [EraPaid(era)];
        nextPaidEra := era + 1;
      }
    }
  }

  // ----- One block -----

  ghost predicate Distinct(l: seq<AccountId>) {
    forall i, j :: 0 <= i < j < |l| ==> l[i] != l[j]
  }

  ghost predicate SomePending(pages: Pages, era: EraIndex, holders: seq<AccountId>) {
    exists v :: v in holders && PagesOf(pages, era, v) > 0
  }

  lemma {:induction false} WeightZeroIff(w: Weight, calls: nat)
    ensures TotalWeight(w, calls) == NO_WEIGHT <==> calls == 0 || w == NO_WEIGHT
  {
    if calls > 1 {
      WeightZeroIff(w, calls - 1);
    }
  }

  /** The sum stops at the largest 64-bit number in each part. */
  lemma {:induction false} WeightIsSum(w: Weight, calls: nat)
    requires w.refTime <= U64_MAX && w.proofSize <= U64_MAX
    ensures var t := TotalWeight(w, calls);
            && t.refTime == (if calls * w.refTime <= U64_MAX then calls * w.refTime else U64_MAX)
            && t.proofSize == (if calls * w.proofSize <= U64_MAX then calls * w.proofSize else U64_MAX)
  {
    if calls > 1 {
      WeightIsSum(w, calls - 1);
      OneMore(calls, w.refTime);
      OneMore(calls, w.proofSize);
    }
  }

  lemma {:induction false} OneMore(n: nat, x: nat)
    requires n > 0
    ensures n * x == (n - 1) * x + x >= (n - 1) * x
  {
  }

  /** A walk makes a call exactly when the budget is not zero and someone is pending. */
  lemma {:induction false} CallsIffPending(pages: Pages, era: EraIndex, holders: seq<AccountId>, budget: nat,
      failing: set<AccountId>)
    ensures PayList(pages, era, holders, budget, failing).calls > 0 <==> budget > 0 && SomePending(pages, era, holders)
    decreases |holders|
  {
    if holders != [] && budget > 0 {
      if PagesOf(pages, era, holders[0]) == 0 {
        CallsIffPending(pages, era, holders[1..], budget, failing);
        assert SomePending(pages, era, holders) <==> SomePending(pages, era, holders[1..]) by {
          assert forall v :: v in holders <==> v == holders[0] || v in holders[1..];
        }
      } else {
        assert holders[0] in holders;
      }
    }
  }

  // ----- Exactly what a walk does -----

  /** The holders with unpaid pages, in order. */
  function PendingOf(pages: Pages, era: EraIndex, holders: seq<AccountId>): seq<AccountId> {
    if holders == [] then []
    else (if PagesOf(pages, era, holders[0]) > 0 then [holders[0]] else []) + PendingOf(pages, era, holders[1..])
  }

  /** The holders called for: the first pending ones, as many as the budget allows, refused or not. */
  function CalledFor(pages: Pages, era: EraIndex, holders: seq<AccountId>, budget: nat): seq<AccountId> {
    var pending := PendingOf(pages, era, holders);
    if |pending| <= budget then pending else pending[..budget]
  }

  lemma {:induction false} PendingElsewhere(pages: Pages, era: EraIndex, holders: seq<AccountId>, w: AccountId,
      failing: set<AccountId>)
    requires w !in holders
    ensures PendingOf(PayOne(pages, era, w, failing), era, holders) == PendingOf(pages, era, holders)
    decreases |holders|
  {
    if holders != [] {
      assert holders[0] in holders;
      PendingElsewhere(pages, era, holders[1..], w, failing);
    }
  }

  lemma {:induction false} DistinctTail(holders: seq<AccountId>)
    requires Distinct(holders) && holders != []
    ensures Distinct(holders[1..]) && holders[0] !in holders[1..]
  {
    forall i | 0 <= i < |holders[1..]| ensures holders[1..][i] != holders[0] {
      assert holders[1..][i] == holders[i + 1];
    }
  }

  lemma {:induction false} CalledCons(pages: Pages, era: EraIndex, holders: seq<AccountId>, budget: nat)
    requires holders != [] && budget > 0 && PagesOf(pages, era, holders[0]) > 0
    ensures CalledFor(pages, era, holders, budget) == [holders[0]] + CalledFor(pages, era, holders[1..], budget - 1)
  {
    var rest := PendingOf(pages, era, holders[1..]);
    if |rest| > budget - 1 {
      assert ([holders[0]] + rest)[..budget] == [holders[0]] + rest[..budget - 1];
    }
  }

  /** Each call is reported once, in order, as paid or refused. */
  ghost predicate Reports(events: seq<Event>, called: seq<AccountId>, failing: set<AccountId>) {
    && |events| == |called|
    && forall i :: 0 <= i < |called| ==>
         events[i] == if called[i] in failing then PayoutError(called[i]) else Payout(called[i])
  }

  lemma {:induction false} ReportsCons(events: seq<Event>, w: AccountId, called: seq<AccountId>,
      failing: set<AccountId>)
    requires Reports(events, called, failing)
    ensures Reports([PayoutEvent(w, failing)] + events, [w] + called, failing)
  {
  }

  /** For any refusals: the walk calls for exactly the first pending holders, at most the budget, and reports each. */
  lemma {:induction false} WalkCalls(pages: Pages, era: EraIndex, holders: seq<AccountId>, budget: nat,
      failing: set<AccountId>)
    requires Distinct(holders)
    ensures var r, called := PayList(pages, era, holders, budget, failing), CalledFor(pages, era, holders, budget);
            r.calls == |called| <= budget && Reports(r.events, called, failing)
    decreases |holders|
  {
    if holders != [] && budget > 0 {
      DistinctTail(holders);
      if PagesOf(pages, era, holders[0]) == 0 {
        WalkCalls(pages, era, holders[1..], budget, failing);
        assert PendingOf(pages, era, holders) == PendingOf(pages, era, holders[1..]);
      } else {
        var pages1 := PayOne(pages, era, holders[0], failing);
        WalkCalls(pages1, era, holders[1..], budget - 1, failing);
        PendingElsewhere(pages, era, holders[1..], holders[0], failing);
        CalledCons(pages, era, holders, budget);
        ReportsCons(PayList(pages1, era, holders[1..], budget - 1, failing).events, holders[0],
                    CalledFor(pages, era, holders[1..], budget - 1), failing);
      }
    }
  }

  /** Whoever is called for and not refused loses one page of that era; nothing else changes. */
  lemma {:induction false} WalkTakes(pages: Pages, era: EraIndex, holders: seq<AccountId>, budget: nat,
      failing: set<AccountId>, e: EraIndex, v: AccountId)
    requires Distinct(holders)
    ensures PagesOf(PayList(pages, era, holders, budget, failing).pages, e, v)
         == PagesOf(pages, e, v) - if e == era && v in CalledFor(pages, era, holders, budget)
            && v !in failing then 1 else 0
    decreases |holders|
  {
    if holders != [] && budget > 0 {
      DistinctTail(holders);
      if PagesOf(pages, era, holders[0]) == 0 {
        WalkTakes(pages, era, holders[1..], budget, failing, e, v);
        assert PendingOf(pages, era, holders) == PendingOf(pages, era, holders[1..]);
      } else {
        var pages1 := PayOne(pages, era, holders[0], failing);
        WalkTakes(pages1, era, holders[1..], budget - 1, failing, e, v);
        PendingElsewhere(pages, era, holders[1..], holders[0], failing);
        CalledCons(pages, era, holders, budget);
        CalledAmong(pages, era, holders[1..], budget - 1, holders[0]);
        OneTaken(pages, era, holders[0], failing, e, v);
      }
    } else {
      assert CalledFor(pages, era, holders, budget) == [];
    }
  }

  lemma {:induction false} CalledAmong(pages: Pages, era: EraIndex, holders: seq<AccountId>, budget: nat,
      v: AccountId)
    requires v !in holders
    ensures v !in CalledFor(pages, era, holders, budget)
  {
    PendingAmong(pages, era, holders);
  }

  lemma {:induction false} OneTaken(pages: Pages, era: EraIndex, w: AccountId, failing: set<AccountId>,
      e: EraIndex, v: AccountId)
    requires PagesOf(pages, era, w) > 0
    ensures PagesOf(PayOne(pages, era, w, failing), e, v)
         == PagesOf(pages, e, v) - if e == era && v == w && v !in failing then 1 else 0
  {
    assert (e, v) == (era, w) <==> e == era && v == w;
  }

  lemma {:induction false} PendingAmong(pages: Pages, era: EraIndex, holders: seq<AccountId>)
    ensures forall v :: v in PendingOf(pages, era, holders) <==> v in holders && PagesOf(pages, era, v) > 0
    decreases |holders|
  {
    if holders != [] {
      PendingAmong(pages, era, holders[1..]);
      assert forall v :: v in holders <==> v == holders[0] || v in holders[1..];
    }
  }

  /** Without distinct holders the budget still bounds the calls, and each call has one event. */
  lemma {:induction false} CallsWithinBudget(pages: Pages, era: EraIndex, holders: seq<AccountId>, budget: nat,
      failing: set<AccountId>)
    ensures var r := PayList(pages, era, holders, budget, failing); r.calls == |r.events| <= budget
    decreases |holders|
  {
    if holders != [] && budget > 0 {
      if PagesOf(pages, era, holders[0]) == 0 {
        CallsWithinBudget(pages, era, holders[1..], budget, failing);
      } else {
        CallsWithinBudget(PayOne(pages, era, holders[0], failing), era, holders[1..], budget - 1, failing);
      }
    }
  }

  /** What the hook reports: nothing when caught up; otherwise its status, and then a missing payer, or the calls and,
      when the era is done, that it is. */
  lemma {:induction false} HookReports(s: State, cfg: Config, failing: set<AccountId>)
    requires Distinct(s.staking.Holders(s.nextPaidEra))
    ensures var s', era := OnInitialize(s, cfg, failing), s.nextPaidEra;
            var behind := s.staking.activeEra.Some? && era < s.staking.activeEra.value;
            var holders := if era in s.staking.points then s.staking.points[era] else [];
            var called := CalledFor(s.staking.pages, era, holders, cfg.maxPayouts);
            && (!behind ==> s' == s)
            && (behind && s.payer.None? ==>
                  s' == s.(events := s.events + [Status(s.staking.activeEra.value, era), NoPayerSet]))
            && (behind && s.payer.Some? ==>
                  exists reports :: Reports(reports, called, failing)
                    && s'.events == s.events + [Status(s.staking.activeEra.value, era)] + reports
                                    + if s'.nextPaidEra == era then [] else [EraPaid(era)])
  {
    var era := s.nextPaidEra;
    var paid := PayList(s.staking.pages, era, s.staking.Holders(era), cfg.maxPayouts, failing);
    WalkCalls(s.staking.pages, era, s.staking.Holders(era), cfg.maxPayouts, failing);
    if s.payer.None? {
      var status := Status(s.staking.Active(), era);
      assert s.events + [status] + [NoPayerSet] == s.events + [status, NoPayerSet];
    } else {
      var events := s.events + [Status(s.staking.Active(), era)] + paid.events;
      assert events + [] == events;
      assert Reports(paid.events, CalledFor(s.staking.pages, era, s.staking.Holders(era), cfg.maxPayouts), failing);
    }
  }

  /** A walk only ever takes pages off the holders of that era. */
  lemma {:induction false} PayListOnlyLowers(pages: Pages, era: EraIndex, holders: seq<AccountId>, budget: nat,
      failing: set<AccountId>, e: EraIndex, v: AccountId)
    ensures var pages' := PayList(pages, era, holders, budget, failing).pages;
            && PagesOf(pages', e, v) <= PagesOf(pages, e, v)
            && (e != era || v !in holders || v in failing ==> PagesOf(pages', e, v) == PagesOf(pages, e, v))
    decreases |holders|
  {
    if holders != [] && budget > 0 {
      var w := holders[0];
      if PagesOf(pages, era, w) == 0 {
        PayListOnlyLowers(pages, era, holders[1..], budget, failing, e, v);
      } else {
        PayListOnlyLowers(PayOne(pages, era, w, failing), era, holders[1..], budget - 1, failing, e, v);
      }
    }
  }

  ghost predicate Paying(cfg: Config) {
    cfg.maxPayouts > 0 && cfg.callWeight != NO_WEIGHT
  }

  /** The era moves exactly when there is one to pay, someone to pay for it, and nothing left pending in it. */
  lemma {:induction false} HookAdvancesIff(s: State, cfg: Config, failing: set<AccountId>)
    ensures var s' := OnInitialize(s, cfg, failing);
            && s'.nextPaidEra == s.nextPaidEra + (if
                 && s.nextPaidEra < s.staking.Active() && s.payer.Some?
                 && (Paying(cfg) ==> !SomePending(s.staking.pages, s.nextPaidEra, s.staking.Holders(s.nextPaidEra)))
               then 1 else 0)
  {
    var era := s.nextPaidEra;
    var paid := PayList(s.staking.pages, era, s.staking.Holders(era), cfg.maxPayouts, failing);
    CallsIffPending(s.staking.pages, era, s.staking.Holders(era), cfg.maxPayouts, failing);
    WeightZeroIff(cfg.callWeight, paid.calls);
  }

  // ----- Every run -----

  /** What may happen between hooks: past eras gain neither holders nor pages, and eras only go forward. */
  ghost predicate Between(s: State, s': State) {
    && s'.nextPaidEra == s.nextPaidEra
    && s.staking.Active() <= s'.staking.Active()
    && forall e: EraIndex, v :: e < s.staking.Active() ==>
         && (v in s'.staking.Holders(e) ==> v in s.staking.Holders(e))
         && PagesOf(s'.staking.pages, e, v) <= PagesOf(s.staking.pages, e, v)
  }

  ghost predicate Next(cfg: Config, s: State, s': State) {
    Between(s, s') || exists failing :: s' == OnInitialize(s, cfg, failing)
  }

  ghost predicate IsRun(cfg: Config, run: seq<State>) {
    forall i :: 0 < i < |run| ==> Next(cfg, run[i - 1], run[i])
  }

  /** Nothing is pending for a point holder in any era already recorded, and no unfinished era is recorded. */
  ghost predicate Settled(s: State) {
    && s.nextPaidEra <= s.staking.Active()
    && forall e: EraIndex, v :: e < s.nextPaidEra && v in s.staking.Holders(e) ==> PagesOf(s.staking.pages, e, v) == 0
  }

  lemma {:induction false} NextKeepsSettled(cfg: Config, s: State, s': State)
    requires Paying(cfg) && Settled(s) && Next(cfg, s, s')
    ensures Settled(s') && s.nextPaidEra <= s'.nextPaidEra <= s.nextPaidEra + 1
  {
    if !Between(s, s') {
      var failing :| s' == OnInitialize(s, cfg, failing);
      HookAdvancesIff(s, cfg, failing);
      forall e: EraIndex, v | e < s'.nextPaidEra && v in s'.staking.Holders(e)
        ensures PagesOf(s'.staking.pages, e, v) == 0
      {
        PayListOnlyLowers(s.staking.pages, s.nextPaidEra, s.staking.Holders(s.nextPaidEra), cfg.maxPayouts, failing,
            e, v);
        assert v in s.staking.Holders(e);
      }
    }
  }

  /** In every reachable state the recorded eras are fully paid, and the record rises by at most one per step. */
  lemma {:induction false} RunSettled(cfg: Config, run: seq<State>, i: nat)
    requires Paying(cfg) && IsRun(cfg, run) && i < |run| && Settled(run[0])
    ensures Settled(run[i])
    ensures i > 0 ==> run[i - 1].nextPaidEra <= run[i].nextPaidEra <= run[i - 1].nextPaidEra + 1
  {
    if i > 0 {
      RunSettled(cfg, run, i - 1);
      NextKeepsSettled(cfg, run[i - 1], run[i]);
    }
  }

  /** With no budget or with weightless calls, the hook records an era that still has pages pending. */
  lemma {:induction false} NotPayingSkipsEra(cfg: Config) returns (s: State)
    requires !Paying(cfg)
    ensures Settled(s) && !Settled(OnInitialize(s, cfg, {}))
  {
    s := State(0, Some(7), Staking(Some(1), map[0 := [5]], map[(0, 5) := 2]), []);
    var paid := PayList(s.staking.pages, 0, [5], cfg.maxPayouts, {});
    WeightZeroIff(cfg.callWeight, paid.calls);
    assert [5][1..] == [];
    var s' := OnInitialize(s, cfg, {});
    assert 5 in s'.staking.Holders(0) && PagesOf(s'.staking.pages, 0, 5) > 0;
  }

  /** The hook keeps recorded eras fully paid exactly when it has a budget and its calls have a weight. */
  lemma {:induction false} SettledKeptIff(cfg: Config)
    ensures (forall s, failing :: Settled(s) ==> Settled(OnInitialize(s, cfg, failing))) <==> Paying(cfg)
  {
    if Paying(cfg) {
      forall s, failing | Settled(s) ensures Settled(OnInitialize(s, cfg, failing)) {
        NextKeepsSettled(cfg, s, OnInitialize(s, cfg, failing));
      }
    } else {
      var s := NotPayingSkipsEra(cfg);
    }
  }

  /** A step in which the staking pallet never pays `v` for era `e`, although it stays pending. */
  ghost predicate RefusedNext(cfg: Config, e: EraIndex, v: AccountId, s: State, s': State) {
    || (&& Between(s, s') && v in s'.staking.Holders(e)
        && PagesOf(s'.staking.pages, e, v) == PagesOf(s.staking.pages, e, v))
    || exists failing :: v in failing && s' == OnInitialize(s, cfg, failing)
  }

  /** A pending validator whose payouts keep failing holds the era back for as long as they do. */
  lemma {:induction false} RefusedValidatorBlocks(cfg: Config, run: seq<State>, v: AccountId, i: nat)
    requires Paying(cfg) && i < |run|
    requires forall k :: 0 < k < |run| ==> RefusedNext(cfg, run[0].nextPaidEra, v, run[k - 1], run[k])
    requires v in run[0].staking.Holders(run[0].nextPaidEra)
    requires PagesOf(run[0].staking.pages, run[0].nextPaidEra, v) > 0
    ensures var e := run[0].nextPaidEra;
            && run[i].nextPaidEra == e && v in run[i].staking.Holders(e)
            && PagesOf(run[i].staking.pages, e, v) == PagesOf(run[0].staking.pages, e, v)
  {
    if i > 0 {
      RefusedValidatorBlocks(cfg, run, v, i - 1);
      var e, s, s' := run[0].nextPaidEra, run[i - 1], run[i];
      assert RefusedNext(cfg, e, v, s, s');
      if failing :| v in failing && s' == OnInitialize(s, cfg, failing) {
        HookAdvancesIff(s, cfg, failing);
        PayListOnlyLowers(s.staking.pages, e, s.staking.Holders(e), cfg.maxPayouts, failing, e, v);
      }
    }
  }

  // ----- Pages and events balance -----

  function PayoutsTo(events: seq<Event>, v: AccountId): nat {
    if events == [] then 0
    else PayoutsTo(events[..|events| - 1], v) + if events[|events| - 1] == Payout(v) then 1 else 0
  }

  lemma {:induction false} PayoutsAppend(a: seq<Event>, b: seq<Event>, v: AccountId)
    ensures PayoutsTo(a + b, v) == PayoutsTo(a, v) + PayoutsTo(b, v)
    decreases |b|
  {
    if b == [] {
      assert a + b == a;
    } else {
      assert (a + b)[..|a + b| - 1] == a + b[..|b| - 1];
      PayoutsAppend(a, b[..|b| - 1], v);
    }
  }

  lemma {:induction false} WalkBalances(pages: Pages, era: EraIndex, holders: seq<AccountId>, budget: nat,
      failing: set<AccountId>, v: AccountId)
    ensures var r := PayList(pages, era, holders, budget, failing);
            PagesOf(r.pages, era, v) + PayoutsTo(r.events, v) == PagesOf(pages, era, v)
    decreases |holders|
  {
    if holders != [] && budget > 0 {
      var w := holders[0];
      if PagesOf(pages, era, w) == 0 {
        WalkBalances(pages, era, holders[1..], budget, failing, v);
      } else {
        var pages1, e := PayOne(pages, era, w, failing), PayoutEvent(w, failing);
        WalkBalances(pages1, era, holders[1..], budget - 1, failing, v);
        PayoutsAppend([e], PayList(pages1, era, holders[1..], budget - 1, failing).events, v);
        assert [e][..0] == [];
        assert PayoutsTo([e], v) == if e == Payout(v) then 1 else 0;
      }
    }
  }

  lemma {:induction false} QuietAppend(events: seq<Event>, e: Event, v: AccountId)
    requires !e.Payout?
    ensures PayoutsTo(events + [e], v) == PayoutsTo(events, v)
  {
    assert (events + [e])[..|events|] == events;
  }

  lemma {:induction false} HookBalances(s: State, cfg: Config, failing: set<AccountId>, v: AccountId)
    ensures var s' := OnInitialize(s, cfg, failing);
            PagesOf(s'.staking.pages, s.nextPaidEra, v) + PayoutsTo(s'.events, v)
            == PagesOf(s.staking.pages, s.nextPaidEra, v) + PayoutsTo(s.events, v)
  {
    var era, s' := s.nextPaidEra, OnInitialize(s, cfg, failing);
    if era < s.staking.Active() {
      var events, status := s.events, Status(s.staking.Active(), era);
      QuietAppend(events, status, v);
      if s.payer.None? {
        QuietAppend(events + [status], NoPayerSet, v);
      } else {
        var paid := PayList(s.staking.pages, era, s.staking.Holders(era), cfg.maxPayouts, failing);
        WalkBalances(s.staking.pages, era, s.staking.Holders(era), cfg.maxPayouts, failing, v);
        PayoutsAppend(events + [status], paid.events, v);
        QuietAppend(events + [status] + paid.events, EraPaid(era), v);
      }
    }
  }

  ghost predicate HookStep(cfg: Config, s: State, s': State) {
    exists failing :: s' == OnInitialize(s, cfg, failing)
  }

  /** Blocks of one era: the hook takes `before[i]` to `after[i]`, and in between others may act on staking. */
  ghost predicate EraBlocks(cfg: Config, era: EraIndex, before: seq<State>, after: seq<State>) {
    && |before| == |after| > 0
    && (forall i :: 0 <= i < |before| ==> before[i].nextPaidEra == era)
    && (forall i :: 0 <= i < |before| ==> HookStep(cfg, before[i], after[i]))
    && (forall i :: 0 < i < |before| ==> Between(after[i - 1], before[i]) && before[i].events == after[i - 1].events)
  }

  /** The validator's pages that others paid between the blocks. */
  function PaidBetween(era: EraIndex, before: seq<State>, after: seq<State>, v: AccountId): int
    requires |before| == |after|
  {
    if |before| < 2 then 0
    else PagesOf(after[0].staking.pages, era, v) - PagesOf(before[1].staking.pages, era, v)
         + PaidBetween(era, before[1..], after[1..], v)
  }

  lemma {:induction false} BlocksTail(cfg: Config, era: EraIndex, before: seq<State>, after: seq<State>)
    requires EraBlocks(cfg, era, before, after) && |before| > 1
    ensures EraBlocks(cfg, era, before[1..], after[1..])
  {
    forall i | 0 <= i < |before| - 1
      ensures before[1..][i].nextPaidEra == era && HookStep(cfg, before[1..][i], after[1..][i])
    {
      assert before[1..][i] == before[i + 1] && after[1..][i] == after[i + 1];
    }
    forall i | 0 < i < |before| - 1
      ensures Between(after[1..][i - 1], before[1..][i]) && before[1..][i].events == after[1..][i - 1].events
    {
      assert before[1..][i] == before[i + 1] && after[1..][i - 1] == after[i];
    }
  }

  /** While an era is paid, the pages a validator loses are those with a payout event and those others paid, and every
      payout event has its page. */
  lemma {:induction false} PayoutsBalance(cfg: Config, era: EraIndex, before: seq<State>, after: seq<State>,
      v: AccountId)
    requires EraBlocks(cfg, era, before, after)
    ensures var first, last := before[0], after[|after| - 1];
            PagesOf(first.staking.pages, era, v) - PagesOf(last.staking.pages, era, v)
            == PayoutsTo(last.events, v) - PayoutsTo(first.events, v) + PaidBetween(era, before, after, v)
    decreases |before|
  {
    assert HookStep(cfg, before[0], after[0]);
    var failing :| after[0] == OnInitialize(before[0], cfg, failing);
    HookBalances(before[0], cfg, failing, v);
    if |before| > 1 {
      BlocksTail(cfg, era, before, after);
      PayoutsBalance(cfg, era, before[1..], after[1..], v);
      assert before[1].events == after[0].events;
    }
  }

  /** What others pay is never negative: between blocks a past era's pages only go down. */
  lemma {:induction false} PaidBetweenNonNegative(cfg: Config, era: EraIndex, before: seq<State>, after: seq<State>,
      v: AccountId)
    requires EraBlocks(cfg, era, before, after) && era < before[0].staking.Active()
    ensures PaidBetween(era, before, after, v) >= 0
    decreases |before|
  {
    if |before| > 1 {
      BlocksTail(cfg, era, before, after);
      assert HookStep(cfg, before[0], after[0]);
      var failing :| after[0] == OnInitialize(before[0], cfg, failing);
      assert after[0].staking.Active() == before[0].staking.Active();
      assert Between(after[0], before[1]);
      PaidBetweenNonNegative(cfg, era, before[1..], after[1..], v);
    }
  }
}
