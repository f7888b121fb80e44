/** The permissions pallet: who may do what, and what a delegated permission can ever grow into. */
module Permissions {
  import opened Common

  const MAX_PERMISSIONS: nat := 32

  datatype TablesPalletPermission = EditSchema | EditRewards | EditUuid

  datatype GovernancePalletPermission = AddIndexer | RemoveIndexer

  datatype IndexingPalletPermission =
    | SubmitDataForPublicQuorum
    | SubmitDataForPrivilegedQuorum(table: TableIdentifier)

  datatype AttestationPalletPermission = AttestBlock | ForwardAttestedBlock

  datatype SmartContractsPalletPermission = UpdateABI

  datatype PermissionLevel =
    | UpdatePermissions
    | UserCreated(name: Bytes)
    | TablesPallet(tables: TablesPalletPermission)
    | GovernancePallet(governance: GovernancePalletPermission)
    | IndexingPallet(indexing: IndexingPalletPermission)
    | AttestationPallet(attestation: AttestationPalletPermission)
    | SmartContractsPallet(contracts: SmartContractsPalletPermission)
    | EditSpecificPermission(inner: PermissionLevel)

  type PermissionList = l: seq<PermissionLevel> | |l| <= MAX_PERMISSIONS
  type Grants = map<AccountId, PermissionList>

  datatype Error =
    | InsufficientPermissions
    | EmptyPermissionsListError
    | UnsignedTransaction
    | PermissionAlreadyExists
    | PermissionListFull

  datatype Call =
    | SetPermissions(who: AccountId, permissions: PermissionList)
    | ClearPermissions(who: AccountId)
    | AddProxyPermission(proxy: AccountId, permission: PermissionLevel)
  {
    /** The account whose list the call edits. */
    function Account(): AccountId {
      if AddProxyPermission? then proxy else who
    }
  }

  datatype Event = PermissionsSet(who: AccountId, permissions: PermissionList)

  predicate HasPermissions(g: Grants, who: AccountId, p: PermissionLevel) {
    who in g && p in g[who]
  }

  function Held(g: Grants, who: AccountId): PermissionList {
    if who in g then g[who] else []
  }

  function EnsureRootOrPermissioned(g: Grants, origin: Origin, p: PermissionLevel)
    : (r: Result<Option<AccountId>, Error>)
    ensures r.Ok? <==> origin.Root? || (origin.Signed? && HasPermissions(g, origin.who, p))
    ensures r.Ok? ==> (r.value.None? <==> origin.Root?) && (r.value.Some? ==> origin == Signed(r.value.value))
    ensures r.Err? ==> r.error == if origin.Signed? then InsufficientPermissions else UnsignedTransaction
  {
    match origin
    case Root => Ok(None)
    case Signed(who) => if HasPermissions(g, who, p) then Ok(Some(who)) else Err(InsufficientPermissions)
    case Unsigned => Err(UnsignedTransaction)
  }

  /** What the call leaves in storage, or the error that leaves storage as it was. */
  function Dispatch(g: Grants, origin: Origin, call: Call): (r: Result<Grants, Error>) {
    match call
    case SetPermissions(who, permissions) =>
      (match EnsureRootOrPermissioned(g, origin, UpdatePermissions)
       case Err(e) => Err(e)
       case Ok(_) =>
         if |permissions| == 0 then Err(EmptyPermissionsListError) else Ok(g[who := permissions]))
    case ClearPermissions(who) =>
      (match EnsureRootOrPermissioned(g, origin, UpdatePermissions)
       case Err(e) => Err(e)
       case Ok(_) => Ok(g - {who}))
    case AddProxyPermission(proxy, permission) =>
      (match EnsureRootOrPermissioned(g, origin, EditSpecificPermission(permission))
       case Err(e) => Err(e)
       case Ok(_) =>
         var current := Held(g, proxy);
         if permission in current then Err(PermissionAlreadyExists)
         else if |current| == MAX_PERMISSIONS then Err(PermissionListFull)
         else Ok(g[proxy := current + [permission]]))
  }

  datatype Step = Step(origin: Origin, call: Call)

  function Apply(g: Grants, s: Step): Grants {
    match Dispatch(g, s.origin, s.call)
    case Ok(g') => g'
    case Err(_) => g
  }

  function Run(g: Grants, steps: seq<Step>): Grants
    decreases |steps|
  {
    if steps == [] then g else Run(Apply(g, steps[0]), steps[1..])
  }

  /** The pallet's storage, updated in place by its extrinsics. */
  class PermissionsPallet {
    var permissions: Grants
    var events: seq<Event>

    constructor (initial: Grants)
      ensures permissions == initial && events == []
    {
      permissions := initial;
      events := [];
    }

    /** Storage follows `Dispatch`; an event reports exactly the list now stored for the account. */
    method Execute(origin: Origin, call: Call) returns (r: Result<(), Error>)
      modifies this
      ensures permissions == Apply(old(permissions), Step(origin, call))
      ensures match Dispatch(old(permissions), origin, call)
              case Err(e) => r == Err(e) && events == old(events)
              case Ok(_) =>
                && r == Ok(())
                && events == old(events) + [PermissionsSet(call.Account(), Held(permissions, call.Account()))]
    {
      match call {
        case SetPermissions(who, list) =>
          var check := EnsureRootOrPermissioned(permissions, origin, UpdatePermissions);
          if check.Err? {
            return Err(check.error);
          }
          if |list| == 0 {
            return Err(EmptyPermissionsListError);
          }
          permissions := permissions[who := list];
          events := events + [PermissionsSet(who, list)];
        case ClearPermissions(who) =>
          var check := EnsureRootOrPermissioned(permissions, origin, UpdatePermissions);
          if check.Err? {
            return Err(check.error);
          }
          permissions := permissions - {who};
          events := events + [PermissionsSet(who, [])];
        case AddProxyPermission(proxy, permission) =>
          var check := EnsureRootOrPermissioned(permissions, origin, EditSpecificPermission(permission));
          if check.Err? {
            return Err(check.error);
          }
          var list := Held(permissions, proxy);
          if permission in list {
            return Err(PermissionAlreadyExists);
          }
          if |list| == MAX_PERMISSIONS {
            return Err(PermissionListFull);
          }
          list := list + [permission];
          permissions := permissions[proxy := list];
          events := events + [PermissionsSet(proxy, list)];
      }
      return Ok(());
    }
  }

  // ----- What one call changes -----

  /** A call succeeds exactly under the caller's right and its own side condition. */
  lemma {:induction false} DispatchOkIff(g: Grants, origin: Origin, call: Call)
    ensures Dispatch(g, origin, call).Ok? <==>
      match call
      case SetPermissions(_, list) => Authorised(g, origin, UpdatePermissions) && list != []
      case ClearPermissions(_) => Authorised(g, origin, UpdatePermissions)
      case AddProxyPermission(proxy, p) =>
        Authorised(g, origin, EditSpecificPermission(p)) && !HasPermissions(g, proxy, p)
           && |Held(g, proxy)| < 32
  {
  }

  ghost predicate Authorised(g: Grants, origin: Origin, p: PermissionLevel) {
    origin.Root? || (origin.Signed? && HasPermissions(g, origin.who, p))
  }

  /** How a call fails: for want of a right or a signature first, then for its own reason. */
  lemma {:induction false} RejectedAs(g: Grants, origin: Origin, call: Call)
    ensures var needed := if call.AddProxyPermission? then EditSpecificPermission(call.permission)
                          else UpdatePermissions;
            var r := Dispatch(g, origin, call);
            && (origin.Unsigned? ==> r == Err(UnsignedTransaction))
            && (origin.Signed? && !HasPermissions(g, origin.who, needed) ==> r == Err(InsufficientPermissions))
            && (Authorised(g, origin, needed) ==>
                  && (call.SetPermissions? && call.permissions == [] ==> r == Err(EmptyPermissionsListError))
                  && (call.AddProxyPermission? && HasPermissions(g, call.proxy, call.permission) ==>
                        r == Err(PermissionAlreadyExists))
                  && (call.AddProxyPermission? && !HasPermissions(g, call.proxy, call.permission) ==>
                        |Held(g, call.proxy)| == 32 ==> r == Err(PermissionListFull)))
  {
  }

  /** The list a successful call leaves: the given one, none, or the old one with the permission at its end. */
  lemma {:induction false} ListAfter(g: Grants, origin: Origin, call: Call)
    requires Dispatch(g, origin, call).Ok?
    ensures Held(Apply(g, Step(origin, call)), call.Account()) ==
      match call
      case SetPermissions(_, list) => list
      case ClearPermissions(_) => []
      case AddProxyPermission(proxy, p) => Held(g, proxy) + [p]
    ensures call.ClearPermissions? ==> call.who !in Apply(g, Step(origin, call))
  {
  }

  /** What anyone holds after a successful call, for every account and permission. */
  lemma {:induction false} EffectOfCall(g: Grants, origin: Origin, call: Call, a: AccountId, p: PermissionLevel)
    requires Dispatch(g, origin, call).Ok?
    ensures HasPermissions(Apply(g, Step(origin, call)), a, p) <==>
      if a != call.Account() then HasPermissions(g, a, p)
      else match call
        case SetPermissions(_, list) => p in list
        case ClearPermissions(_) => false
        case AddProxyPermission(_, q) => p == q || HasPermissions(g, a, p)
  {
  }

  // ----- What the events tell -----

  /** The events of a run: each successful call reports the list it leaves. */
  function LogOf(g: Grants, steps: seq<Step>): seq<Event>
    decreases |steps|
  {
    if steps == [] then []
    else
      var g', a := Apply(g, steps[0]), steps[0].call.Account();
      (if Dispatch(g, steps[0].origin, steps[0].call).Ok? then [PermissionsSet(a, Held(g', a))] else [])
      + LogOf(g', steps[1..])
  }

  /** The list in the account's last event, or the one it started with. */
  function LastSet(log: seq<Event>, a: AccountId, initial: PermissionList): PermissionList
    decreases |log|
  {
    if log == [] then initial
    else LastSet(log[1..], a, if log[0].who == a then log[0].permissions else initial)
  }

  lemma {:induction false} StepHeld(g: Grants, s: Step, a: AccountId)
    ensures Dispatch(g, s.origin, s.call).Err? || a != s.call.Account() ==> Held(Apply(g, s), a) == Held(g, a)
  {
  }

  lemma {:induction false} LastSetCons(e: Event, log: seq<Event>, a: AccountId, initial: PermissionList)
    ensures LastSet([e] + log, a, initial) == LastSet(log, a, if e.who == a then e.permissions else initial)
  {
    assert ([e] + log)[1..] == log;
  }

  /** After every run the events alone tell what any account holds. */
  lemma {:induction false} LogTellsHeld(g: Grants, steps: seq<Step>, a: AccountId)
    ensures Held(Run(g, steps), a) == LastSet(LogOf(g, steps), a, Held(g, a))
    decreases |steps|
  {
    if steps != [] {
      var g', rest := Apply(g, steps[0]), LogOf(Apply(g, steps[0]), steps[1..]);
      LogTellsHeld(g', steps[1..], a);
      StepHeld(g, steps[0], a);
      if Dispatch(g, steps[0].origin, steps[0].call).Ok? {
        var who := steps[0].call.Account();
        LastSetCons(PermissionsSet(who, Held(g', who)), rest, a, Held(g, a));
      } else {
        assert [] + rest == rest;
      }
    }
  }

  // ----- What delegation can reach -----

  /** `q` is `p` with some outer `EditSpecificPermission` layers removed. */
  predicate Strips(p: PermissionLevel, q: PermissionLevel) {
    p == q || (p.EditSpecificPermission? && Strips(p.inner, q))
  }

  function Nesting(p: PermissionLevel): nat {
    if p.EditSpecificPermission? then 1 + Nesting(p.inner) else 0
  }

  ghost predicate Derivable(g: Grants, p: PermissionLevel) {
    exists a, q :: HasPermissions(g, a, q) && Strips(q, p)
  }

  predicate WithoutRoot(steps: seq<Step>) {
    forall i :: 0 <= i < |steps| ==> !steps[i].origin.Root?
  }

  /** No run without root ever gives anyone a permission that is not derivable from the start. */
  ghost predicate Confined(g: Grants) {
    forall steps, a, p :: WithoutRoot(steps) && HasPermissions(Run(g, steps), a, p) ==> Derivable(g, p)
  }

  lemma {:induction false} StripsTransitive(p: PermissionLevel, q: PermissionLevel, r: PermissionLevel)
    requires Strips(p, q) && Strips(q, r)
    ensures Strips(p, r)
  {
    if p != q {
      StripsTransitive(p.inner, q, r);
    }
  }

  lemma {:induction false} StripsNesting(p: PermissionLevel, q: PermissionLevel)
    requires Strips(p, q)
    ensures Nesting(q) <= Nesting(p)
  {
    if p != q {
      StripsNesting(p.inner, q);
    }
  }

  ghost predicate DerivedFrom(g0: Grants, g: Grants) {
    forall a, p :: HasPermissions(g, a, p) ==> Derivable(g0, p)
  }

  lemma {:induction false} StepKeepsDerived(g0: Grants, g: Grants, s: Step)
    requires DerivedFrom(g0, g) && !Derivable(g0, UpdatePermissions) && !s.origin.Root?
    ensures DerivedFrom(g0, Apply(g, s))
  {
    DispatchOkIff(g, s.origin, s.call);
    if Dispatch(g, s.origin, s.call).Ok? {
      assert s.call.AddProxyPermission?;
      var permission := s.call.permission;
      assert HasPermissions(g, s.origin.who, EditSpecificPermission(permission));
      var a, q :| HasPermissions(g0, a, q) && Strips(q, EditSpecificPermission(permission));
      StripsTransitive(q, EditSpecificPermission(permission), permission);
      forall b, p | HasPermissions(Apply(g, s), b, p) ensures Derivable(g0, p) {
        EffectOfCall(g, s.origin, s.call, b, p);
      }
    }
  }

  lemma {:induction false} RunKeepsDerived(g0: Grants, g: Grants, steps: seq<Step>)
    requires DerivedFrom(g0, g) && !Derivable(g0, UpdatePermissions) && WithoutRoot(steps)
    ensures DerivedFrom(g0, Run(g, steps))
    decreases |steps|
  {
    if steps != [] {
      StepKeepsDerived(g0, g, steps[0]);
      RunKeepsDerived(g0, Apply(g, steps[0]), steps[1..]);
    }
  }

  lemma {:induction false} RunAppend(g: Grants, xs: seq<Step>, ys: seq<Step>)
    ensures Run(g, xs + ys) == Run(Run(g, xs), ys)
    decreases |xs|
  {
    if xs == [] {
      assert xs + ys == ys;
    } else {
      assert (xs + ys)[1..] == xs[1..] + ys;
      RunAppend(Apply(g, xs[0]), xs[1..], ys);
    }
  }

  lemma {:induction false} UnusedAccount(g: Grants) returns (unused: AccountId)
    ensures unused !in g
  {
    var bound: nat := 0;
    var rest := g.Keys;
    while rest != {}
      invariant rest <= g.Keys
      invariant forall a :: a in g && a !in rest ==> a < bound
    {
      var a :| a in rest;
      rest := rest - {a};
      bound := if a < bound then bound else a + 1;
    }
    unused := bound;
  }

  /** Peels a nested right to edit permissions one layer per call, each time through an unused account. */
  lemma {:induction false} ReachUpdate(g: Grants, a: AccountId, p: PermissionLevel)
    returns (steps: seq<Step>, holder: AccountId)
    requires HasPermissions(g, a, p) && Strips(p, UpdatePermissions)
    ensures WithoutRoot(steps) && HasPermissions(Run(g, steps), holder, UpdatePermissions)
    decreases p
  {
    if p == UpdatePermissions {
      steps, holder := [], a;
    } else {
      var unused := UnusedAccount(g);
      var step := Step(Signed(a), AddProxyPermission(unused, p.inner));
      var rest;
      rest, holder := ReachUpdate(Apply(g, step), unused, p.inner);
      steps := [step] + rest;
      assert steps[1..] == rest;
    }
  }

  lemma {:induction false} ListNestingBound(l: seq<PermissionLevel>) returns (bound: nat)
    ensures forall p :: p in l ==> Nesting(p) <= bound
  {
    bound := 0;
    for i := 0 to |l|
      invariant forall j :: 0 <= j < i ==> Nesting(l[j]) <= bound
    {
      bound := if Nesting(l[i]) <= bound then bound else Nesting(l[i]);
    }
  }

  lemma {:induction false} NestingBound(g: Grants) returns (bound: nat)
    ensures forall a, p :: HasPermissions(g, a, p) ==> Nesting(p) <= bound
  {
    bound := 0;
    var rest := g.Keys;
    while rest != {}
      invariant rest <= g.Keys
      invariant forall a, p :: HasPermissions(g, a, p) && a !in rest ==> Nesting(p) <= bound
    {
      var a :| a in rest;
      rest := rest - {a};
      var b := ListNestingBound(g[a]);
      bound := if b <= bound then bound else b;
    }
  }

  function Nested(n: nat): (p: PermissionLevel)
    ensures Nesting(p) == n
  {
    if n == 0 then UpdatePermissions else EditSpecificPermission(Nested(n - 1))
  }

  /** One grant of `UpdatePermissions` is enough to give any account any list. */
  lemma {:induction false} UpdateGrantsAnything(g: Grants, a: AccountId, p: PermissionLevel, target: AccountId,
      novel: PermissionLevel)
    returns (steps: seq<Step>)
    requires HasPermissions(g, a, p) && Strips(p, UpdatePermissions)
    ensures WithoutRoot(steps) && HasPermissions(Run(g, steps), target, novel)
  {
    var prefix, holder := ReachUpdate(g, a, p);
    var last := Step(Signed(holder), SetPermissions(target, [novel]));
    steps := prefix + [last];
    RunAppend(g, prefix, [last]);
    assert Run(Run(g, prefix), [last]) == Apply(Run(g, prefix), last);
  }

  /** Delegation is confined exactly when no initial permission strips to `UpdatePermissions`. */
  lemma {:induction false} ConfinedIffNoUpdate(g: Grants)
    ensures Confined(g) <==> !Derivable(g, UpdatePermissions)
  {
    if !Derivable(g, UpdatePermissions) {
      forall steps, a, p | WithoutRoot(steps) && HasPermissions(Run(g, steps), a, p)
        ensures Derivable(g, p)
      {
        assert DerivedFrom(g, g) by {
          forall b, q | HasPermissions(g, b, q) ensures Derivable(g, q) {
            assert Strips(q, q);
          }
        }
        RunKeepsDerived(g, g, steps);
      }
    } else {
      var a, p :| HasPermissions(g, a, p) && Strips(p, UpdatePermissions);
      var bound := NestingBound(g);
      var novel := Nested(bound + 1);
      var steps := UpdateGrantsAnything(g, a, p, a, novel);
      if Derivable(g, novel) {
        var b, q :| HasPermissions(g, b, q) && Strips(q, novel);
        StripsNesting(q, novel);
        assert false;
      }
    }
  }

  /** Nesting depth never grows in a confined run. */
  lemma {:induction false} ConfinedNestingNeverGrows(g: Grants, steps: seq<Step>, bound: nat)
    requires !Derivable(g, UpdatePermissions) && WithoutRoot(steps)
    requires forall a, p :: HasPermissions(g, a, p) ==> Nesting(p) <= bound
    ensures forall a, p :: HasPermissions(Run(g, steps), a, p) ==> Nesting(p) <= bound
  {
    ConfinedIffNoUpdate(g);
    forall a, p | HasPermissions(Run(g, steps), a, p) ensures Nesting(p) <= bound {
      assert Derivable(g, p);
      var b, q :| HasPermissions(g, b, q) && Strips(q, p);
      StripsNesting(q, p);
    }
  }
}
