/** The indexing pallet: votes on data batches, and the decision that one agreeing list triggers. */
module Indexing {
  import opened Common
  import Permissions

  const MAX_SUBMITTERS: nat := 32

  type BatchId = Bytes
  type RowData = Bytes

  datatype QuorumScope = Public | Privileged

  /** Numbers of matching submissions to exceed; `None` closes the scope. */
  datatype InsertQuorumSize = InsertQuorumSize(public: Option<Byte>, privileged: Option<Byte>) {
    function OfScope(scope: QuorumScope): Option<Byte> {
      match scope
      case Public => public
      case Privileged => privileged
    }
  }

  /** The hash of a submission, taken to be collision-free: one value per (data, block number). */
  datatype DataHash = DataHash(data: RowData, blockNumber: Option<nat>)

  datatype SubmittersByScope = SubmittersByScope(public: set<AccountId>, privileged: set<AccountId>) {
    function OfScope(scope: QuorumScope): set<AccountId> {
      match scope
      case Public => public
      case Privileged => privileged
    }

    /** Inserts into one of the two capped sets; at the cap a new account is handed back. */
    function WithSubmitter(who: AccountId, scope: QuorumScope)
      : (r: Result<SubmittersByScope, (SubmittersByScope, AccountId)>)
      ensures r.Ok? <==> who in OfScope(scope) || |OfScope(scope)| < MAX_SUBMITTERS
      ensures r.Ok? ==> r.value.OfScope(scope) == OfScope(scope) + {who}
      ensures r.Ok? ==> forall other :: other != scope ==> r.value.OfScope(other) == OfScope(other)
      ensures r.Err? ==> r.error == (this, who)
    {
      if who in OfScope(scope) || |OfScope(scope)| < MAX_SUBMITTERS then
        match scope
        case Public => Ok(this.(public := public + {who}))
        case Privileged => Ok(this.(privileged := privileged + {who}))
      else
        Err((this, who))
    }
  }

  const NO_SUBMITTERS := SubmittersByScope({}, {})

  datatype DataSubmission = DataSubmission(table: TableIdentifier, batchId: BatchId, dataHash: DataHash,
      scope: QuorumScope)

  datatype DataQuorum = DataQuorum(
    table: TableIdentifier, batchId: BatchId, dataHash: DataHash, blockNumber: nat,
    agreements: set<AccountId>, dissents: set<AccountId>, scope: QuorumScope)

  datatype Event =
    | DataSubmitted(who: AccountId, submission: DataSubmission)
    | QuorumReached(quorum: DataQuorum, data: Bytes)
    | QuorumEmptyBlock(table: TableIdentifier, blockNumber: nat, agreements: set<AccountId>, dissents: set<AccountId>)
    | SystemTableUpdate(table: TableIdentifier, data: Bytes)
    | SystemTableError(table: TableIdentifier, data: Bytes)

  datatype Error =
    | BadOrigin
    | UnauthorizedSubmitter
    | LateBatch
    | InvalidTable
    | NoData
    | InvalidBatch
    | AlreadySubmitted
    | FinalizationError(code: nat)

  /** Outcome of converting the rows and committing to them, once a batch is decided. */
  datatype Insert = Insert(maxBlockNumber: Option<nat>, rows: nat, bytes: Bytes, systemTableOk: bool)

  /** What a call reads from the rest of the chain. */
  datatype Chain = Chain(
    permissions: Permissions.Grants, quorums: map<TableIdentifier, InsertQuorumSize>,
    schemas: set<TableIdentifier>, blockNumber: nat, conversion: Result<Insert, nat>)
  {
    function QuorumOf(table: TableIdentifier): InsertQuorumSize {
      if table in quorums then quorums[table] else InsertQuorumSize(None, None)
    }

    predicate CanSubmit(origin: Origin, table: TableIdentifier, scope: QuorumScope) {
      && Permissions.EnsureRootOrPermissioned(permissions, origin, ScopePermission(table, scope)).Ok?
      && QuorumOf(table).OfScope(scope).Some?
    }
  }

  function ScopePermission(table: TableIdentifier, scope: QuorumScope): Permissions.PermissionLevel {
    match scope
    case Public => Permissions.IndexingPallet(Permissions.SubmitDataForPublicQuorum)
    case Privileged => Permissions.IndexingPallet(Permissions.SubmitDataForPrivilegedQuorum(table))
  }

  datatype Call = Call(
    origin: Origin, table: TableIdentifier, batchId: BatchId, data: RowData, blockNumber: Option<nat>, chain: Chain)
  {
    function Hash(): DataHash {
      DataHash(data, blockNumber)
    }

    predicate Can(scope: QuorumScope) {
      chain.CanSubmit(origin, table, scope)
    }
  }

  /** The pallet's storage, with every event it has emitted since genesis. */
  datatype Storage = Storage(
    submissions: map<(BatchId, DataHash), SubmittersByScope>, finalData: map<BatchId, DataQuorum>,
    blockNumbers: map<TableIdentifier, nat>, events: seq<Event>)
  {
    function Submitters(b: BatchId, h: DataHash): SubmittersByScope {
      if (b, h) in submissions then submissions[(b, h)] else NO_SUBMITTERS
    }

    function Votes(b: BatchId, h: DataHash, scope: QuorumScope): set<AccountId> {
      Submitters(b, h).OfScope(scope)
    }
  }

  const GENESIS := Storage(map[], map[], map[], [])

  // ----- The first accounts in order -----

  lemma {:induction false} LeastExists(s: set<AccountId>)
    requires s != {}
    ensures exists m :: m in s && forall y :: y in s ==> m <= y
  {
    var m :| m in s;
    if s != {m} {
      LeastExists(s - {m});
      var k :| k in s - {m} && forall y :: y in s - {m} ==> k <= y;
      var least := if m <= k then m else k;
      assert least in s && forall y :: y in s ==> least <= y by {
        forall y | y in s ensures least <= y {
          assert y == m || y in s - {m};
        }
      }
    }
  }

  function Least(s: set<AccountId>): (m: AccountId)
    requires s != {}
    ensures m in s && forall y :: y in s ==> m <= y
  {
    LeastExists(s);
    var m :| m in s && forall y :: y in s ==> m <= y;
    m
  }

  /** `r` is the first `n` elements of `s` in account order. */
  ghost predicate IsFirst(r: set<AccountId>, s: set<AccountId>, n: nat) {
    && r <= s
    && |r| == (if |s| < n then |s| else n)
    && forall x, y :: x in r && y in s && y !in r ==> x < y
  }

  function First(s: set<AccountId>, n: nat): (r: set<AccountId>)
    ensures IsFirst(r, s, n)
  {
    if n == 0 || s == {} then {} else
      var m := Least(s);
      {m} + First(s - {m}, n - 1)
  }

  lemma {:induction false} SubsetSize(a: set<AccountId>, b: set<AccountId>)
    requires a <= b
    ensures |a| <= |b| && (|a| == |b| ==> a == b)
  {
    assert b == a + (b - a);
    assert |b| == |a| + |b - a|;
  }

  lemma {:induction false} FirstUnique(r: set<AccountId>, r': set<AccountId>, s: set<AccountId>, n: nat)
    requires IsFirst(r, s, n) && IsFirst(r', s, n)
    ensures r == r'
  {
    if r <= r' {
      SubsetSize(r, r');
    } else if r' <= r {
      SubsetSize(r', r);
    }
  }

  // ----- The extrinsic -----

  function Dissenters(s: Storage, b: BatchId, h: DataHash, scope: QuorumScope): set<AccountId> {
    set k, a | k in s.submissions.Keys && k.0 == b && k.1 != h && a in s.submissions[k].OfScope(scope) :: a
  }

  function ValidateSubmission(s: Storage, c: Call): Result<(), Error> {
    if c.batchId in s.finalData then Err(LateBatch)
    else if c.table.namespace == [] || c.table.name == [] then Err(InvalidTable)
    else if c.data == [] then Err(NoData)
    else if c.batchId == [] then Err(InvalidBatch)
    else if c.table !in c.chain.schemas then Err(InvalidTable)
    else Ok(())
  }

  /** Records one vote and reports the decision it triggers, if any. */
  function SubmitAndFindQuorum(s: Storage, c: Call, who: AccountId, scope: QuorumScope)
    : Result<(Storage, Option<DataQuorum>), Error>
  {
    var b, h := c.batchId, c.Hash();
    var current := s.Submitters(b, h);
    var next := match current.WithSubmitter(who, scope)
                case Ok(n) => n
                case Err((same, _)) => same;
    if |next.OfScope(scope)| == |current.OfScope(scope)| then Err(AlreadySubmitted)
    else
      var s' := s.(
        submissions := s.submissions[(b, h) := next],
        events := s.events + [DataSubmitted(who, DataSubmission(c.table, b, h, scope))]);
      var size := c.chain.QuorumOf(c.table).OfScope(scope);
      if size.Some? && AsU8(|next.OfScope(scope)|) > size.value then
        var dissents := First(Dissenters(s', b, h, scope), MAX_SUBMITTERS);
        Ok((s', Some(DataQuorum(c.table, b, h, c.chain.blockNumber, next.OfScope(scope), dissents, scope))))
      else
        Ok((s', None))
  }

  function SubmitIfAllowed(s: Storage, c: Call, who: AccountId, scope: QuorumScope)
    : Result<(Storage, Option<DataQuorum>), Error>
  {
    if c.Can(scope) then SubmitAndFindQuorum(s, c, who, scope) else Ok((s, None))
  }

  function WithoutBatch(submissions: map<(BatchId, DataHash), SubmittersByScope>, b: BatchId)
    : map<(BatchId, DataHash), SubmittersByScope>
  {
    map k | k in submissions && k.0 != b :: submissions[k]
  }

  predicate IsStakingTable(table: TableIdentifier) {
    table.namespace == [83, 88, 84, 95, 83, 89, 83, 84, 69, 77, 95, 83, 84, 65, 75, 73, 78, 71] // SXT_SYSTEM_STAKING
  }

  function FinalEvents(q: DataQuorum, blockNumber: Option<nat>, i: Insert): seq<Event> {
    [ if i.rows == 0
      then QuorumEmptyBlock(q.table, if blockNumber.Some? then blockNumber.value else 0, q.agreements, q.dissents)
      else QuorumReached(q, i.bytes) ]
    + if !IsStakingTable(q.table) then []
      else if i.systemTableOk then [SystemTableUpdate(q.table, i.bytes)]
      else [SystemTableError(q.table, i.bytes)]
  }

  function FinalizeQuorum(s: Storage, q: DataQuorum, c: Call): Result<Storage, Error> {
    match c.chain.conversion
    case Err(code) => Err(FinalizationError(code))
    case Ok(i) =>
      var bn := if c.blockNumber.Some? then c.blockNumber else i.maxBlockNumber;
      Ok(Storage(
           WithoutBatch(s.submissions, q.batchId),
           s.finalData[q.batchId := q],
           if bn.Some? then s.blockNumbers[q.table := bn.value] else s.blockNumbers,
           s.events + FinalEvents(q, c.blockNumber, i)))
  }

  /** The votes of one call, public before privileged; a public decision takes precedence. */
  function SubmitVotes(s: Storage, c: Call, who: AccountId): Result<(Storage, Option<DataQuorum>), Error> {
    match SubmitIfAllowed(s, c, who, Public)
    case Err(e) => Err(e)
    case Ok((s1, publicQuorum)) =>
      match SubmitIfAllowed(s1, c, who, Privileged)
      case Err(e) => Err(e)
      case Ok((s2, privilegedQuorum)) => Ok((s2, if publicQuorum.Some? then publicQuorum else privilegedQuorum))
  }

  function SubmitData(s: Storage, c: Call): Result<Storage, Error> {
    if !c.origin.Signed? then Err(BadOrigin)
    else if !c.Can(Public) && !c.Can(Privileged) then Err(UnauthorizedSubmitter)
    else match ValidateSubmission(s, c)
      case Err(e) => Err(e)
      case Ok(_) =>
        match SubmitVotes(s, c, c.origin.who)
        case Err(e) => Err(e)
        case Ok((s', decision)) =>
          if decision.Some? then FinalizeQuorum(s', decision.value, c) else Ok(s')
  }

  /** One extrinsic in its storage layer: an error undoes every write and event. */
  function Step(s: Storage, c: Call): Storage {
    match SubmitData(s, c)
    case Ok(s') => s'
    case Err(_) => s
  }

  function Run(s: Storage, calls: seq<Call>): Storage
    decreases |calls|
  {
    if calls == [] then s else Run(Step(s, calls[0]), calls[1..])
  }

  // ----- The pallet -----

  class IndexingPallet {
    var submissions: map<(BatchId, DataHash), SubmittersByScope>
    var finalData: map<BatchId, DataQuorum>
    var blockNumbers: map<TableIdentifier, nat>
    var events: seq<Event>

    ghost function Value(): Storage
      reads this
    {
      Storage(submissions, finalData, blockNumbers, events)
    }

    constructor ()
      ensures Value() == GENESIS
    {
      submissions, finalData, blockNumbers, events := map[], map[], map[], [];
    }

    method ClearBatch(b: BatchId)
      modifies this`submissions
      ensures submissions == WithoutBatch(old(submissions), b)
    {
      var keys := set k | k in submissions.Keys && k.0 == b;
      while keys != {}
        invariant forall k :: k in keys ==> k in submissions && k.0 == b
        invariant forall k :: k in submissions <==> k in old(submissions) && (k.0 == b ==> k in keys)
        invariant forall k :: k in submissions ==> submissions[k] == old(submissions)[k]
      {
        var k :| k in keys;
        submissions := submissions - {k};
        keys := keys - {k};
      }
    }

    method SubmitAndFind(c: Call, who: AccountId, scope: QuorumScope) returns (r: Result<Option<DataQuorum>, Error>)
      modifies this`submissions, this`events
      ensures match SubmitAndFindQuorum(old(Value()), c, who, scope)
              case Err(e) => r == Err(e) && Value() == old(Value())
              case Ok((s, q)) => r == Ok(q) && Value() == s
    {
      var b, h := c.batchId, c.Hash();
      var current := if (b, h) in submissions then submissions[(b, h)] else NO_SUBMITTERS;
      var inserted := current.WithSubmitter(who, scope);
      var next := if inserted.Ok? then inserted.value else inserted.error.0;
      if |next.OfScope(scope)| == |current.OfScope(scope)| {
        return Err(AlreadySubmitted);
      }
      submissions := submissions[(b, h) := next];
      events := events + [DataSubmitted(who, DataSubmission(c.table, b, h, scope))];
      var size := c.chain.QuorumOf(c.table).OfScope(scope);
      if size.Some? && AsU8(|next.OfScope(scope)|) > size.value {
        var differing := Dissenters(Storage(submissions, finalData, blockNumbers, events), b, h, scope);
        return Ok(Some(DataQuorum(c.table, b, h, c.chain.blockNumber, next.OfScope(scope),
                                  First(differing, MAX_SUBMITTERS), scope)));
      }
      return Ok(None);
    }

    method Finalize(q: DataQuorum, c: Call) returns (r: Result<(), Error>)
      modifies this
      ensures match FinalizeQuorum(old(Value()), q, c)
              case Err(e) => r == Err(e)
              case Ok(s) => r == Ok(()) && Value() == s
    {
      ClearBatch(q.batchId);
      finalData := finalData[q.batchId := q];
      if c.chain.conversion.Err? {
        return Err(FinalizationError(c.chain.conversion.error));
      }
      var i := c.chain.conversion.value;
      if c.blockNumber.Some? {
        blockNumbers := blockNumbers[q.table := c.blockNumber.value];
      } else if i.maxBlockNumber.Some? {
        blockNumbers := blockNumbers[q.table := i.maxBlockNumber.value];
      }
      events := events + FinalEvents(q, c.blockNumber, i);
      return Ok(());
    }

    /** The call body without its storage layer: on error the fields may be half updated. */
    method SubmitDataBody(c: Call) returns (r: Result<(), Error>)
      modifies this
      ensures match SubmitData(old(Value()), c)
              case Err(e) => r == Err(e)
              case Ok(s) => r == Ok(()) && Value() == s
    {
      if !c.origin.Signed? {
        return Err(BadOrigin);
      }
      if !c.Can(Public) && !c.Can(Privileged) {
        return Err(UnauthorizedSubmitter);
      }
      var valid := ValidateSubmission(Storage(submissions, finalData, blockNumbers, events), c);
      if valid.Err? {
        return Err(valid.error);
      }
      var publicQuorum, privilegedQuorum: Result<Option<DataQuorum>, Error> := Ok(None), Ok(None);
      if c.Can(Public) {
        publicQuorum := SubmitAndFind(c, c.origin.who, Public);
        if publicQuorum.Err? {
          return Err(publicQuorum.error);
        }
      }
      if c.Can(Privileged) {
        privilegedQuorum := SubmitAndFind(c, c.origin.who, Privileged);
        if privilegedQuorum.Err? {
          return Err(privilegedQuorum.error);
        }
      }
      if publicQuorum.value.Some? {
        r := Finalize(publicQuorum.value.value, c);
      } else if privilegedQuorum.value.Some? {
        r := Finalize(privilegedQuorum.value.value, c);
      } else {
        r := Ok(());
      }
    }

    /** The dispatched extrinsic: the fields are put back when the body fails. */
    method Dispatch(c: Call) returns (r: Result<(), Error>)
      modifies this
      ensures Value() == Step(old(Value()), c)
      ensures r.Ok? <==> SubmitData(old(Value()), c).Ok?
      ensures r.Err? ==> r.error == SubmitData(old(Value()), c).error
    {
      var a, b, d, e := submissions, finalData, blockNumbers, events;
      r := SubmitDataBody(c);
      if r.Err? {
        submissions, finalData, blockNumbers, events := a, b, d, e;
      }
    }
  }
}
