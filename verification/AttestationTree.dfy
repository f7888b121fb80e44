/** The leaves of the attestation tree, and agreement between building it and proving a leaf in it. */
module AttestationTree {
  import opened Common
  import opened Endian
  import opened Scale
  import opened StorageKeys

  const IDENT_LENGTH: nat := 64
  const TABLE_COMMITMENT_MAX_LENGTH: nat := 45_328
  const ASCII_PERIOD: Byte := 46
  const STAKING_LOCK_ID: Bytes := [115, 116, 97, 107, 105, 110, 103, 32] // "staking "

  // ----- The two storage maps -----

  const BYTE_STRING := TVec(TUint(1), Some(IDENT_LENGTH))

  /** Fields in declaration order: the name comes before the namespace. */
  const TABLE_IDENTIFIER := TPair(BYTE_STRING, BYTE_STRING)

  const COMMITMENT_SCHEME := TEnum(2)

  function Commitments(prefix: Bytes): Map {
    Map(prefix, [(Blake2_128Concat, TABLE_IDENTIFIER), (Blake2_128Concat, COMMITMENT_SCHEME)],
        TVec(TUint(1), Some(TABLE_COMMITMENT_MAX_LENGTH)))
  }

  /** A balance lock: identifier, amount, reasons. */
  const BALANCE_LOCK := TPair(TFixed(8), TPair(TUint(16), TEnum(3)))

  const LOCKS := TVec(BALANCE_LOCK, None)

  /** Chain id and contract address. */
  const CONTRACT_INFO := TPair(TUint(32), TFixed(20))

  function Locks(prefix: Bytes): Map {
    Map(prefix, [(Blake2_128Concat, TFixed(32))], TPair(LOCKS, CONTRACT_INFO))
  }

  // ----- Leaves -----

  function BytesOf(v: Val, t: Ty): (b: Bytes)
    requires t.TVec? && t.elem == TUint(1) && Typed(v, t)
    ensures |b| == |v.items|
  {
    SmallPowers();
    assert AllTyped(v.items, t.elem);
    seq(|v.items|, i requires 0 <= i < |v.items| => v.items[i].n)
  }

  /** "{namespace}.{name}", length-prefixed with one byte, then the scheme. */
  function CommitmentKeyLeaf(namespace: Bytes, name: Bytes, scheme: Byte): Bytes {
    var identifier := namespace + [ASCII_PERIOD] + name;
    [AsU8(|identifier|)] + identifier + [scheme]
  }

  function Zeros(n: nat): (b: Bytes)
    ensures |b| == n
  {
    seq(n, _ => 0)
  }

  /** 15 zero bytes and the amount: 248 bits, then chain id and address. */
  function StakeLeaf(amount: nat, chainId: nat, address: Bytes): Bytes {
    Zeros(15) + BigEndian(amount, 16) + BigEndian(chainId, 32) + address
  }

  /** The amount of the first staking lock, or 0. */
  function StakingAmount(locks: seq<Val>): nat
    requires AllTyped(locks, BALANCE_LOCK)
  {
    if locks == [] then 0
    else if locks[0].first.bytes == STAKING_LOCK_ID then locks[0].second.first.n
    else StakingAmount(locks[1..])
  }

  datatype Kind = CommitmentLeaf | LocksLeaf

  function MapOf(kind: Kind, prefix: Bytes): Map {
    match kind
    case CommitmentLeaf => Commitments(prefix)
    case LocksLeaf => Locks(prefix)
  }

  predicate TypedEntry(kind: Kind, keys: seq<Val>, v: Val) {
    TypedKeys(keys, MapOf(kind, []).keys) && Typed(v, MapOf(kind, []).value)
  }

  function EncodeLeaf(kind: Kind, keys: seq<Val>, v: Val): Bytes
    requires TypedEntry(kind, keys, v)
  {
    match kind
    case CommitmentLeaf =>
      assert Typed(keys[0], Commitments([]).keys[0].1) && Typed(keys[1], Commitments([]).keys[1].1);
      CommitmentKeyLeaf(BytesOf(keys[0].second, BYTE_STRING), BytesOf(keys[0].first, BYTE_STRING), keys[1].index)
      + BytesOf(v, Commitments([]).value)
    case LocksLeaf =>
      assert Typed(keys[0], TFixed(32)) && Typed(v.first, LOCKS) && Typed(v.second, CONTRACT_INFO);
      keys[0].bytes + StakeLeaf(StakingAmount(v.first.items), v.second.first.n, v.second.second.bytes)
  }

  // ----- Leaves determine what they stand for -----

  lemma {:induction false} PeriodFreeNoLonger(ns: Bytes, name: Bytes, ns': Bytes, name': Bytes)
    requires ns + [ASCII_PERIOD] + name == ns' + [ASCII_PERIOD] + name' && ASCII_PERIOD !in ns'
    ensures |ns'| <= |ns|
  {
    assert (ns + [ASCII_PERIOD] + name)[|ns|] == ASCII_PERIOD;
    assert forall k :: 0 <= k < |ns'| ==> (ns' + [ASCII_PERIOD] + name')[k] == ns'[k] && ns'[k] in ns';
  }

  lemma {:induction false} SplitAtPeriod(ns: Bytes, name: Bytes, ns': Bytes, name': Bytes)
    requires ns + [ASCII_PERIOD] + name == ns' + [ASCII_PERIOD] + name'
    requires ASCII_PERIOD !in ns && ASCII_PERIOD !in ns'
    ensures ns == ns' && name == name'
  {
    PeriodFreeNoLonger(ns, name, ns', name');
    PeriodFreeNoLonger(ns', name', ns, name);
    SplitEqual(ns + [ASCII_PERIOD], name, ns' + [ASCII_PERIOD], name');
    SplitEqual(ns, [ASCII_PERIOD], ns', [ASCII_PERIOD]);
  }

  /** Two commitment leaves agree exactly when dotted names, schemes and commitments do. The length byte holds the
      whole length: at most 129. */
  lemma {:induction false} CommitmentLeafEqualIff(ns: Bytes, name: Bytes, scheme: Byte, data: Bytes, ns': Bytes,
      name': Bytes,
      scheme': Byte, data': Bytes)
    requires |ns| <= IDENT_LENGTH && |name| <= IDENT_LENGTH && |ns'| <= IDENT_LENGTH && |name'| <= IDENT_LENGTH
    ensures CommitmentKeyLeaf(ns, name, scheme) + data == CommitmentKeyLeaf(ns', name', scheme') + data'
       <==> ns + [ASCII_PERIOD] + name == ns' + [ASCII_PERIOD] + name' && scheme == scheme' && data == data'
  {
    var id, id' := ns + [ASCII_PERIOD] + name, ns' + [ASCII_PERIOD] + name';
    var a, b := CommitmentKeyLeaf(ns, name, scheme) + data, CommitmentKeyLeaf(ns', name', scheme') + data';
    if a == b {
      assert a[0] == |id| && b[0] == |id'|;
      SplitEqual(CommitmentKeyLeaf(ns, name, scheme), data, CommitmentKeyLeaf(ns', name', scheme'), data');
      SplitEqual([|id|] + id, [scheme], [|id'|] + id', [scheme']);
      SplitEqual([|id|], id, [|id'|], id');
    }
  }

  /** The length byte holds the identifier's whole length exactly when that is below 256; stored identifiers stay
      below, and the longest have 129 bytes. */
  lemma {:induction false} LengthByteIff(ns: Bytes, name: Bytes, scheme: Byte)
    ensures CommitmentKeyLeaf(ns, name, scheme)[0] == |ns| + 1 + |name| <==> |ns| + 1 + |name| < 256
    ensures |ns| <= IDENT_LENGTH && |name| <= IDENT_LENGTH ==> CommitmentKeyLeaf(ns, name, scheme)[0] <= 129
    ensures |ns| == |name| == IDENT_LENGTH ==> CommitmentKeyLeaf(ns, name, scheme)[0] == 129
  {
    assert |ns + [ASCII_PERIOD] + name| == |ns| + 1 + |name|;
  }

  /** Commitment leaves are injective as long as namespaces contain no period. */
  lemma {:induction false} CommitmentLeafInjective(ns: Bytes, name: Bytes, scheme: Byte, data: Bytes, ns': Bytes,
      name': Bytes,
      scheme': Byte, data': Bytes)
    requires |ns| <= IDENT_LENGTH && |name| <= IDENT_LENGTH && |ns'| <= IDENT_LENGTH && |name'| <= IDENT_LENGTH
    requires ASCII_PERIOD !in ns && ASCII_PERIOD !in ns'
    requires CommitmentKeyLeaf(ns, name, scheme) + data == CommitmentKeyLeaf(ns', name', scheme') + data'
    ensures ns == ns' && name == name' && scheme == scheme' && data == data'
  {
    CommitmentLeafEqualIff(ns, name, scheme, data, ns', name', scheme', data');
    SplitAtPeriod(ns, name, ns', name');
  }

  /** A period in a namespace does let two identifiers share a leaf. */
  lemma {:induction false} PeriodInNamespace(scheme: Byte, data: Bytes)
    ensures CommitmentKeyLeaf([97, 46, 98], [99], scheme) + data == CommitmentKeyLeaf([97], [98, 46, 99], scheme) + data
  {
    assert [97, 46, 98] + [ASCII_PERIOD] + [99] == [97] + [ASCII_PERIOD] + [98, 46, 99];
  }

  /** Stake leaves are injective in account, amount, chain id and address. */
  lemma {:induction false} StakeLeafInjective(account: Bytes, amount: nat, chain: nat, address: Bytes,
      account': Bytes, amount': nat,
      chain': nat, address': Bytes)
    requires |account| == |account'| && amount < Pow256(16) && amount' < Pow256(16) && chain < Pow256(32)
       && chain' < Pow256(32)
    requires account + StakeLeaf(amount, chain, address) == account' + StakeLeaf(amount', chain', address')
    ensures account == account' && amount == amount' && chain == chain' && address == address'
  {
    SplitEqual(account, StakeLeaf(amount, chain, address), account', StakeLeaf(amount', chain', address'));
    var a, b := Zeros(15) + BigEndian(amount, 16), Zeros(15) + BigEndian(amount', 16);
    SplitEqual(a + BigEndian(chain, 32), address, b + BigEndian(chain', 32), address');
    SplitEqual(a, BigEndian(chain, 32), b, BigEndian(chain', 32));
    SplitEqual(Zeros(15), BigEndian(amount, 16), Zeros(15), BigEndian(amount', 16));
    BigEndianInjective(amount, amount', 16);
    BigEndianInjective(chain, chain', 32);
  }

  // ----- Building and proving -----

  type Entry = (Bytes, Bytes)

  datatype TreeError = DecodeStorage(error: DecodeStorageError) | CreateTreeFromLeaves

  datatype MerkleTree = MerkleTree(leaves: seq<Bytes>)

  /** The hashing and tree library: `prehash` is the first keccak of a leaf, `rehash` the one the tree applies. */
  datatype Library = Library(prehash: Bytes -> Bytes, rehash: Bytes -> Bytes, build: seq<Bytes> -> Option<MerkleTree>) {
    /** A tree holds exactly the hashes of the leaves given at construction. */
    ghost predicate Valid() {
      forall l {:trigger build(l)} :: build(l).Some? ==>
        forall h :: h in build(l).value.leaves <==> exists x :: x in l && rehash(x) == h
    }

    function LeafHash(leaf: Bytes): Bytes {
      rehash(prehash(leaf))
    }

    /** None of these leaves shares its double hash with a different leaf `a`. */
    ghost predicate TellsApart(a: Bytes, leaves: seq<Bytes>) {
      forall b :: b in leaves && LeafHash(b) == LeafHash(a) ==> b == a
    }
  }

  function EntryLeaf(kind: Kind, prefix: Bytes, e: Entry): Result<Bytes, DecodeStorageError> {
    match DecodeEntry(MapOf(kind, prefix), e.0, e.1)
    case Err(error) => Err(error)
    case Ok((keys, v)) =>
      EntryTyped(MapOf(kind, prefix), e.0, e.1);
      Ok(EncodeLeaf(kind, keys, v))
  }

  /** Leaves in entry order, or the first entry's error. */
  function EncodeLeaves(kind: Kind, prefix: Bytes, entries: seq<Entry>): Result<seq<Bytes>, DecodeStorageError> {
    Collect(e => EntryLeaf(kind, prefix, e), entries)
  }

  function WithContractInfo(locks: seq<Entry>, info: Bytes): (r: seq<Entry>)
    ensures |r| == |locks|
  {
    seq(|locks|, i requires 0 <= i < |locks| => (locks[i].0, locks[i].1 + info))
  }

  function Prehashed(lib: Library, leaves: seq<Bytes>): (r: seq<Bytes>)
    ensures |r| == |leaves|
  {
    seq(|leaves|, i requires 0 <= i < |leaves| => lib.prehash(leaves[i]))
  }

  /** Both storage maps together, as raw storage hands them over. */
  datatype Source = Source(commitPrefix: Bytes, lockPrefix: Bytes, commits: seq<Entry>, locks: seq<Entry>,
      info: Bytes) {
    function Prefix(kind: Kind): Bytes {
      if kind.CommitmentLeaf? then commitPrefix else lockPrefix
    }

    /** The entries of one kind; a lock's value is followed by the contract info. */
    function Entries(kind: Kind): seq<Entry> {
      if kind.CommitmentLeaf? then commits else WithContractInfo(locks, info)
    }
  }

  function AllLeaves(src: Source): Result<seq<Bytes>, DecodeStorageError> {
    match EncodeLeaves(CommitmentLeaf, src.Prefix(CommitmentLeaf), src.Entries(CommitmentLeaf))
    case Err(e) => Err(e)
    case Ok(first) =>
      match EncodeLeaves(LocksLeaf, src.Prefix(LocksLeaf), src.Entries(LocksLeaf))
      case Err(e) => Err(e)
      case Ok(second) => Ok(first + second)
  }

  function TreeFromPrefixes(lib: Library, src: Source): Result<MerkleTree, TreeError> {
    match AllLeaves(src)
    case Err(e) => Err(DecodeStorage(e))
    case Ok(leaves) =>
      match lib.build(Prehashed(lib, leaves))
      case None => Err(CreateTreeFromLeaves)
      case Some(tree) => Ok(tree)
  }

  /** The leaf's place in the tree, from which the library makes the proof; `None` is "no such leaf". */
  function ProveLeafPair(lib: Library, tree: MerkleTree, kind: Kind, keys: seq<Val>, v: Val): Option<nat>
    requires TypedEntry(kind, keys, v)
  {
    Locate(tree.leaves, lib.LeafHash(EncodeLeaf(kind, keys, v)))
  }

  function Locate(leaves: seq<Bytes>, h: Bytes): (r: Option<nat>)
    ensures r.Some? <==> h in leaves
    ensures r.Some? ==> r.value < |leaves| && leaves[r.value] == h
  {
    if leaves == [] then None
    else if leaves[0] == h then Some(0)
    else match Locate(leaves[1..], h)
      case None => None
      case Some(i) => Some(i + 1)
  }

  /** One leaf per entry in order if every entry is readable; otherwise the error of the first that is not. */
  lemma {:induction false} LeavesFollowEntries(kind: Kind, prefix: Bytes, entries: seq<Entry>)
    ensures match EncodeLeaves(kind, prefix, entries)
            case Ok(leaves) =>
              && |leaves| == |entries|
              && forall i :: 0 <= i < |entries| ==> EntryLeaf(kind, prefix, entries[i]) == Ok(leaves[i])
            case Err(e) =>
              exists i :: 0 <= i < |entries| && EntryLeaf(kind, prefix, entries[i]) == Err(e)
                          && forall j :: 0 <= j < i ==> EntryLeaf(kind, prefix, entries[j]).Ok?
  {
    CollectInOrder(e => EntryLeaf(kind, prefix, e), entries);
  }

  lemma {:induction false} BuiltTreeHolds(lib: Library, leaves: seq<Bytes>, h: Bytes)
    requires lib.Valid() && lib.build(Prehashed(lib, leaves)).Some?
    ensures h in lib.build(Prehashed(lib, leaves)).value.leaves <==> exists x :: x in leaves && lib.LeafHash(x) == h
  {
    var pre := Prehashed(lib, leaves);
    var tree := lib.build(pre).value;
    if h in tree.leaves {
      var y :| y in pre && lib.rehash(y) == h;
      var i :| 0 <= i < |pre| && pre[i] == y;
      assert leaves[i] in leaves && lib.LeafHash(leaves[i]) == h;
    }
    if x :| x in leaves && lib.LeafHash(x) == h {
      var i :| 0 <= i < |leaves| && leaves[i] == x;
      assert pre[i] in pre && lib.rehash(pre[i]) == h;
    }
  }

  /** A leaf can be proved exactly when one with its hash is among those the tree was built from, and so exactly when
      it is one of them itself, as long as the hash tells it apart from them. */
  lemma {:induction false} ProvableIff(lib: Library, src: Source, kind: Kind, keys: seq<Val>, v: Val)
    requires lib.Valid() && TypedEntry(kind, keys, v) && TreeFromPrefixes(lib, src).Ok?
    ensures var leaf, leaves := EncodeLeaf(kind, keys, v), AllLeaves(src).value;
            var proved := ProveLeafPair(lib, TreeFromPrefixes(lib, src).value, kind, keys, v).Some?;
            && (proved <==> exists x :: x in leaves && lib.LeafHash(x) == lib.LeafHash(leaf))
            && (leaf in leaves ==> proved)
            && (lib.TellsApart(leaf, leaves) ==> (proved <==> leaf in leaves))
  {
    var leaves := AllLeaves(src).value;
    BuiltTreeHolds(lib, leaves, lib.LeafHash(EncodeLeaf(kind, keys, v)));
  }

  lemma {:induction false} EntryAmongLeaves(src: Source, kind: Kind, i: nat)
    requires AllLeaves(src).Ok? && i < |src.Entries(kind)|
    ensures EntryLeaf(kind, src.Prefix(kind), src.Entries(kind)[i]).Ok?
    ensures EntryLeaf(kind, src.Prefix(kind), src.Entries(kind)[i]).value in AllLeaves(src).value
  {
    LeavesFollowEntries(kind, src.Prefix(kind), src.Entries(kind));
    var own := EncodeLeaves(kind, src.Prefix(kind), src.Entries(kind)).value;
    assert EntryLeaf(kind, src.Prefix(kind), src.Entries(kind)[i]) == Ok(own[i]);
    assert own[i] in own;
  }

  /** Every entry that went into the tree can be proved with its decoded key and value; for locks the value is the
      stored one with the contract info appended. */
  lemma {:induction false} EveryEntryProvable(lib: Library, src: Source, kind: Kind, i: nat)
    requires lib.Valid() && TreeFromPrefixes(lib, src).Ok? && i < |src.Entries(kind)|
    ensures var e := src.Entries(kind)[i];
            var decoded := DecodeEntry(MapOf(kind, src.Prefix(kind)), e.0, e.1);
            && decoded.Ok? && TypedEntry(kind, decoded.value.0, decoded.value.1)
            && ProveLeafPair(lib, TreeFromPrefixes(lib, src).value, kind, decoded.value.0, decoded.value.1).Some?
  {
    EntryAmongLeaves(src, kind, i);
    var e := src.Entries(kind)[i];
    EntryTyped(MapOf(kind, src.Prefix(kind)), e.0, e.1);
    var (keys, v) := DecodeEntry(MapOf(kind, src.Prefix(kind)), e.0, e.1).value;
    ProvableIff(lib, src, kind, keys, v);
  }

  ghost predicate Unreadable(kind: Kind, prefix: Bytes, e: Entry) {
    DecodeEntry(MapOf(kind, prefix), e.0, e.1).Err?
  }

  /** Building fails on storage exactly when some entry is unreadable. */
  lemma {:induction false} BuildFailsIff(lib: Library, src: Source)
    ensures var r := TreeFromPrefixes(lib, src);
            r.Err? && r.error.DecodeStorage? <==>
              exists kind, i :: 0 <= i < |src.Entries(kind)| && Unreadable(kind, src.Prefix(kind), src.Entries(kind)[i])
  {
    LeavesFollowEntries(CommitmentLeaf, src.commitPrefix, src.commits);
    LeavesFollowEntries(LocksLeaf, src.lockPrefix, src.Entries(LocksLeaf));
    forall kind, i | 0 <= i < |src.Entries(kind)|
      ensures Unreadable(kind, src.Prefix(kind), src.Entries(kind)[i])
         <==> EntryLeaf(kind, src.Prefix(kind), src.Entries(kind)[i]).Err?
    {
    }
  }

  /** This entry is the first of its kind that cannot be read, and this is why. */
  ghost predicate FirstBad(src: Source, kind: Kind, error: DecodeStorageError) {
    exists i :: 0 <= i < |src.Entries(kind)|
      && EntryLeaf(kind, src.Prefix(kind), src.Entries(kind)[i]) == Err(error)
      && forall j :: 0 <= j < i ==> EntryLeaf(kind, src.Prefix(kind), src.Entries(kind)[j]).Ok?
  }

  /** The error reported is that of the first bad commitment, and a bad lock's only if every commitment is readable. */
  lemma {:induction false} ErrorOfFirst(lib: Library, src: Source)
    ensures var r := TreeFromPrefixes(lib, src);
            r.Err? && r.error.DecodeStorage? ==>
              || FirstBad(src, CommitmentLeaf, r.error.error)
              || (FirstBad(src, LocksLeaf, r.error.error)
                  && forall i :: 0 <= i < |src.commits| ==>
                       EntryLeaf(CommitmentLeaf, src.commitPrefix, src.commits[i]).Ok?)
  {
    LeavesFollowEntries(CommitmentLeaf, src.commitPrefix, src.commits);
    LeavesFollowEntries(LocksLeaf, src.lockPrefix, src.Entries(LocksLeaf));
  }

  /** An entry written from typed values gives the leaf of those values. */
  lemma {:induction false} WrittenEntryLeaf(d: Digests, kind: Kind, prefix: Bytes, keys: seq<Val>, v: Val)
    requires d.Valid() && TypedEntry(kind, keys, v)
    ensures var m := MapOf(kind, prefix);
            EntryLeaf(kind, prefix, (StorageKey(d, m, keys), Encode(v, m.value))) == Ok(EncodeLeaf(kind, keys, v))
  {
    EntryRoundTrip(d, MapOf(kind, prefix), keys, v);
  }

  /** Appending the encoded contract info to a stored list of locks makes the encoding of the pair. */
  lemma {:induction false} LocksWithInfo(locks: Val, info: Val)
    requires Typed(locks, LOCKS) && Typed(info, CONTRACT_INFO)
    ensures Typed(VPair(locks, info), Locks([]).value)
    ensures Encode(locks, LOCKS) + Encode(info, CONTRACT_INFO) == Encode(VPair(locks, info), Locks([]).value)
  {
  }

  const STAKING_TEXT := "staking "

  /** The lock is a staking lock: its identifier is that text. */
  predicate IsStaking(lock: Val) {
    && lock.VPair? && lock.first.VFixed? && |lock.first.bytes| == |STAKING_TEXT|
    && forall i :: 0 <= i < |STAKING_TEXT| ==> lock.first.bytes[i] == STAKING_TEXT[i] as int
  }

  predicate FirstStaking(locks: seq<Val>, i: nat) {
    i < |locks| && IsStaking(locks[i]) && forall j :: 0 <= j < i ==> !IsStaking(locks[j])
  }

  /** `amount` is that of the first staking lock, or 0 if there is none. */
  ghost predicate AmountIs(locks: seq<Val>, amount: nat) {
    if exists i :: 0 <= i < |locks| && IsStaking(locks[i])
    then exists i: nat :: FirstStaking(locks, i) && locks[i].second.VPair? && locks[i].second.first == VUint(amount)
    else amount == 0
  }

  ghost predicate SameAmount(locks: seq<Val>, locks': seq<Val>) {
    exists amount: nat :: AmountIs(locks, amount) && AmountIs(locks', amount)
  }

  lemma {:induction false} IsStakingIff(lock: Val)
    requires Typed(lock, BALANCE_LOCK)
    ensures lock.VPair? && lock.first.VFixed? && (IsStaking(lock) <==> lock.first.bytes == STAKING_LOCK_ID)
  {
    LockShape(lock);
  }

  /** If the first staking lock is at `i`, the leaf carries its amount. */
  lemma {:induction false} StakingAmountAt(locks: seq<Val>, i: nat)
    requires AllTyped(locks, BALANCE_LOCK) && FirstStaking(locks, i)
    ensures locks[i].second.VPair? && locks[i].second.first == VUint(StakingAmount(locks))
    decreases |locks|
  {
    LockShape(locks[0]);
    IsStakingIff(locks[0]);
    if i > 0 {
      assert !IsStaking(locks[0]);
      TailFirst(locks, i);
      StakingAmountAt(locks[1..], i - 1);
    }
  }

  lemma {:induction false} TailFirst(locks: seq<Val>, i: nat)
    requires FirstStaking(locks, i) && i > 0
    ensures FirstStaking(locks[1..], i - 1) && locks[1..][i - 1] == locks[i]
  {
    forall j | 0 <= j < i - 1 ensures !IsStaking(locks[1..][j]) {
      assert locks[1..][j] == locks[j + 1];
    }
  }

  /** Without a staking lock it carries 0. */
  lemma {:induction false} NoStakingAmount(locks: seq<Val>)
    requires AllTyped(locks, BALANCE_LOCK) && forall j :: 0 <= j < |locks| ==> !IsStaking(locks[j])
    ensures StakingAmount(locks) == 0
    decreases |locks|
  {
    if locks != [] {
      IsStakingIff(locks[0]);
      forall j | 0 <= j < |locks[1..]| ensures !IsStaking(locks[1..][j]) {
        assert locks[1..][j] == locks[j + 1];
      }
      NoStakingAmount(locks[1..]);
    }
  }

  lemma {:induction false} SomeFirst(locks: seq<Val>, k: nat) returns (i: nat)
    requires k < |locks| && IsStaking(locks[k])
    ensures FirstStaking(locks, i)
  {
    i := 0;
    while !IsStaking(locks[i])
      invariant i <= k && forall j :: 0 <= j < i ==> !IsStaking(locks[j])
      decreases k - i
    {
      i := i + 1;
    }
  }

  lemma {:induction false} AmountIff(locks: seq<Val>, amount: nat)
    requires AllTyped(locks, BALANCE_LOCK)
    ensures AmountIs(locks, amount) <==> StakingAmount(locks) == amount
  {
    if k :| 0 <= k < |locks| && IsStaking(locks[k]) {
      var i := SomeFirst(locks, k);
      StakingAmountAt(locks, i);
      forall j: nat | FirstStaking(locks, j) ensures j == i {
      }
    } else {
      NoStakingAmount(locks);
    }
  }

  lemma {:induction false} SameAmountIff(locks: seq<Val>, locks': seq<Val>)
    requires AllTyped(locks, BALANCE_LOCK) && AllTyped(locks', BALANCE_LOCK)
    ensures SameAmount(locks, locks') <==> StakingAmount(locks) == StakingAmount(locks')
  {
    AmountIff(locks, StakingAmount(locks));
    AmountIff(locks', StakingAmount(locks));
    forall amount: nat ensures AmountIs(locks, amount) <==> StakingAmount(locks) == amount {
      AmountIff(locks, amount);
    }
  }

  /** The entry stands for this account, staking amount and contract. */
  ghost predicate SameStake(prefix: Bytes, e: Entry, keys: seq<Val>, v: Val)
    requires TypedEntry(LocksLeaf, keys, v)
  {
    && DecodeEntry(Locks(prefix), e.0, e.1).Ok?
    && var (keys', v') := DecodeEntry(Locks(prefix), e.0, e.1).value;
    && TypedEntry(LocksLeaf, keys', v')
    && keys' == keys && v'.second == v.second
    && SameAmount(v'.first.items, v.first.items)
  }

  lemma {:induction false} LockShape(lock: Val)
    requires Typed(lock, BALANCE_LOCK)
    ensures lock.VPair? && lock.first.VFixed? && lock.second.VPair? && lock.second.first.VUint?
    ensures lock.second.first.n < Pow256(16)
  {
    assert Typed(lock.second, TPair(TUint(16), TEnum(3)));
    assert Typed(lock.second.first, TUint(16));
  }

  lemma {:induction false} StakingAmountBound(locks: seq<Val>)
    requires AllTyped(locks, BALANCE_LOCK)
    ensures StakingAmount(locks) < Pow256(16)
  {
    if locks != [] {
      LockShape(locks[0]);
      StakingAmountBound(locks[1..]);
    }
  }

  /** What typing says about an account's entry. */
  lemma {:induction false} StakeShape(keys: seq<Val>, v: Val)
    requires TypedEntry(LocksLeaf, keys, v)
    ensures |keys| == 1 && keys[0].VFixed? && |keys[0].bytes| == 32
    ensures v.VPair? && v.first.VVec? && AllTyped(v.first.items, BALANCE_LOCK) && Typed(v.second, CONTRACT_INFO)
  {
    assert Typed(keys[0], TFixed(32));
    assert Typed(v.first, LOCKS) && Typed(v.second, CONTRACT_INFO);
  }

  lemma {:induction false} StakeBytes(keys: seq<Val>, v: Val, account: Bytes, chain: nat, address: Bytes)
    requires TypedEntry(LocksLeaf, keys, v)
    requires keys == [VFixed(account)] && v.VPair? && v.second == VPair(VUint(chain), VFixed(address))
    requires v.first.VVec? && AllTyped(v.first.items, BALANCE_LOCK)
    ensures EncodeLeaf(LocksLeaf, keys, v) == account + StakeLeaf(StakingAmount(v.first.items), chain, address)
  {
  }

  /** The parts an account's leaf is made of. */
  lemma {:induction false} StakeParts(keys: seq<Val>, v: Val) returns (account: Bytes, amount: nat, chain: nat,
      address: Bytes)
    requires TypedEntry(LocksLeaf, keys, v)
    ensures |account| == 32 && amount < Pow256(16) && chain < Pow256(32)
    ensures keys == [VFixed(account)] && v.second == VPair(VUint(chain), VFixed(address))
    ensures amount == StakingAmount(v.first.items)
    ensures EncodeLeaf(LocksLeaf, keys, v) == account + StakeLeaf(amount, chain, address)
  {
    StakeShape(keys, v);
    account, amount, chain, address :=
      keys[0].bytes, StakingAmount(v.first.items), v.second.first.n, v.second.second.bytes;
    StakingAmountBound(v.first.items);
    StakeBytes(keys, v, account, chain, address);
  }

  lemma {:induction false} EqualStakeLeaves(keys: seq<Val>, v: Val, keys': seq<Val>, v': Val)
    requires TypedEntry(LocksLeaf, keys, v) && TypedEntry(LocksLeaf, keys', v')
    requires EncodeLeaf(LocksLeaf, keys, v) == EncodeLeaf(LocksLeaf, keys', v')
    ensures keys == keys' && v.second == v'.second && SameAmount(v.first.items, v'.first.items)
  {
    var account, amount, chain, address := StakeParts(keys, v);
    var account', amount', chain', address' := StakeParts(keys', v');
    StakeLeafInjective(account, amount, chain, address, account', amount', chain', address');
    assert SameAmount(v.first.items, v'.first.items) by {
      StakeShape(keys, v);
      StakeShape(keys', v');
      SameAmountIff(v.first.items, v'.first.items);
    }
  }

  lemma {:induction false} BytesOfInjective(v: Val, w: Val, t: Ty)
    requires t.TVec? && t.elem == TUint(1) && Typed(v, t) && Typed(w, t) && BytesOf(v, t) == BytesOf(w, t)
    ensures v == w
  {
    assert AllTyped(v.items, t.elem) && AllTyped(w.items, t.elem);
    forall i | 0 <= i < |v.items| ensures v.items[i] == w.items[i] {
      assert BytesOf(v, t)[i] == v.items[i].n && BytesOf(w, t)[i] == w.items[i].n;
    }
  }

  /** What typing says about a commitment entry, part by part. */
  lemma {:induction false} CommitmentShape(keys: seq<Val>, v: Val)
    requires TypedEntry(CommitmentLeaf, keys, v)
    ensures |keys| == 2 && keys[0].VPair? && Typed(keys[0].first, BYTE_STRING) && Typed(keys[0].second, BYTE_STRING)
    ensures keys[1].VEnum? && keys[1].index < 2
    ensures EncodeLeaf(CommitmentLeaf, keys, v)
         == CommitmentKeyLeaf(BytesOf(keys[0].second, BYTE_STRING), BytesOf(keys[0].first, BYTE_STRING), keys[1].index)
            + BytesOf(v, Commitments([]).value)
  {
    assert Typed(keys[0], Commitments([]).keys[0].1) && Typed(keys[1], Commitments([]).keys[1].1);
  }

  /** Equal commitment leaves come from equal entries when the namespaces, second in storage, have no period. */
  lemma {:induction false} EqualCommitmentLeaves(keys: seq<Val>, v: Val, keys': seq<Val>, v': Val)
    requires TypedEntry(CommitmentLeaf, keys, v) && TypedEntry(CommitmentLeaf, keys', v')
    requires keys[0].VPair? && Typed(keys[0].second, BYTE_STRING)
       && ASCII_PERIOD !in BytesOf(keys[0].second, BYTE_STRING)
    requires keys'[0].VPair? && Typed(keys'[0].second, BYTE_STRING)
       && ASCII_PERIOD !in BytesOf(keys'[0].second, BYTE_STRING)
    requires EncodeLeaf(CommitmentLeaf, keys, v) == EncodeLeaf(CommitmentLeaf, keys', v')
    ensures keys == keys' && v == v'
  {
    CommitmentShape(keys, v);
    CommitmentShape(keys', v');
    var t, u := BYTE_STRING, Commitments([]).value;
    CommitmentLeafInjective(
      BytesOf(keys[0].second, t), BytesOf(keys[0].first, t), keys[1].index, BytesOf(v, u),
      BytesOf(keys'[0].second, t), BytesOf(keys'[0].first, t), keys'[1].index, BytesOf(v', u));
    BytesOfInjective(keys[0].first, keys'[0].first, t);
    BytesOfInjective(keys[0].second, keys'[0].second, t);
    BytesOfInjective(v, v', u);
  }

  // ----- Where everything is in a key -----

  /** The storage key of an account's locks: prefix, blake2 digest, account. */
  lemma {:induction false} LocksKeyForm(d: Digests, prefix: Bytes, account: Bytes)
    requires |account| == 32
    ensures TypedKeys([VFixed(account)], Locks(prefix).keys)
    ensures StorageKey(d, Locks(prefix), [VFixed(account)]) == prefix + (d.blake128(account) + account)
  {
    HasherWrites(d, TFixed(32), VFixed(account));
  }

  /** The storage key of a commitment: prefix, digest and encoding of the identifier (name, then namespace), digest and
      byte of the scheme. */
  lemma {:induction false} CommitmentKeyForm(d: Digests, prefix: Bytes, id: Val, scheme: Byte)
    requires Typed(id, TABLE_IDENTIFIER) && scheme < 2
    ensures TypedKeys([id, VEnum(scheme)], Commitments(prefix).keys)
    ensures id.VPair? && Typed(id.first, BYTE_STRING) && Typed(id.second, BYTE_STRING)
    ensures var e := Encode(id.first, BYTE_STRING) + Encode(id.second, BYTE_STRING);
            StorageKey(d, Commitments(prefix), [id, VEnum(scheme)])
            == prefix + (d.blake128(e) + e + (d.blake128([scheme]) + [scheme]))
  {
    HasherWrites(d, TABLE_IDENTIFIER, id);
    HasherWrites(d, COMMITMENT_SCHEME, VEnum(scheme));
    var one, two := [(Blake2_128Concat, TABLE_IDENTIFIER)], [(Blake2_128Concat, COMMITMENT_SCHEME)];
    assert TypedKeys([id], one) && TypedKeys([VEnum(scheme)], two);
    SuffixAppend(d, one, [id], two, [VEnum(scheme)]);
    assert one + two == Commitments(prefix).keys && [id] + [VEnum(scheme)] == [id, VEnum(scheme)];
  }

  // ----- Where everything is in a leaf -----

  /** A stake leaf byte by byte: account, fifteen zeros, amount, chain id, address. */
  lemma {:induction false} StakeLayout(keys: seq<Val>, v: Val)
    requires TypedEntry(LocksLeaf, keys, v)
    ensures var leaf := EncodeLeaf(LocksLeaf, keys, v);
            && |leaf| == 115 && keys == [VFixed(leaf[..32])] && leaf[32..47] == Zeros(15)
            && AmountIs(v.first.items, FromBigEndian(leaf[47..63]))
            && v.second == VPair(VUint(FromBigEndian(leaf[63..95])), VFixed(leaf[95..]))
  {
    var account, amount, chain, address := StakeParts(keys, v);
    AddressLength(keys, v);
    assert AmountIs(v.first.items, amount) by {
      StakeShape(keys, v);
      AmountIff(v.first.items, amount);
    }
    StakeFields(account, amount, chain, address);
  }

  lemma {:induction false} StakeFields(account: Bytes, amount: nat, chain: nat, address: Bytes)
    requires |account| == 32 && |address| == 20 && amount < Pow256(16) && chain < Pow256(32)
    ensures var leaf := account + StakeLeaf(amount, chain, address);
            && |leaf| == 115 && leaf[..32] == account && leaf[32..47] == Zeros(15)
            && FromBigEndian(leaf[47..63]) == amount && FromBigEndian(leaf[63..95]) == chain && leaf[95..] == address
  {
    StakeSlices(account, amount, chain, address);
    BigEndianReads(amount, 16);
    BigEndianReads(chain, 32);
  }

  lemma {:induction false} StakeSlices(account: Bytes, amount: nat, chain: nat, address: Bytes)
    requires |account| == 32 && |address| == 20
    ensures var leaf := account + StakeLeaf(amount, chain, address);
            && |leaf| == 115 && leaf[..32] == account && leaf[32..47] == Zeros(15)
            && leaf[47..63] == BigEndian(amount, 16) && leaf[63..95] == BigEndian(chain, 32) && leaf[95..] == address
  {
  }

  lemma {:induction false} AddressLength(keys: seq<Val>, v: Val)
    requires TypedEntry(LocksLeaf, keys, v)
    ensures v.second.second.VFixed? && |v.second.second.bytes| == 20
  {
    assert Typed(v.second, CONTRACT_INFO);
    assert Typed(v.second.second, TFixed(20));
  }

  /** A commitment leaf byte by byte: length, namespace, period, name, scheme, commitment; in storage the name comes
      before the namespace. */
  lemma {:induction false} CommitmentLayout(keys: seq<Val>, v: Val)
    requires TypedEntry(CommitmentLeaf, keys, v)
    ensures |keys| == 2 && keys[0].VPair? && keys[0].first.VVec? && keys[0].second.VVec? && keys[1].VEnum? && v.VVec?
    ensures var leaf, n, m := EncodeLeaf(CommitmentLeaf, keys, v), |keys[0].second.items|, |keys[0].first.items|;
            && |leaf| == n + m + 3 + |v.items| && leaf[0] == n + 1 + m
            && (forall i :: 0 <= i < n ==> keys[0].second.items[i] == VUint(leaf[1 + i]))
            && leaf[1 + n] == '.' as int
            && (forall i :: 0 <= i < m ==> keys[0].first.items[i] == VUint(leaf[2 + n + i]))
            && leaf[2 + n + m] == keys[1].index
            && (forall i :: 0 <= i < |v.items| ==> v.items[i] == VUint(leaf[3 + n + m + i]))
  {
    CommitmentShape(keys, v);
    var ns, name := BytesOf(keys[0].second, BYTE_STRING), BytesOf(keys[0].first, BYTE_STRING);
    var data := BytesOf(v, Commitments([]).value);
    BytesAre(keys[0].second, BYTE_STRING);
    BytesAre(keys[0].first, BYTE_STRING);
    BytesAre(v, Commitments([]).value);
    CommitmentSlices(ns, name, keys[1].index, data);
    var leaf, n, m := EncodeLeaf(CommitmentLeaf, keys, v), |ns|, |name|;
    assert forall i :: 0 <= i < n ==> ns[i] == leaf[1 + i];
    assert forall i :: 0 <= i < m ==> name[i] == leaf[2 + n + i];
    assert forall i :: 0 <= i < |data| ==> data[i] == leaf[3 + n + m + i];
  }

  lemma {:induction false} BytesAre(v: Val, t: Ty)
    requires t.TVec? && t.elem == TUint(1) && Typed(v, t)
    ensures v.VVec? && forall i :: 0 <= i < |v.items| ==> v.items[i] == VUint(BytesOf(v, t)[i])
  {
    assert AllTyped(v.items, t.elem);
  }

  lemma {:induction false} Middle(a: Bytes, b: Bytes, c: Bytes)
    ensures (a + b + c)[|a|..|a| + |b|] == b && (a + b + c)[|a| + |b|..] == c
  {
  }

  lemma {:induction false} CommitmentSlices(ns: Bytes, name: Bytes, scheme: Byte, data: Bytes)
    requires |ns| <= IDENT_LENGTH && |name| <= IDENT_LENGTH
    ensures var leaf, n, m := CommitmentKeyLeaf(ns, name, scheme) + data, |ns|, |name|;
            && |leaf| == n + m + 3 + |data| && leaf[0] == n + 1 + m
            && leaf[1..1 + n] == ns && leaf[1 + n] == ASCII_PERIOD && leaf[2 + n..2 + n + m] == name
            && leaf[2 + n + m] == scheme && leaf[3 + n + m..] == data
  {
    var leaf, len := CommitmentKeyLeaf(ns, name, scheme) + data, [|ns| + 1 + |name|];
    assert |ns + [ASCII_PERIOD] + name| == |ns| + 1 + |name|;
    assert leaf == len + ns + ([ASCII_PERIOD] + name + [scheme] + data);
    Middle(len, ns, [ASCII_PERIOD] + name + [scheme] + data);
    assert leaf == (len + ns + [ASCII_PERIOD]) + name + ([scheme] + data);
    Middle(len + ns + [ASCII_PERIOD], name, [scheme] + data);
    assert leaf == (len + ns + [ASCII_PERIOD] + name) + [scheme] + data;
    Middle(len + ns + [ASCII_PERIOD] + name, [scheme], data);
  }

  lemma {:induction false} BothKinds(src: Source)
    requires AllLeaves(src).Ok?
    ensures EncodeLeaves(CommitmentLeaf, src.commitPrefix, src.commits).Ok?
    ensures EncodeLeaves(LocksLeaf, src.lockPrefix, WithContractInfo(src.locks, src.info)).Ok?
    ensures AllLeaves(src).value == EncodeLeaves(CommitmentLeaf, src.commitPrefix, src.commits).value
              + EncodeLeaves(LocksLeaf, src.lockPrefix, WithContractInfo(src.locks, src.info)).value
  {
  }

  /** The tree's leaves begin with those of the commitments, in order. */
  lemma {:induction false} CommitmentsFirst(src: Source, i: nat)
    requires AllLeaves(src).Ok? && i < |src.commits|
    ensures |AllLeaves(src).value| == |src.commits| + |src.locks|
    ensures EntryLeaf(CommitmentLeaf, src.commitPrefix, src.commits[i]) == Ok(AllLeaves(src).value[i])
  {
    LeafNumber(src);
    BothKinds(src);
    OwnLeaf(CommitmentLeaf, src.commitPrefix, src.commits, i);
  }

  lemma {:induction false} LeafNumber(src: Source)
    requires AllLeaves(src).Ok?
    ensures |AllLeaves(src).value| == |src.commits| + |src.locks|
  {
    BothKinds(src);
    OwnLeaf(CommitmentLeaf, src.commitPrefix, src.commits, 0);
    OwnLeaf(LocksLeaf, src.lockPrefix, WithContractInfo(src.locks, src.info), 0);
  }

  /** Those of the locks follow, in order, each read with the contract info. */
  lemma {:induction false} LocksNext(src: Source, i: nat)
    requires AllLeaves(src).Ok? && i < |src.locks|
    ensures |AllLeaves(src).value| == |src.commits| + |src.locks|
    ensures EntryLeaf(LocksLeaf, src.lockPrefix, (src.locks[i].0, src.locks[i].1 + src.info))
         == Ok(AllLeaves(src).value[|src.commits| + i])
  {
    LeafNumber(src);
    BothKinds(src);
    var entries := WithContractInfo(src.locks, src.info);
    OwnLeaf(CommitmentLeaf, src.commitPrefix, src.commits, 0);
    OwnLeaf(LocksLeaf, src.lockPrefix, entries, i);
    assert entries[i] == (src.locks[i].0, src.locks[i].1 + src.info);
    Shifted(EncodeLeaves(CommitmentLeaf, src.commitPrefix, src.commits).value,
            EncodeLeaves(LocksLeaf, src.lockPrefix, entries).value);
  }

  lemma {:induction false} Shifted(a: seq<Bytes>, b: seq<Bytes>)
    ensures forall i :: 0 <= i < |a| ==> (a + b)[i] == a[i]
    ensures forall i :: 0 <= i < |b| ==> (a + b)[|a| + i] == b[i]
  {
  }

  lemma {:induction false} OwnLeaf(kind: Kind, prefix: Bytes, entries: seq<Entry>, i: nat)
    requires EncodeLeaves(kind, prefix, entries).Ok?
    ensures |EncodeLeaves(kind, prefix, entries).value| == |entries|
    ensures i < |entries| ==> EntryLeaf(kind, prefix, entries[i]) == Ok(EncodeLeaves(kind, prefix, entries).value[i])
  {
    LeavesFollowEntries(kind, prefix, entries);
  }
}
