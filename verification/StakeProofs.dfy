/** When a proved stake is a stored one: exactly when its leaf cannot be read as a commitment's. */
module StakeProofs {
  import Accounts
  import opened AttestationTree
  import opened Common
  import opened Endian
  import opened Scale
  import opened StorageKeys

  // ----- A proved stake is a stored one -----

  lemma {:induction false} SameStakeLeaf(keys: seq<Val>, v: Val, v': Val)
    requires TypedEntry(LocksLeaf, keys, v) && TypedEntry(LocksLeaf, keys, v') && v.second == v'.second
    requires SameAmount(v'.first.items, v.first.items)
    ensures EncodeLeaf(LocksLeaf, keys, v) == EncodeLeaf(LocksLeaf, keys, v')
  {
    assert StakingAmount(v'.first.items) == StakingAmount(v.first.items) by {
      StakeShape(keys, v);
      StakeShape(keys, v');
      SameAmountIff(v'.first.items, v.first.items);
    }
    var account, amount, chain, address := StakeParts(keys, v);
    var account', amount', chain', address' := StakeParts(keys, v');
  }

  lemma {:induction false} EntryStake(prefix: Bytes, e: Entry, keys: seq<Val>, v: Val)
    requires TypedEntry(LocksLeaf, keys, v)
    ensures EntryLeaf(LocksLeaf, prefix, e) == Ok(EncodeLeaf(LocksLeaf, keys, v)) <==> SameStake(prefix, e, keys, v)
  {
    if DecodeEntry(Locks(prefix), e.0, e.1).Ok? {
      EntryTyped(Locks(prefix), e.0, e.1);
      var (keys', v') := DecodeEntry(Locks(prefix), e.0, e.1).value;
      assert TypedEntry(LocksLeaf, keys', v');
      if EntryLeaf(LocksLeaf, prefix, e) == Ok(EncodeLeaf(LocksLeaf, keys, v)) {
        EqualStakeLeaves(keys', v', keys, v);
      }
      if SameStake(prefix, e, keys, v) {
        SameStakeLeaf(keys, v, v');
      }
    }
  }

  // ----- Leaves that read as a commitment's -----

  function AsVec(b: Bytes): Val {
    VVec(seq(|b|, i requires 0 <= i < |b| => VUint(b[i])))
  }

  lemma {:induction false} AsVecTyped(b: Bytes, bound: nat)
    requires |b| <= bound && bound < U32_LIMIT
    ensures var t := TVec(TUint(1), Some(bound)); Typed(AsVec(b), t) && BytesOf(AsVec(b), t) == b
  {
    SmallPowers();
    var t := TVec(TUint(1), Some(bound));
    assert AllTyped(AsVec(b).items, TUint(1));
    assert BytesOf(AsVec(b), t) == b;
  }

  /** Some typed commitment entry has this leaf. */
  ghost predicate HasCommitment(leaf: Bytes) {
    exists keys, v :: TypedEntry(CommitmentLeaf, keys, v) && EncodeLeaf(CommitmentLeaf, keys, v) == leaf
  }

  /** A period at this place splits the identifier into two parts of at most 64 bytes. */
  predicate SplitsAt(leaf: Bytes, p: nat)
    requires leaf != [] && leaf[0] + 2 <= |leaf|
  {
    p < leaf[0] && leaf[1 + p] == ASCII_PERIOD && p <= 64 && leaf[0] - 1 - p <= 64
  }

  /** A length, an identifier of that length with a period in it, a scheme, and not too many further bytes. */
  ghost predicate ReadsAsCommitment(leaf: Bytes) {
    && leaf != [] && leaf[0] + 2 <= |leaf| && |leaf| - 2 - leaf[0] <= 45_328
    && leaf[leaf[0] + 1] < 2
    && exists p: nat :: SplitsAt(leaf, p)
  }

  lemma {:induction false} LeafReads(ns: Bytes, name: Bytes, scheme: Byte, data: Bytes)
    requires |ns| <= IDENT_LENGTH && |name| <= IDENT_LENGTH && scheme < 2 && |data| <= TABLE_COMMITMENT_MAX_LENGTH
    ensures ReadsAsCommitment(CommitmentKeyLeaf(ns, name, scheme) + data)
  {
    var id := ns + [ASCII_PERIOD] + name;
    var leaf := CommitmentKeyLeaf(ns, name, scheme) + data;
    assert leaf == [|id|] + id + [scheme] + data;
    assert leaf[|id| + 1] == scheme;
    assert id[|ns|] == ASCII_PERIOD && leaf[1 + |ns|] == id[|ns|];
    assert SplitsAt(leaf, |ns|);
  }

  lemma {:induction false} ReadsLeaf(leaf: Bytes, p: nat)
    requires leaf != [] && leaf[0] + 2 <= |leaf| && SplitsAt(leaf, p)
    ensures CommitmentKeyLeaf(leaf[1..1 + p], leaf[2 + p..1 + leaf[0]], leaf[leaf[0] + 1]) + leaf[leaf[0] + 2..] == leaf
  {
    var l := leaf[0];
    var id := leaf[1..1 + p] + [ASCII_PERIOD] + leaf[2 + p..1 + l];
    assert id == leaf[1..1 + l];
    assert [l] + id + [leaf[l + 1]] == leaf[..l + 2];
    assert leaf == leaf[..l + 2] + leaf[l + 2..];
  }

  function CommitmentKeys(ns: Bytes, name: Bytes, scheme: Byte): seq<Val> {
    [VPair(AsVec(name), AsVec(ns)), VEnum(scheme)]
  }

  lemma {:induction false} CommitmentOf(ns: Bytes, name: Bytes, scheme: Byte, data: Bytes)
    requires |ns| <= IDENT_LENGTH && |name| <= IDENT_LENGTH && scheme < 2 && |data| <= TABLE_COMMITMENT_MAX_LENGTH
    ensures var keys := CommitmentKeys(ns, name, scheme);
            && TypedEntry(CommitmentLeaf, keys, AsVec(data))
            && EncodeLeaf(CommitmentLeaf, keys, AsVec(data)) == CommitmentKeyLeaf(ns, name, scheme) + data
  {
    var keys := CommitmentKeys(ns, name, scheme);
    AsVecTyped(ns, IDENT_LENGTH);
    AsVecTyped(name, IDENT_LENGTH);
    AsVecTyped(data, TABLE_COMMITMENT_MAX_LENGTH);
    assert Typed(keys[0], TABLE_IDENTIFIER) && Typed(keys[1], COMMITMENT_SCHEME);
    CommitmentShape(keys, AsVec(data));
  }

  lemma {:induction false} CommitmentLeafReads(keys: seq<Val>, v: Val)
    requires TypedEntry(CommitmentLeaf, keys, v)
    ensures ReadsAsCommitment(EncodeLeaf(CommitmentLeaf, keys, v))
  {
    CommitmentShape(keys, v);
    LeafReads(BytesOf(keys[0].second, BYTE_STRING), BytesOf(keys[0].first, BYTE_STRING), keys[1].index,
              BytesOf(v, Commitments([]).value));
  }

  lemma {:induction false} ReadsHasCommitment(leaf: Bytes) returns (keys: seq<Val>, v: Val)
    requires ReadsAsCommitment(leaf)
    ensures TypedEntry(CommitmentLeaf, keys, v) && EncodeLeaf(CommitmentLeaf, keys, v) == leaf
  {
    var p: nat :| SplitsAt(leaf, p);
    var l := leaf[0];
    ReadsLeaf(leaf, p);
    CommitmentOf(leaf[1..1 + p], leaf[2 + p..1 + l], leaf[l + 1], leaf[l + 2..]);
    keys, v := CommitmentKeys(leaf[1..1 + p], leaf[2 + p..1 + l], leaf[l + 1]), AsVec(leaf[l + 2..]);
  }

  /** Bytes are the leaf of some commitment exactly when they read as one. */
  lemma {:induction false} ReadsAsCommitmentIff(leaf: Bytes)
    ensures HasCommitment(leaf) <==> ReadsAsCommitment(leaf)
  {
    if HasCommitment(leaf) {
      var keys, v :| TypedEntry(CommitmentLeaf, keys, v) && EncodeLeaf(CommitmentLeaf, keys, v) == leaf;
      CommitmentLeafReads(keys, v);
    }
    if ReadsAsCommitment(leaf) {
      var keys, v := ReadsHasCommitment(leaf);
    }
  }

  // ----- Proved and stored -----

  lemma {:induction false} StartsWith(a: Bytes, b: Bytes)
    requires a != []
    ensures (a + b)[0] == a[0]
  {
  }

  /** The leaf of a forwardable account's stake begins with a zero. */
  lemma {:induction false} ForwardableLeafStart(keys: seq<Val>, v: Val)
    requires TypedEntry(LocksLeaf, keys, v) && keys[0].VFixed? && Accounts.Forwardable(keys[0].bytes)
    ensures EncodeLeaf(LocksLeaf, keys, v) != [] && EncodeLeaf(LocksLeaf, keys, v)[0] == 0
  {
    var account, amount, chain, address := StakeParts(keys, v);
    assert account[..Accounts.PADDING][0] == 0;
    StartsWith(account, StakeLeaf(amount, chain, address));
  }

  lemma {:induction false} LeafAmong(src: Source, kind: Kind, leaf: Bytes)
    requires AllLeaves(src).Ok?
    ensures var own := EncodeLeaves(kind, src.Prefix(kind), src.Entries(kind));
            own.Ok? && (leaf in own.value <==>
              exists i :: 0 <= i < |src.Entries(kind)|
                 && EntryLeaf(kind, src.Prefix(kind), src.Entries(kind)[i]) == Ok(leaf))
  {
    LeavesFollowEntries(kind, src.Prefix(kind), src.Entries(kind));
    var own := EncodeLeaves(kind, src.Prefix(kind), src.Entries(kind)).value;
    if leaf in own {
      var i :| 0 <= i < |own| && own[i] == leaf;
      assert EntryLeaf(kind, src.Prefix(kind), src.Entries(kind)[i]) == Ok(own[i]);
    }
    if i :| 0 <= i < |src.Entries(kind)| && EntryLeaf(kind, src.Prefix(kind), src.Entries(kind)[i]) == Ok(leaf) {
      assert own[i] == leaf;
    }
  }

  ghost predicate StakeStored(src: Source, keys: seq<Val>, v: Val)
    requires TypedEntry(LocksLeaf, keys, v)
  {
    exists i :: 0 <= i < |src.Entries(LocksLeaf)| && SameStake(src.lockPrefix, src.Entries(LocksLeaf)[i], keys, v)
  }

  lemma {:induction false} StakeAmongLeaves(src: Source, keys: seq<Val>, v: Val)
    requires TypedEntry(LocksLeaf, keys, v) && !ReadsAsCommitment(EncodeLeaf(LocksLeaf, keys, v)) && AllLeaves(src).Ok?
    ensures EncodeLeaf(LocksLeaf, keys, v) in AllLeaves(src).value <==> StakeStored(src, keys, v)
  {
    var leaf, entries := EncodeLeaf(LocksLeaf, keys, v), src.Entries(LocksLeaf);
    LeafAmong(src, CommitmentLeaf, leaf);
    LeafAmong(src, LocksLeaf, leaf);
    forall i | 0 <= i < |src.commits| ensures EntryLeaf(CommitmentLeaf, src.commitPrefix, src.commits[i]) != Ok(leaf) {
      EntryReads(src.commitPrefix, src.commits[i]);
    }
    forall i | 0 <= i < |entries|
      ensures EntryLeaf(LocksLeaf, src.lockPrefix, entries[i]) == Ok(leaf)
         <==> SameStake(src.lockPrefix, entries[i], keys, v)
    {
      EntryStake(src.lockPrefix, entries[i], keys, v);
    }
  }

  lemma {:induction false} EntryReads(prefix: Bytes, e: Entry)
    ensures EntryLeaf(CommitmentLeaf, prefix, e).Ok? ==> ReadsAsCommitment(EntryLeaf(CommitmentLeaf, prefix, e).value)
  {
    if DecodeEntry(Commitments(prefix), e.0, e.1).Ok? {
      EntryTyped(Commitments(prefix), e.0, e.1);
      var (keys, v) := DecodeEntry(Commitments(prefix), e.0, e.1).value;
      CommitmentLeafReads(keys, v);
    }
  }

  /** In this tree the stake can be proved exactly when it is stored. */
  ghost predicate ProvedIffStored(lib: Library, src: Source, keys: seq<Val>, v: Val)
    requires TypedEntry(LocksLeaf, keys, v) && TreeFromPrefixes(lib, src).Ok?
  {
    ProveLeafPair(lib, TreeFromPrefixes(lib, src).value, LocksLeaf, keys, v).Some? <==> StakeStored(src, keys, v)
  }

  /** In every tree over these two maps whose leaves the hash tells apart from the stake's. */
  ghost predicate AlwaysProvedIffStored(lib: Library, cp: Bytes, lp: Bytes, info: Bytes, keys: seq<Val>, v: Val)
    requires TypedEntry(LocksLeaf, keys, v)
  {
    forall src: Source :: src.commitPrefix == cp && src.lockPrefix == lp && src.info == info ==>
      TreeFromPrefixes(lib, src).Ok? && lib.TellsApart(EncodeLeaf(LocksLeaf, keys, v), AllLeaves(src).value) ==>
        ProvedIffStored(lib, src, keys, v)
  }

  lemma {:induction false} ApartProvedIffStored(lib: Library, src: Source, keys: seq<Val>, v: Val)
    requires lib.Valid() && TreeFromPrefixes(lib, src).Ok? && TypedEntry(LocksLeaf, keys, v)
    requires lib.TellsApart(EncodeLeaf(LocksLeaf, keys, v), AllLeaves(src).value)
    requires !ReadsAsCommitment(EncodeLeaf(LocksLeaf, keys, v))
    ensures ProvedIffStored(lib, src, keys, v)
  {
    ProvableIff(lib, src, LocksLeaf, keys, v);
    StakeAmongLeaves(src, keys, v);
  }

  /** A stake whose leaf reads as a commitment's can be proved in a tree without any locks. */
  lemma {:induction false} ProvableWithoutLocks(lib: Library, d: Digests, cp: Bytes, lp: Bytes, info: Bytes,
      keys: seq<Val>, v: Val)
    returns (src: Source)
    requires lib.Valid() && d.Valid() && (forall l :: l != [] ==> lib.build(l).Some?) && TypedEntry(LocksLeaf, keys, v)
    requires ReadsAsCommitment(EncodeLeaf(LocksLeaf, keys, v))
    ensures src.commitPrefix == cp && src.lockPrefix == lp && src.info == info && src.locks == []
    ensures TreeFromPrefixes(lib, src).Ok? && AllLeaves(src) == Ok([EncodeLeaf(LocksLeaf, keys, v)])
    ensures ProveLeafPair(lib, TreeFromPrefixes(lib, src).value, LocksLeaf, keys, v).Some? && !StakeStored(src, keys, v)
  {
    var keys', commitment := ReadsHasCommitment(EncodeLeaf(LocksLeaf, keys, v));
    var m := Commitments(cp);
    var e := (StorageKey(d, m, keys'), Encode(commitment, m.value));
    src := Source(cp, lp, [e], [], info);
    WrittenEntryLeaf(d, CommitmentLeaf, cp, keys', commitment);
    LoneLeaf(src, e);
    ProvableIff(lib, src, LocksLeaf, keys, v);
  }

  /** For any stake of any account: proofs of it mean storage, in all trees, exactly when its leaf does not read as a
      commitment's. */
  lemma {:induction false} ProofsMeanStorageIff(lib: Library, d: Digests, cp: Bytes, lp: Bytes, info: Bytes,
      keys: seq<Val>, v: Val)
    requires lib.Valid() && d.Valid() && (forall l :: l != [] ==> lib.build(l).Some?) && TypedEntry(LocksLeaf, keys, v)
    ensures AlwaysProvedIffStored(lib, cp, lp, info, keys, v) <==> !ReadsAsCommitment(EncodeLeaf(LocksLeaf, keys, v))
  {
    if ReadsAsCommitment(EncodeLeaf(LocksLeaf, keys, v)) {
      var src := ProvableWithoutLocks(lib, d, cp, lp, info, keys, v);
      assert !ProvedIffStored(lib, src, keys, v);
    } else {
      forall src: Source | TreeFromPrefixes(lib, src).Ok?
                           && lib.TellsApart(EncodeLeaf(LocksLeaf, keys, v), AllLeaves(src).value)
        ensures ProvedIffStored(lib, src, keys, v)
      {
        ApartProvedIffStored(lib, src, keys, v);
      }
    }
  }

  /** For the accounts that are forwarded, a stake can be proved exactly when storage holds that account with that
      amount and contract, as long as the hash tells its leaf apart from those in the tree. */
  lemma {:induction false} StakeProvableIffStored(lib: Library, src: Source, keys: seq<Val>, v: Val)
    requires lib.Valid() && TreeFromPrefixes(lib, src).Ok? && TypedEntry(LocksLeaf, keys, v)
    requires keys[0].VFixed? && Accounts.Forwardable(keys[0].bytes)
    requires lib.TellsApart(EncodeLeaf(LocksLeaf, keys, v), AllLeaves(src).value)
    ensures ProveLeafPair(lib, TreeFromPrefixes(lib, src).value, LocksLeaf, keys, v).Some?
       <==> StakeStored(src, keys, v)
  {
    ForwardableLeafStart(keys, v);
    ApartProvedIffStored(lib, src, keys, v);
  }

  // ----- An account whose stakes all read as commitments -----

  /** The identifier "a.b" and the first scheme, read as the first bytes of an account. */
  const LOOKALIKE: Bytes := [3, 97, 46, 98, 0] + Zeros(27)

  lemma {:induction false} StakeSharesLeaf(v: Val)
    requires Typed(v, Locks([]).value)
    ensures TypedEntry(LocksLeaf, [VFixed(LOOKALIKE)], v)
    ensures ReadsAsCommitment(EncodeLeaf(LocksLeaf, [VFixed(LOOKALIKE)], v))
  {
    LookalikeAccount(v);
    var account, amount, chain, address := StakeParts([VFixed(LOOKALIKE)], v);
    AddressLength([VFixed(LOOKALIKE)], v);
    LookalikeReads(StakeLeaf(amount, chain, address));
  }

  lemma {:induction false} LookalikeReads(stake: Bytes)
    requires |stake| == 83
    ensures ReadsAsCommitment(LOOKALIKE + stake)
  {
    var leaf := LOOKALIKE + stake;
    assert leaf[0] == 3 && leaf[2] == 46 && leaf[4] == 0;
    assert SplitsAt(leaf, 1);
  }

  lemma {:induction false} LookalikeAccount(v: Val)
    requires Typed(v, Locks([]).value)
    ensures TypedEntry(LocksLeaf, [VFixed(LOOKALIKE)], v)
  {
    assert Typed(VFixed(LOOKALIKE), TFixed(32));
  }

  lemma {:induction false} LoneLeaf(src: Source, e: Entry)
    requires src.commits == [e] && src.locks == [] && EntryLeaf(CommitmentLeaf, src.commitPrefix, e).Ok?
    ensures AllLeaves(src) == Ok([EntryLeaf(CommitmentLeaf, src.commitPrefix, e).value])
  {
    LoneOwn(CommitmentLeaf, src.commitPrefix, e);
    assert WithContractInfo(src.locks, src.info) == [];
    assert Collect(x => EntryLeaf(LocksLeaf, src.lockPrefix, x), []) == Ok([]);
    assert EncodeLeaves(LocksLeaf, src.lockPrefix, []) == Ok([]);
    var own := EncodeLeaves(CommitmentLeaf, src.commitPrefix, [e]).value;
    assert own + [] == own;
  }

  lemma {:induction false} LoneOwn(kind: Kind, prefix: Bytes, e: Entry)
    requires EntryLeaf(kind, prefix, e).Ok?
    ensures EncodeLeaves(kind, prefix, [e]) == Ok([EntryLeaf(kind, prefix, e).value])
  {
    CollectOne(x => EntryLeaf(kind, prefix, x), e);
  }
}
