/** The keystore and attestation pallets: whose key vouches for which block. */
module Attestations {
  import opened Common
  import opened Endian
  import Permissions

  const MAX_ATTESTATIONS: nat := 64

  const ATTEST_RIGHT := Permissions.AttestationPallet(Permissions.AttestBlock)
  const FORWARD_RIGHT := Permissions.AttestationPallet(Permissions.ForwardAttestedBlock)

  datatype Signature = Signature(r: Bytes, s: Bytes, v: Byte)

  datatype EthereumKey = EthereumKey(pubKey: Bytes, address20: Bytes)

  datatype UserKeystore = UserKeystore(ethKey: Option<EthereumKey>)

  datatype Attestation = Attestation(
    signature: Signature, pubKey: Bytes, address20: Bytes, stateRoot: Bytes, blockNumber: nat, blockHash: Bytes)

  /** Hashing, key recovery from a digest and the account encoding, which are library code. */
  datatype Crypto = Crypto(
    keccak: Bytes -> Bytes, recovers: (Bytes, Signature, Bytes) -> bool, accountBytes: AccountId -> Bytes)
  {
    function Digest(msg: Bytes): Bytes {
      keccak(Preimage(msg))
    }

    /** A signature is checked against the digest only. */
    predicate Verifies(msg: Bytes, sig: Signature, pubKey: Bytes) {
      recovers(Digest(msg), sig, pubKey)
    }

    /** The hash does not confuse these two messages. */
    ghost predicate TellsApart(m: Bytes, m': Bytes) {
      Digest(m) == Digest(m') ==> Preimage(m) == Preimage(m')
    }
  }

  datatype Event =
    | EthereumKeyRegistered(who: AccountId, key: EthereumKey)
    | EthereumKeyRemoved(who: AccountId)
    | BlockAttested(blockNumber: nat, attestation: Attestation, who: AccountId)

  datatype Error =
    | BadOrigin
    | VerificationError
    | EthereumKeyAlreadyRegistered
    | NoKeysRegistered
    | NoEthereumKeyRegistered
    | CannotAttestFutureBlock
    | PermissionError(permission: Permissions.Error)
    | KeyNotFound
    | KeyMismatch
    | SignatureVerificationFailed
    | AttestationAlreadyRecordedError
    | MaxAttestationsForBlockError

  datatype Storage = Storage(
    keys: map<AccountId, UserKeystore>, attestations: map<nat, seq<Attestation>>,
    lastForwarded: Option<nat>, events: seq<Event>)
  {
    function Recorded(block: nat): seq<Attestation> {
      if block in attestations then attestations[block] else []
    }

    function KeyOf(who: AccountId): Option<EthereumKey> {
      if who in keys then keys[who].ethKey else None
    }
  }

  const GENESIS := Storage(map[], map[], None, [])

  datatype Action =
    | RegisterKey(who: AccountId, signature: Signature, pubKey: Bytes, address20: Bytes)
    | UnregisterKey(who: AccountId)
    | AttestBlock(blockNumber: nat, attestation: Attestation)
    | MarkBlockForwarded(blockNumber: nat)

  datatype Call = Call(origin: Origin, grants: Permissions.Grants, currentBlock: nat, action: Action)

  // ----- The signed message -----

  /** State root followed by the block number as eight big-endian bytes. */
  function AttestationMessage(stateRoot: Bytes, blockNumber: nat): Bytes {
    stateRoot + BigEndian(blockNumber, 8)
  }

  function Decimal(n: nat): Bytes {
    if n < 10 then [48 + n] else Decimal(n / 10) + [48 + n % 10]
  }

  /** "\x19Ethereum Signed Message:\n", byte by byte. */
  const PREFIX: Bytes := [0x19, 69, 116, 104, 101, 114, 101, 117, 109, 32, 83, 105, 103, 110, 101, 100, 32,
                          77, 101, 115, 115, 97, 103, 101, 58, 10]

  /** What is hashed before signing, by EIP-191 version 0x45. */
  function Preimage(message: Bytes): Bytes {
    PREFIX + Decimal(|message|) + message
  }

  method CreateAttestationMessage(stateRoot: Bytes, blockNumber: nat) returns (msg: Bytes)
    ensures msg == AttestationMessage(stateRoot, blockNumber)
  {
    msg := [];
    msg := msg + stateRoot;
    msg := msg + BigEndian(blockNumber, 8);
  }

  /** The hasher is fed the prefix with the length, then the message. */
  method HashEthMsg(crypto: Crypto, message: Bytes) returns (digest: Bytes)
    ensures digest == crypto.Digest(message)
  {
    var fed: Bytes := PREFIX + Decimal(|message|);
    fed := fed + message;
    digest := crypto.keccak(fed);
  }

  method VerifyEthSignature(crypto: Crypto, msg: Bytes, sig: Signature, pubKey: Bytes) returns (ok: bool)
    ensures ok <==> crypto.Verifies(msg, sig, pubKey)
  {
    var digest := HashEthMsg(crypto, msg);
    ok := crypto.recovers(digest, sig, pubKey);
  }

  // ----- The length in the preimage -----

  /** Decimal digits read most significant first. */
  function FromDecimal(digits: Bytes): int {
    if digits == [] then 0 else 10 * FromDecimal(digits[..|digits| - 1]) + digits[|digits| - 1] - 48
  }

  /** The length is written in decimal: digits only, no leading zero, and they read as the number. */
  lemma {:induction false} DecimalReads(n: nat)
    ensures var d := Decimal(n);
            && d != [] && (forall i :: 0 <= i < |d| ==> 48 <= d[i] <= 57)
            && (d[0] == 48 <==> n == 0) && FromDecimal(d) == n
  {
    var d := Decimal(n);
    if n < 10 {
      assert d[..0] == [];
    } else {
      DecimalReads(n / 10);
      assert d[..|d| - 1] == Decimal(n / 10);
    }
  }

  /** What a signature on a message is checked against: the hash of the personal-message prefix, length and message. */
  lemma {:induction false} SignedDigest(crypto: Crypto, msg: Bytes, sig: Signature, pubKey: Bytes)
    ensures crypto.Verifies(msg, sig, pubKey) <==>
      crypto.recovers(crypto.keccak(AsBytes("\U{19}Ethereum Signed Message:\n") + Decimal(|msg|) + msg), sig, pubKey)
  {
    PrefixText();
  }

  /** To attest a block with a 32-byte root that is the prefix, "40", root and number. */
  lemma {:induction false} AttestationDigest(crypto: Crypto, root: Bytes, n: nat, sig: Signature, pubKey: Bytes)
    requires |root| == 32
    ensures crypto.Verifies(AttestationMessage(root, n), sig, pubKey) <==>
      crypto.recovers(crypto.keccak(
        AsBytes("\U{19}Ethereum Signed Message:\n") + AsBytes("40") + root + BigEndian(n, 8)), sig, pubKey)
  {
    PrefixText();
    Decimal40();
    assert |AttestationMessage(root, n)| == 40;
    assert PREFIX + AsBytes("40") + (root + BigEndian(n, 8)) == PREFIX + AsBytes("40") + root + BigEndian(n, 8);
  }

  lemma {:induction false} Decimal40()
    ensures Decimal(40) == AsBytes("40")
  {
    assert Decimal(4) == [52];
    assert Decimal(40) == [52, 48];
    assert AsBytes("40") == [52, 48];
  }

  lemma {:induction false} PrefixText()
    ensures PREFIX == AsBytes("\U{19}Ethereum Signed Message:\n")
  {
  }

  lemma {:induction false} DecimalLengthMonotone(n: nat, m: nat)
    requires n <= m
    ensures |Decimal(n)| <= |Decimal(m)|
  {
    if m >= 10 && n >= 10 {
      DecimalLengthMonotone(n / 10, m / 10);
    }
  }

  /** The variable-width length does not blur where the message begins. */
  lemma {:induction false} PreimageInjective(m: Bytes, m': Bytes)
    requires Preimage(m) == Preimage(m')
    ensures m == m'
  {
    if |m| <= |m'| {
      DecimalLengthMonotone(|m|, |m'|);
    } else {
      DecimalLengthMonotone(|m'|, |m|);
    }
    SplitEqual(PREFIX + Decimal(|m|), m, PREFIX + Decimal(|m'|), m');
  }

  /** What is hashed determines state root and block number. */
  lemma {:induction false} SignedMessageInjective(root: Bytes, n: nat, root': Bytes, n': nat)
    requires n < Pow256(8) && n' < Pow256(8)
    requires Preimage(AttestationMessage(root, n)) == Preimage(AttestationMessage(root', n'))
    ensures root == root' && n == n'
  {
    PreimageInjective(AttestationMessage(root, n), AttestationMessage(root', n'));
    SplitEqual(root, BigEndian(n, 8), root', BigEndian(n', 8));
    BigEndianInjective(n, n', 8);
  }

  /** One digest stands for one message, so what a signature is checked against is a single root and block. */
  lemma {:induction false} DigestMeansOneBlock(crypto: Crypto, root: Bytes, n: nat, root': Bytes, n': nat)
    requires n < Pow256(8) && n' < Pow256(8)
    requires crypto.TellsApart(AttestationMessage(root, n), AttestationMessage(root', n'))
    ensures crypto.Digest(AttestationMessage(root, n)) == crypto.Digest(AttestationMessage(root', n'))
       <==> root == root' && n == n'
  {
    if crypto.Digest(AttestationMessage(root, n)) == crypto.Digest(AttestationMessage(root', n')) {
      SignedMessageInjective(root, n, root', n');
    }
  }

  // ----- The extrinsics -----

  /** Checks a signed message against the key registered to the account; only public keys are compared. */
  function VerifyMessage(crypto: Crypto, s: Storage, who: AccountId, msg: Bytes, pubKey: Bytes,
      sig: Signature): Result<(), Error> {
    if s.KeyOf(who).None? then Err(KeyNotFound)
    else if s.KeyOf(who).value.pubKey != pubKey then Err(KeyMismatch)
    else if !crypto.Verifies(msg, sig, pubKey) then Err(SignatureVerificationFailed)
    else Ok(())
  }

  predicate HasAttested(list: seq<Attestation>, pubKey: Bytes) {
    exists i :: 0 <= i < |list| && list[i].pubKey == pubKey
  }

  function Register(crypto: Crypto, s: Storage, a: Action): Result<Storage, Error>
    requires a.RegisterKey?
  {
    var key := EthereumKey(a.pubKey, a.address20);
    if !crypto.Verifies(crypto.accountBytes(a.who), a.signature, a.pubKey) then Err(VerificationError)
    else if s.KeyOf(a.who).Some? then Err(EthereumKeyAlreadyRegistered)
    else Ok(s.(keys := s.keys[a.who := UserKeystore(Some(key))],
               events := s.events + [EthereumKeyRegistered(a.who, key)]))
  }

  function Unregister(s: Storage, who: AccountId): Result<Storage, Error> {
    if who !in s.keys then Err(NoKeysRegistered)
    else if s.keys[who].ethKey.None? then Err(NoEthereumKeyRegistered)
    else Ok(s.(keys := s.keys[who := UserKeystore(None)], events := s.events + [EthereumKeyRemoved(who)]))
  }

  /** The block checked is the argument; the block signed, looked up and stored is the attestation's own. */
  function Attest(crypto: Crypto, s: Storage, c: Call, who: AccountId, checkedBlock: nat,
      a: Attestation): Result<Storage, Error> {
    if c.currentBlock <= checkedBlock then Err(CannotAttestFutureBlock)
    else
      match Permissions.EnsureRootOrPermissioned(c.grants, c.origin, ATTEST_RIGHT)
      case Err(e) => Err(PermissionError(e))
      case Ok(_) =>
        match VerifyMessage(crypto, s, who, AttestationMessage(a.stateRoot, a.blockNumber), a.pubKey, a.signature)
        case Err(e) => Err(e)
        case Ok(_) =>
          var list := s.Recorded(a.blockNumber);
          if HasAttested(list, a.pubKey) then Err(AttestationAlreadyRecordedError)
          else if |list| >= MAX_ATTESTATIONS then Err(MaxAttestationsForBlockError)
          else Ok(s.(attestations := s.attestations[a.blockNumber := list + [a]],
                     events := s.events + [BlockAttested(a.blockNumber, a, who)]))
  }

  function Dispatch(crypto: Crypto, s: Storage, c: Call): Result<Storage, Error> {
    match c.action
    case RegisterKey(_, _, _, _) => if !c.origin.Root? then Err(BadOrigin) else Register(crypto, s, c.action)
    case UnregisterKey(who) => if !c.origin.Root? then Err(BadOrigin) else Unregister(s, who)
    case AttestBlock(block, a) =>
      if !c.origin.Signed? then Err(BadOrigin) else Attest(crypto, s, c, c.origin.who, block, a)
    case MarkBlockForwarded(block) =>
      match Permissions.EnsureRootOrPermissioned(c.grants, c.origin, FORWARD_RIGHT)
      case Err(e) => Err(PermissionError(e))
      case Ok(_) => Ok(s.(lastForwarded := Some(block)))
  }

  function Step(crypto: Crypto, s: Storage, c: Call): Storage {
    match Dispatch(crypto, s, c)
    case Ok(s') => s'
    case Err(_) => s
  }

  function Run(crypto: Crypto, s: Storage, calls: seq<Call>): Storage
    decreases |calls|
  {
    if calls == [] then s else Run(crypto, Step(crypto, s, calls[0]), calls[1..])
  }

  class AttestationPallet {
    var keys: map<AccountId, UserKeystore>
    var attestations: map<nat, seq<Attestation>>
    var lastForwarded: Option<nat>
    var events: seq<Event>

    ghost function Value(): Storage
      reads this
    {
      Storage(keys, attestations, lastForwarded, events)
    }

    constructor ()
      ensures Value() == GENESIS
    {
      keys, attestations, lastForwarded, events := map[], map[], None, [];
    }

    method MustNotHaveSubmitted(list: seq<Attestation>, pubKey: Bytes) returns (ok: bool)
      ensures ok <==> !HasAttested(list, pubKey)
    {
      for i := 0 to |list|
        invariant forall j :: 0 <= j < i ==> list[j].pubKey != pubKey
      {
        if list[i].pubKey == pubKey {
          return false;
        }
      }
      return true;
    }

    method VerifyEthereumMsg(crypto: Crypto, who: AccountId, msg: Bytes, pubKey: Bytes, sig: Signature)
      returns (r: Result<(), Error>)
      ensures r == VerifyMessage(crypto, Value(), who, msg, pubKey, sig)
    {
      if who !in keys || keys[who].ethKey.None? {
        return Err(KeyNotFound);
      }
      if keys[who].ethKey.value.pubKey != pubKey {
        return Err(KeyMismatch);
      }
      var ok := VerifyEthSignature(crypto, msg, sig, pubKey);
      return if ok then Ok(()) else Err(SignatureVerificationFailed);
    }

    method AttestBlock(crypto: Crypto, c: Call, blockNumber: nat, a: Attestation) returns (r: Result<(), Error>)
      requires c.action == Action.AttestBlock(blockNumber, a)
      modifies this`attestations, this`events
      ensures match Dispatch(crypto, old(Value()), c)
              case Err(e) => r == Err(e) && Value() == old(Value())
              case Ok(s) => r == Ok(()) && Value() == s
    {
      if !c.origin.Signed? {
        return Err(BadOrigin);
      }
      if c.currentBlock <= blockNumber {
        return Err(CannotAttestFutureBlock);
      }
      var permitted := Permissions.EnsureRootOrPermissioned(c.grants, c.origin,
          ATTEST_RIGHT);
      if permitted.Err? {
        return Err(PermissionError(permitted.error));
      }
      var msg := CreateAttestationMessage(a.stateRoot, a.blockNumber);
      var verified := VerifyEthereumMsg(crypto, c.origin.who, msg, a.pubKey, a.signature);
      if verified.Err? {
        return Err(verified.error);
      }
      var list := if a.blockNumber in attestations then attestations[a.blockNumber] else [];
      var unused := MustNotHaveSubmitted(list, a.pubKey);
      if !unused {
        return Err(AttestationAlreadyRecordedError);
      }
      if |list| >= MAX_ATTESTATIONS {
        return Err(MaxAttestationsForBlockError);
      }
      attestations := attestations[a.blockNumber := list + [a]];
      events := events + [BlockAttested(a.blockNumber, a, c.origin.who)];
      return Ok(());
    }

    method MarkForwarded(crypto: Crypto, c: Call) returns (r: Result<(), Error>)
      requires c.action.MarkBlockForwarded?
      modifies this`lastForwarded
      ensures match Dispatch(crypto, old(Value()), c)
              case Err(e) => r == Err(e) && Value() == old(Value())
              case Ok(s) => r == Ok(()) && Value() == s
    {
      var permitted := Permissions.EnsureRootOrPermissioned(c.grants, c.origin, FORWARD_RIGHT);
      if permitted.Err? {
        return Err(PermissionError(permitted.error));
      }
      lastForwarded := Some(c.action.blockNumber);
      return Ok(());
    }

    method EditKey(crypto: Crypto, c: Call) returns (r: Result<(), Error>)
      requires c.action.RegisterKey? || c.action.UnregisterKey?
      modifies this`keys, this`events
      ensures match Dispatch(crypto, old(Value()), c)
              case Err(e) => r == Err(e) && Value() == old(Value())
              case Ok(s) => r == Ok(()) && Value() == s
    {
      if !c.origin.Root? {
        return Err(BadOrigin);
      }
      var who := c.action.who;
      if c.action.RegisterKey? {
        var ok := VerifyEthSignature(crypto, crypto.accountBytes(who), c.action.signature, c.action.pubKey);
        if !ok {
          return Err(VerificationError);
        }
        if who in keys && keys[who].ethKey.Some? {
          return Err(EthereumKeyAlreadyRegistered);
        }
        var key := EthereumKey(c.action.pubKey, c.action.address20);
        keys := keys[who := UserKeystore(Some(key))];
        events := events + [EthereumKeyRegistered(who, key)];
      } else {
        if who !in keys {
          return Err(NoKeysRegistered);
        }
        if keys[who].ethKey.None? {
          return Err(NoEthereumKeyRegistered);
        }
        keys := keys[who := UserKeystore(None)];
        events := events + [EthereumKeyRemoved(who)];
      }
      return Ok(());
    }
  }

  // ----- Which calls are accepted -----

  /** The signer holds this right of the attestation pallet. */
  ghost predicate Entitled(c: Call, right: Permissions.AttestationPalletPermission) {
    c.origin.Signed? && Permissions.HasPermissions(c.grants, c.origin.who, Permissions.AttestationPallet(right))
  }

  ghost predicate MayAttest(crypto: Crypto, s: Storage, c: Call, checkedBlock: nat, a: Attestation) {
    && c.origin.Signed? && checkedBlock < c.currentBlock && Entitled(c, Permissions.AttestBlock)
    && s.KeyOf(c.origin.who).Some? && s.KeyOf(c.origin.who).value.pubKey == a.pubKey
    && crypto.Verifies(AttestationMessage(a.stateRoot, a.blockNumber), a.signature, a.pubKey)
    && |s.Recorded(a.blockNumber)| < 64
    && forall i :: 0 <= i < |s.Recorded(a.blockNumber)| ==> s.Recorded(a.blockNumber)[i].pubKey != a.pubKey
  }

  lemma {:induction false} AcceptedIff(crypto: Crypto, s: Storage, c: Call)
    ensures Dispatch(crypto, s, c).Ok? <==>
      match c.action
      case RegisterKey(who, sig, key, _) =>
        c.origin.Root? && crypto.Verifies(crypto.accountBytes(who), sig, key) && s.KeyOf(who).None?
      case UnregisterKey(who) => c.origin.Root? && s.KeyOf(who).Some?
      case AttestBlock(block, a) => MayAttest(crypto, s, c, block, a)
      case MarkBlockForwarded(_) =>
        c.origin.Root? || Entitled(c, Permissions.ForwardAttestedBlock)
  {
  }

  /** The first check that fails names the error. */
  lemma {:induction false} RejectedAs(crypto: Crypto, s: Storage, c: Call)
    ensures c.action.RegisterKey? ==>
      var valid := crypto.Verifies(crypto.accountBytes(c.action.who), c.action.signature, c.action.pubKey);
      && (!c.origin.Root? ==> Dispatch(crypto, s, c) == Err(BadOrigin))
      && (c.origin.Root? && !valid ==> Dispatch(crypto, s, c) == Err(VerificationError))
      && (c.origin.Root? && valid && s.KeyOf(c.action.who).Some? ==>
            Dispatch(crypto, s, c) == Err(EthereumKeyAlreadyRegistered))
    ensures c.action.UnregisterKey? ==>
      && (!c.origin.Root? ==> Dispatch(crypto, s, c) == Err(BadOrigin))
      && (c.origin.Root? && c.action.who !in s.keys ==> Dispatch(crypto, s, c) == Err(NoKeysRegistered))
      && (c.origin.Root? && c.action.who in s.keys && s.KeyOf(c.action.who).None? ==>
            Dispatch(crypto, s, c) == Err(NoEthereumKeyRegistered))
    ensures c.action.AttestBlock? && !c.origin.Signed? ==> Dispatch(crypto, s, c) == Err(BadOrigin)
    ensures c.action.AttestBlock? && c.origin.Signed? && c.currentBlock <= c.action.blockNumber ==>
      Dispatch(crypto, s, c) == Err(CannotAttestFutureBlock)
    ensures c.action.MarkBlockForwarded? && c.origin.Unsigned? ==>
      Dispatch(crypto, s, c) == Err(PermissionError(Permissions.UnsignedTransaction))
    ensures c.action.MarkBlockForwarded? && c.origin.Signed? && !Entitled(c, Permissions.ForwardAttestedBlock) ==>
      Dispatch(crypto, s, c) == Err(PermissionError(Permissions.InsufficientPermissions))
  {
  }

  /** A signed attestation for an earlier block: right, key, matching key, signature, repetition and room, in turn. */
  lemma {:induction false} AttestationRejectedAs(crypto: Crypto, s: Storage, c: Call)
    requires c.action.AttestBlock? && c.origin.Signed? && c.action.blockNumber < c.currentBlock
    ensures var a, key := c.action.attestation, s.KeyOf(c.origin.who);
            var permitted := Entitled(c, Permissions.AttestBlock);
            var valid := crypto.Verifies(AttestationMessage(a.stateRoot, a.blockNumber), a.signature, a.pubKey);
            var list := s.Recorded(a.blockNumber);
            var r := Dispatch(crypto, s, c);
            && (!permitted ==> r == Err(PermissionError(Permissions.InsufficientPermissions)))
            && (permitted && key.None? ==> r == Err(KeyNotFound))
            && (permitted && key.Some? && key.value.pubKey != a.pubKey ==> r == Err(KeyMismatch))
            && (permitted && key.Some? && key.value.pubKey == a.pubKey ==>
                  && (!valid ==> r == Err(SignatureVerificationFailed))
                  && (valid && HasAttested(list, a.pubKey) ==> r == Err(AttestationAlreadyRecordedError))
                  && (valid && !HasAttested(list, a.pubKey) && |list| >= 64 ==>
                        r == Err(MaxAttestationsForBlockError)))
  {
  }

  /** What each accepted call leaves: the key with its address, no key, the attestation at the end of its own block's
      list, or the last forwarded block, set and not maximised; with its event and nothing else. */
  lemma {:induction false} EffectOfCall(crypto: Crypto, s: Storage, c: Call, who: AccountId, block: nat)
    requires Dispatch(crypto, s, c).Ok?
    ensures var s' := Step(crypto, s, c);
            && s'.KeyOf(who) == (if c.action.RegisterKey? && c.action.who == who
                                 then Some(EthereumKey(c.action.pubKey, c.action.address20))
                                 else if c.action.UnregisterKey? && c.action.who == who then None
                                 else s.KeyOf(who))
            && s'.Recorded(block) == s.Recorded(block) + (if c.action.AttestBlock?
               && c.action.attestation.blockNumber == block
                                                          then [c.action.attestation] else [])
            && s'.lastForwarded == (if c.action.MarkBlockForwarded? then Some(c.action.blockNumber)
                                    else s.lastForwarded)
            && s'.events == s.events + match c.action
                 case RegisterKey(a, _, key, address) => [EthereumKeyRegistered(a, EthereumKey(key, address))]
                 case UnregisterKey(a) => [EthereumKeyRemoved(a)]
                 case AttestBlock(_, a) => [BlockAttested(a.blockNumber, a, c.origin.who)]
                 case MarkBlockForwarded(_) => []
  {
    assert s.Recorded(block) + [] == s.Recorded(block);
    assert s.events + [] == s.events;
  }

  // ----- What every run keeps -----

  /** The key an account holds according to the history. */
  function KeyIn(events: seq<Event>, who: AccountId): Option<EthereumKey> {
    if events == [] then None
    else
      var e, before := events[|events| - 1], events[..|events| - 1];
      if e.EthereumKeyRegistered? && e.who == who then Some(e.key)
      else if e.EthereumKeyRemoved? && e.who == who then None
      else KeyIn(before, who)
  }

  /** The attestations of a block according to the history, in order. */
  function AttestedIn(events: seq<Event>, block: nat): seq<Attestation> {
    if events == [] then []
    else
      var e, before := events[|events| - 1], events[..|events| - 1];
      AttestedIn(before, block) + if e.BlockAttested? && e.blockNumber == block then [e.attestation] else []
  }

  ghost predicate ListOk(list: seq<Attestation>, block: nat) {
    && |list| <= 64
    && (forall i :: 0 <= i < |list| ==> list[i].blockNumber == block)
    && (forall i, j :: 0 <= i < j < |list| ==> list[i].pubKey != list[j].pubKey)
  }

  /** The attestation at this point of the history is signed by the key its submitter held just before. */
  ghost predicate Vouched(crypto: Crypto, events: seq<Event>, i: nat)
    requires i < |events|
  {
    var e := events[i];
    e.BlockAttested? ==>
      && e.attestation.blockNumber == e.blockNumber
      && KeyIn(events[..i], e.who).Some?
      && KeyIn(events[..i], e.who).value.pubKey == e.attestation.pubKey
      && crypto.Verifies(AttestationMessage(e.attestation.stateRoot, e.blockNumber), e.attestation.signature,
                         e.attestation.pubKey)
  }

  ghost predicate Inv(crypto: Crypto, s: Storage) {
    && (forall who :: s.KeyOf(who) == KeyIn(s.events, who))
    && (forall block :: s.Recorded(block) == AttestedIn(s.events, block) && ListOk(s.Recorded(block), block))
    && (forall i :: 0 <= i < |s.events| ==> Vouched(crypto, s.events, i))
  }

  lemma {:induction false} EventsGrow(crypto: Crypto, events: seq<Event>, e: Event)
    requires forall i :: 0 <= i < |events| ==> Vouched(crypto, events, i)
    ensures forall i :: 0 <= i < |events| ==> Vouched(crypto, events + [e], i)
    ensures (events + [e])[..|events|] == events
  {
    var all := events + [e];
    assert all[..|events|] == events;
    forall i | 0 <= i < |events| ensures Vouched(crypto, all, i) {
      assert all[..i] == events[..i];
      assert Vouched(crypto, events, i);
    }
  }

  /** The one event and the matching write of a call that changes keys or attestations. */
  ghost predicate Wrote(crypto: Crypto, s: Storage, s': Storage, e: Event) {
    && s'.events == s.events + [e]
    && match e
       case EthereumKeyRegistered(who, key) => s'.attestations == s.attestations
          && s'.keys == s.keys[who := UserKeystore(Some(key))]
       case EthereumKeyRemoved(who) => s'.attestations == s.attestations && s'.keys == s.keys[who := UserKeystore(None)]
       case BlockAttested(block, a, who) =>
         && s'.keys == s.keys && s'.attestations == s.attestations[block := s.Recorded(block) + [a]]
         && a.blockNumber == block && |s.Recorded(block)| < MAX_ATTESTATIONS
            && !HasAttested(s.Recorded(block), a.pubKey)
         && s.KeyOf(who).Some? && s.KeyOf(who).value.pubKey == a.pubKey
         && crypto.Verifies(AttestationMessage(a.stateRoot, block), a.signature, a.pubKey)
  }

  lemma {:induction false} StepWrites(crypto: Crypto, s: Storage, c: Call) returns (e: Event)
    requires Dispatch(crypto, s, c).Ok? && !c.action.MarkBlockForwarded?
    ensures Wrote(crypto, s, Step(crypto, s, c), e)
  {
    e := Step(crypto, s, c).events[|s.events|];
  }

  lemma {:induction false} WriteKeepsStorage(crypto: Crypto, s: Storage, s': Storage, e: Event)
    requires Inv(crypto, s) && Wrote(crypto, s, s', e)
    ensures forall who :: s'.KeyOf(who) == KeyIn(s'.events, who)
    ensures forall block :: s'.Recorded(block) == AttestedIn(s'.events, block) && ListOk(s'.Recorded(block), block)
  {
    EventsGrow(crypto, s.events, e);
    forall who ensures s'.KeyOf(who) == KeyIn(s'.events, who) {
      assert s.KeyOf(who) == KeyIn(s.events, who);
    }
    forall block ensures s'.Recorded(block) == AttestedIn(s'.events, block) && ListOk(s'.Recorded(block), block) {
      assert s.Recorded(block) == AttestedIn(s.events, block) && ListOk(s.Recorded(block), block);
    }
  }

  lemma {:induction false} StepKeepsInv(crypto: Crypto, s: Storage, c: Call)
    requires Inv(crypto, s)
    ensures Inv(crypto, Step(crypto, s, c))
  {
    if Dispatch(crypto, s, c).Ok? && !c.action.MarkBlockForwarded? {
      var e := StepWrites(crypto, s, c);
      WriteKeepsStorage(crypto, s, Step(crypto, s, c), e);
      EventsGrow(crypto, s.events, e);
      if e.BlockAttested? {
        assert s.KeyOf(e.who) == KeyIn(s.events, e.who);
      }
    }
  }

  lemma {:induction false} RunKeepsInv(crypto: Crypto, s: Storage, calls: seq<Call>)
    requires Inv(crypto, s)
    ensures Inv(crypto, Run(crypto, s, calls))
    decreases |calls|
  {
    if calls != [] {
      StepKeepsInv(crypto, s, calls[0]);
      RunKeepsInv(crypto, Step(crypto, s, calls[0]), calls[1..]);
    }
  }

  /** In every reachable state storage is what the history says, each block's list is short, its own and free of
      repeated keys, and every attestation was verified with the key its submitter then held. */
  lemma {:induction false} ReachableAttestations(crypto: Crypto, calls: seq<Call>)
    ensures Inv(crypto, Run(crypto, GENESIS, calls))
  {
    RunKeepsInv(crypto, GENESIS, calls);
  }

  /** What a recorded signature vouches for, in every run: it recovers its key from a digest, and any root and block
      with that digest are the recorded ones, as long as the hash does not confuse the two messages. */
  lemma {:induction false} RecordedSignatureMeans(crypto: Crypto, calls: seq<Call>, i: nat, root: Bytes, n: nat)
    requires var events := Run(crypto, GENESIS, calls).events;
             i < |events| && events[i].BlockAttested? && n < Pow256(8) && events[i].blockNumber < Pow256(8)
    requires var a := Run(crypto, GENESIS, calls).events[i].attestation;
             crypto.TellsApart(AttestationMessage(a.stateRoot, a.blockNumber), AttestationMessage(root, n))
    ensures var e := Run(crypto, GENESIS, calls).events[i]; var a := e.attestation;
            var digest := crypto.Digest(AttestationMessage(a.stateRoot, a.blockNumber));
            && crypto.recovers(digest, a.signature, a.pubKey)
            && (crypto.Digest(AttestationMessage(root, n)) == digest <==> root == a.stateRoot && n == a.blockNumber)
  {
    ReachableAttestations(crypto, calls);
    var events := Run(crypto, GENESIS, calls).events;
    var a := events[i].attestation;
    assert Vouched(crypto, events, i);
    DigestMeansOneBlock(crypto, a.stateRoot, a.blockNumber, root, n);
  }

  // ----- Past blocks -----

  /** Every recorded attestation is for a block before this one. */
  ghost predicate OnlyPast(s: Storage, now: nat) {
    forall block: nat :: s.Recorded(block) != [] ==> block < now
  }

  /** An attestation whose checks all pass names a past block as its own. */
  ghost predicate AttestsPast(crypto: Crypto, s: Storage, c: Call) {
    c.action.AttestBlock? && MayAttest(crypto, s, c, c.action.blockNumber, c.action.attestation) ==>
      c.action.attestation.blockNumber < c.currentBlock
  }

  /** A call keeps the records to past blocks exactly when the attestation's own number is past: the block argument,
      which is the one checked, does not decide it. */
  lemma {:induction false} OnlyPastIff(crypto: Crypto, s: Storage, c: Call)
    requires OnlyPast(s, c.currentBlock)
    ensures OnlyPast(Step(crypto, s, c), c.currentBlock) <==> AttestsPast(crypto, s, c)
  {
    var s' := Step(crypto, s, c);
    AcceptedIff(crypto, s, c);
    if Dispatch(crypto, s, c).Ok? && c.action.AttestBlock? {
      var e := StepWrites(crypto, s, c);
      assert s'.Recorded(e.blockNumber) != [];
      forall block | block != e.blockNumber ensures s'.Recorded(block) == s.Recorded(block) {
      }
    } else {
      forall block: nat ensures s'.Recorded(block) == s.Recorded(block) {
      }
    }
  }

  ghost predicate ClockRises(calls: seq<Call>) {
    forall i, j :: 0 <= i < j < |calls| ==> calls[i].currentBlock <= calls[j].currentBlock
  }

  ghost predicate PastAfter(crypto: Crypto, calls: seq<Call>, k: nat)
    requires k < |calls|
  {
    OnlyPast(Run(crypto, GENESIS, calls[..k + 1]), calls[k].currentBlock)
  }

  ghost predicate PastAt(crypto: Crypto, calls: seq<Call>, k: nat)
    requires k < |calls|
  {
    AttestsPast(crypto, Run(crypto, GENESIS, calls[..k]), calls[k])
  }

  lemma {:induction false} RunSnoc(crypto: Crypto, s: Storage, calls: seq<Call>, c: Call)
    ensures Run(crypto, s, calls + [c]) == Step(crypto, Run(crypto, s, calls), c)
    decreases |calls|
  {
    if calls == [] {
      assert (calls + [c])[1..] == [];
    } else {
      assert (calls + [c])[1..] == calls[1..] + [c];
      RunSnoc(crypto, Step(crypto, s, calls[0]), calls[1..], c);
    }
  }

  lemma {:induction false} PastUpTo(crypto: Crypto, calls: seq<Call>, n: nat)
    requires ClockRises(calls) && n <= |calls|
    ensures (forall k :: 0 <= k < n ==> PastAfter(crypto, calls, k))
       <==> (forall k :: 0 <= k < n ==> PastAt(crypto, calls, k))
  {
    if n > 0 {
      PastUpTo(crypto, calls, n - 1);
      if forall k :: 0 <= k < n - 1 ==> PastAfter(crypto, calls, k) {
        var c, s := calls[n - 1], Run(crypto, GENESIS, calls[..n - 1]);
        assert calls[..n] == calls[..n - 1] + [c];
        RunSnoc(crypto, GENESIS, calls[..n - 1], c);
        assert OnlyPast(s, c.currentBlock) by {
          if n > 1 {
            assert PastAfter(crypto, calls, n - 2);
          }
        }
        OnlyPastIff(crypto, s, c);
        assert PastAfter(crypto, calls, n - 1) <==> PastAt(crypto, calls, n - 1);
      }
    }
  }

  /** Along every run the records stay in the past after each call exactly when every accepted attestation's own
      number was past at its call. */
  lemma {:induction false} RunOnlyPastIff(crypto: Crypto, calls: seq<Call>)
    requires ClockRises(calls)
    ensures (forall k :: 0 <= k < |calls| ==> PastAfter(crypto, calls, k))
       <==> (forall k :: 0 <= k < |calls| ==> PastAt(crypto, calls, k))
  {
    PastUpTo(crypto, calls, |calls|);
  }

  ghost predicate FullWidth(sig: Signature) {
    |sig.r| == 32 && |sig.s| == 32
  }

  /** From genesis, with any key and signatures that verify: a registration and a call for block 0, made at block 1,
      record an attestation for block 5. */
  lemma {:induction false} FutureBlockCanBeRecorded(crypto: Crypto, key: Bytes, address: Bytes, reg: Signature,
      sig: Signature,
      root: Bytes)
    returns (calls: seq<Call>)
    requires |key| == 33 && |address| == 20 && FullWidth(reg) && FullWidth(sig) && |root| == 32
    requires crypto.Verifies(crypto.accountBytes(3), reg, key) && crypto.Verifies(AttestationMessage(root, 5), sig, key)
    ensures |calls| == 2 && calls[0].currentBlock == calls[1].currentBlock == 1
    ensures calls[1].action.AttestBlock? && calls[1].action.blockNumber == 0
    ensures |Run(crypto, GENESIS, calls).Recorded(5)| == 1
  {
    var grants: Permissions.Grants := map[3 := [ATTEST_RIGHT]];
    var a := Attestation(sig, key, address, root, 5, root);
    var register := Call(Root, map[], 1, RegisterKey(3, reg, key, address));
    var attest := Call(Signed(3), grants, 1, Action.AttestBlock(0, a));
    calls := [register, attest];
    var s := Step(crypto, GENESIS, register);
    assert s.KeyOf(3) == Some(EthereumKey(key, address));
    assert s.Recorded(5) == [] && !HasAttested([], key);
    AcceptedIff(crypto, s, attest);
    assert [] + [register] == [register] && [register] + [attest] == calls;
    RunSnoc(crypto, GENESIS, [], register);
    RunSnoc(crypto, GENESIS, [register], attest);
  }
}
