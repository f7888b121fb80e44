/** When the keystore's mapping stays one-to-one, and when a registration message reads as an attestation. */
module Keystore {
  import opened Attestations
  import opened Common
  import opened Endian

  // ----- One key, one account -----

  ghost predicate Holds(s: Storage, who: AccountId, pubKey: Bytes) {
    s.KeyOf(who).Some? && s.KeyOf(who).value.pubKey == pubKey
  }

  /** No public key is registered to two accounts. */
  ghost predicate OneToOne(s: Storage) {
    forall a, b, pubKey :: Holds(s, a, pubKey) && Holds(s, b, pubKey) ==> a == b
  }

  /** Root registers, with a signature that verifies and for an account without a key, a key another account has. */
  ghost predicate SharesKey(crypto: Crypto, s: Storage, c: Call) {
    && c.action.RegisterKey? && c.origin.Root?
    && crypto.Verifies(crypto.accountBytes(c.action.who), c.action.signature, c.action.pubKey)
    && s.KeyOf(c.action.who).None?
    && exists other :: other != c.action.who && Holds(s, other, c.action.pubKey)
  }

  lemma {:induction false} KeysElsewhere(crypto: Crypto, s: Storage, c: Call, who: AccountId)
    requires !(c.action.RegisterKey? || c.action.UnregisterKey?) || who != c.action.who
    ensures Step(crypto, s, c).KeyOf(who) == s.KeyOf(who)
  {
  }

  /** A call keeps the mapping one-to-one exactly when it does not register a key that is taken. */
  lemma {:induction false} OneToOneIff(crypto: Crypto, s: Storage, c: Call)
    requires OneToOne(s)
    ensures OneToOne(Step(crypto, s, c)) <==> !SharesKey(crypto, s, c)
  {
    var s' := Step(crypto, s, c);
    AcceptedIff(crypto, s, c);
    if SharesKey(crypto, s, c) {
      var other :| other != c.action.who && Holds(s, other, c.action.pubKey);
      KeysElsewhere(crypto, s, c, other);
      assert Holds(s', other, c.action.pubKey) && Holds(s', c.action.who, c.action.pubKey);
    } else {
      forall a, b, pubKey | Holds(s', a, pubKey) && Holds(s', b, pubKey) ensures a == b {
        StillHolds(crypto, s, c, a, pubKey);
        StillHolds(crypto, s, c, b, pubKey);
      }
    }
  }

  /** Whoever holds a key after a call held it before, or has just registered it. */
  lemma {:induction false} StillHolds(crypto: Crypto, s: Storage, c: Call, who: AccountId, pubKey: Bytes)
    requires Holds(Step(crypto, s, c), who, pubKey)
    ensures || Holds(s, who, pubKey)
            || (&& c.action.RegisterKey? && c.origin.Root? && c.action.who == who && c.action.pubKey == pubKey
                && crypto.Verifies(crypto.accountBytes(who), c.action.signature, pubKey) && s.KeyOf(who).None?)
  {
    if !(c.action.RegisterKey? || c.action.UnregisterKey?) || who != c.action.who {
      KeysElsewhere(crypto, s, c, who);
    }
  }

  ghost predicate OneToOneAfter(crypto: Crypto, calls: seq<Call>, k: nat)
    requires k < |calls|
  {
    OneToOne(Run(crypto, GENESIS, calls[..k + 1]))
  }

  ghost predicate SharesAt(crypto: Crypto, calls: seq<Call>, k: nat)
    requires k < |calls|
  {
    SharesKey(crypto, Run(crypto, GENESIS, calls[..k]), calls[k])
  }

  lemma {:induction false} OneToOneUpTo(crypto: Crypto, calls: seq<Call>, n: nat)
    requires n <= |calls|
    ensures (forall k :: 0 <= k < n ==> OneToOneAfter(crypto, calls, k))
       <==> (forall k :: 0 <= k < n ==> !SharesAt(crypto, calls, k))
  {
    if n > 0 {
      OneToOneUpTo(crypto, calls, n - 1);
      if forall k :: 0 <= k < n - 1 ==> OneToOneAfter(crypto, calls, k) {
        var c, s := calls[n - 1], Run(crypto, GENESIS, calls[..n - 1]);
        assert calls[..n] == calls[..n - 1] + [c];
        RunSnoc(crypto, GENESIS, calls[..n - 1], c);
        assert OneToOne(s) by {
          if n > 1 {
            assert OneToOneAfter(crypto, calls, n - 2);
          }
        }
        OneToOneIff(crypto, s, c);
        assert OneToOneAfter(crypto, calls, n - 1) <==> !SharesAt(crypto, calls, n - 1);
      }
    }
  }

  /** Along every run the mapping is one-to-one after each call exactly when no call registers a key that is taken. */
  lemma {:induction false} RunOneToOneIff(crypto: Crypto, calls: seq<Call>)
    ensures (forall k :: 0 <= k < |calls| ==> OneToOneAfter(crypto, calls, k))
       <==> (forall k :: 0 <= k < |calls| ==> !SharesAt(crypto, calls, k))
  {
    OneToOneUpTo(crypto, calls, |calls|);
  }

  /** From genesis, with any key and signatures that verify, two registrations give two accounts the same key. */
  lemma {:induction false} KeyRegisteredTwice(crypto: Crypto, key: Bytes, address: Bytes, first: Signature,
      second: Signature)
    returns (calls: seq<Call>)
    requires |key| == 33 && |address| == 20 && FullWidth(first) && FullWidth(second)
    requires crypto.Verifies(crypto.accountBytes(3), first, key) && crypto.Verifies(crypto.accountBytes(4), second, key)
    ensures |calls| == 2
    ensures var s := Run(crypto, GENESIS, calls); Holds(s, 3, key) && Holds(s, 4, key) && !OneToOne(s)
  {
    var one := Call(Root, map[], 1, RegisterKey(3, first, key, address));
    var two := Call(Root, map[], 1, RegisterKey(4, second, key, address));
    calls := [one, two];
    assert [] + [one] == [one] && [one] + [two] == calls;
    RunSnoc(crypto, GENESIS, [], one);
    RunSnoc(crypto, GENESIS, [one], two);
    var s := Run(crypto, GENESIS, calls);
    assert Holds(s, 3, key) && Holds(s, 4, key);
  }

  // ----- Registration messages and attestation messages -----

  const ACCOUNT_LENGTH: nat := 32

  /** An account's 32 bytes are the attestation message of a root and number in exactly one way, and the number fits
      the chain's 32 bits exactly when bytes 24 to 27 are zero. */
  lemma {:induction false} AccountAsMessageIff(account: Bytes, root: Bytes, n: nat)
    requires |account| == ACCOUNT_LENGTH && n < Pow256(8)
    ensures AttestationMessage(root, n) == account <==> root == account[..24] && n == FromBigEndian(account[24..])
  {
    BigEndianCanonical(account[24..]);
    assert account == account[..24] + account[24..];
    if AttestationMessage(root, n) == account {
      SplitEqual(root, BigEndian(n, 8), account[..24], account[24..]);
      BigEndianInjective(n, FromBigEndian(account[24..]), 8);
    }
  }

  lemma {:induction false} FitsFourIff(b: Bytes)
    requires |b| == 8
    ensures FromBigEndian(b) < Pow256(4) <==> b[..4] == seq(4, _ => 0)
  {
    var n := FromBigEndian(b);
    BigEndianCanonical(b);
    if n < Pow256(4) {
      BigEndianPadded(n, 4, 4);
      assert b[..4] == seq(4, _ => 0);
    }
    if b[..4] == seq(4, _ => 0) {
      var m := FromBigEndian(b[4..]);
      BigEndianCanonical(b[4..]);
      BigEndianPadded(m, 4, 4);
      assert b == b[..4] + b[4..];
      FourFitsEight(m);
      BigEndianInjective(n, m, 8);
    }
  }

  lemma {:induction false} FourFitsEight(m: nat)
    requires m < Pow256(4)
    ensures m < Pow256(8)
  {
    assert Pow256(8) == 256 * Pow256(7) && Pow256(7) == 256 * Pow256(6);
    assert Pow256(6) == 256 * Pow256(5) && Pow256(5) == 256 * Pow256(4);
  }

  /** Some attestation of a 32-bit block is signed by the very message that registers the account exactly when those
      four bytes are zero; for every other account the two kinds of message are apart. */
  lemma {:induction false} RegistrationApartIff(account: Bytes)
    requires |account| == ACCOUNT_LENGTH
    ensures (exists root, n: nat :: n < Pow256(4) && AttestationMessage(root, n) == account)
       <==> account[24..28] == seq(4, _ => 0)
  {
    assert account[24..][..4] == account[24..28];
    FitsFourIff(account[24..]);
    var n := FromBigEndian(account[24..]);
    AccountAsMessageIff(account, account[..24], n);
    if root, m: nat :| m < Pow256(4) && AttestationMessage(root, m) == account {
      FourFitsEight(m);
      AccountAsMessageIff(account, root, m);
    }
  }
}
