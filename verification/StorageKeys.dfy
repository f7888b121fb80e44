/** Storage keys built from hashed map keys, and raw storage entries read back as typed values. */
module StorageKeys {
  import opened Common
  import opened Endian
  import opened Scale

  /** The reversible storage hashers: each writes a digest and then the key itself. */
  datatype Hasher = Identity | Twox64Concat | Blake2_128Concat {
    function DigestLength(): nat {
      match this
      case Identity => 0
      case Twox64Concat => 8
      case Blake2_128Concat => 16
    }
  }

  /** The digest functions, which are library code of known output width. */
  datatype Digests = Digests(twox64: Bytes -> Bytes, blake128: Bytes -> Bytes) {
    ghost predicate Valid() {
      forall b {:trigger twox64(b)} {:trigger blake128(b)} :: |twox64(b)| == 8 && |blake128(b)| == 16
    }

    function Of(h: Hasher, key: Bytes): Bytes {
      match h
      case Identity => []
      case Twox64Concat => twox64(key)
      case Blake2_128Concat => blake128(key)
    }
  }

  type KeySpec = seq<(Hasher, Ty)>

  function HashKey(d: Digests, h: Hasher, key: Bytes): Bytes {
    d.Of(h, key) + key
  }

  /** Skips the digest without looking at it; too short an input leaves nothing. */
  function Reverse(h: Hasher, b: Bytes): Bytes {
    if |b| < h.DigestLength() then [] else b[h.DigestLength()..]
  }

  predicate TypedKeys(keys: seq<Val>, spec: KeySpec) {
    |keys| == |spec| && forall i :: 0 <= i < |spec| ==> Typed(keys[i], spec[i].1)
  }

  function EncodeSuffix(d: Digests, spec: KeySpec, keys: seq<Val>): Bytes
    requires TypedKeys(keys, spec)
    decreases |spec|
  {
    if spec == [] then []
    else HashKey(d, spec[0].0, Encode(keys[0], spec[0].1)) + EncodeSuffix(d, spec[1..], keys[1..])
  }

  function DecodeSuffix(spec: KeySpec, b: Bytes): Option<(seq<Val>, Bytes)>
    decreases |spec|
  {
    if spec == [] then Some(([], b))
    else match Decode(spec[0].1, Reverse(spec[0].0, b))
      case None => None
      case Some((k, rest)) =>
        match DecodeSuffix(spec[1..], rest)
        case None => None
        case Some((ks, rest')) => Some(([k] + ks, rest'))
  }

  /** Encoding as the code does it: one buffer, extended key by key. */
  method StorageKeySuffix(d: Digests, spec: KeySpec, keys: seq<Val>) returns (buffer: Bytes)
    requires TypedKeys(keys, spec)
    ensures buffer == EncodeSuffix(d, spec, keys)
  {
    buffer := [];
    for i := 0 to |spec|
      invariant buffer + EncodeSuffix(d, spec[i..], keys[i..]) == EncodeSuffix(d, spec, keys)
    {
      var keyBytes := Encode(keys[i], spec[i].1);
      assert spec[i..][1..] == spec[i + 1..] && keys[i..][1..] == keys[i + 1..];
      Assoc(buffer, HashKey(d, spec[i].0, keyBytes), EncodeSuffix(d, spec[i + 1..], keys[i + 1..]));
      buffer := buffer + HashKey(d, spec[i].0, keyBytes);
    }
    assert spec[|spec|..] == [];
  }

  /** What each hasher writes for one key: nothing, the 64-bit twox or the 128-bit blake2 digest, then the key. */
  lemma {:induction false} HasherWrites(d: Digests, t: Ty, key: Val)
    requires Typed(key, t)
    ensures EncodeSuffix(d, [(Identity, t)], [key]) == Encode(key, t)
    ensures EncodeSuffix(d, [(Twox64Concat, t)], [key]) == d.twox64(Encode(key, t)) + Encode(key, t)
    ensures EncodeSuffix(d, [(Blake2_128Concat, t)], [key]) == d.blake128(Encode(key, t)) + Encode(key, t)
  {
    OneKey(d, Identity, t, key);
    OneKey(d, Twox64Concat, t, key);
    OneKey(d, Blake2_128Concat, t, key);
    assert [] + Encode(key, t) == Encode(key, t);
  }

  lemma {:induction false} OneKey(d: Digests, h: Hasher, t: Ty, key: Val)
    requires Typed(key, t)
    ensures TypedKeys([key], [(h, t)]) && EncodeSuffix(d, [(h, t)], [key]) == HashKey(d, h, Encode(key, t))
  {
    assert [(h, t)][1..] == [] && [key][1..] == [];
    assert HashKey(d, h, Encode(key, t)) + [] == HashKey(d, h, Encode(key, t));
  }

  /** Keys are written one after the other. */
  lemma {:induction false} SuffixAppend(d: Digests, spec: KeySpec, keys: seq<Val>, spec': KeySpec, keys': seq<Val>)
    requires TypedKeys(keys, spec) && TypedKeys(keys', spec')
    ensures TypedKeys(keys + keys', spec + spec')
    ensures EncodeSuffix(d, spec + spec', keys + keys') == EncodeSuffix(d, spec, keys) + EncodeSuffix(d, spec', keys')
    decreases |spec|
  {
    if spec == [] {
      assert spec + spec' == spec' && keys + keys' == keys';
      assert [] + EncodeSuffix(d, spec', keys') == EncodeSuffix(d, spec', keys');
    } else {
      assert (spec + spec')[1..] == spec[1..] + spec' && (keys + keys')[1..] == keys[1..] + keys';
      SuffixAppend(d, spec[1..], keys[1..], spec', keys');
      Assoc(HashKey(d, spec[0].0, Encode(keys[0], spec[0].1)), EncodeSuffix(d, spec[1..], keys[1..]),
            EncodeSuffix(d, spec', keys'));
    }
  }

  /** Decoding as the code does it: one cursor, advanced past each digest and each key. */
  method DecodeKeyTuple(spec: KeySpec, input: Bytes) returns (r: Option<(seq<Val>, Bytes)>)
    ensures r == DecodeSuffix(spec, input)
  {
    var cursor, keys := input, [];
    assert spec[0..] == spec;
    assert forall ks: seq<Val> :: [] + ks == ks;
    for i := 0 to |spec|
      invariant DecodeSuffix(spec, input)
             == match DecodeSuffix(spec[i..], cursor)
                case None => None
                case Some((ks, rest)) => Some((keys + ks, rest))
    {
      assert spec[i..][1..] == spec[i + 1..];
      cursor := Reverse(spec[i].0, cursor);
      var decoded := Decode(spec[i].1, cursor);
      if decoded.None? {
        return None;
      }
      ghost var was := keys;
      keys := keys + [decoded.value.0];
      cursor := decoded.value.1;
      assert forall ks: seq<Val> :: was + ([decoded.value.0] + ks) == keys + ks;
    }
    assert spec[|spec|..] == [] && keys + [] == keys;
    return Some((keys, cursor));
  }

  lemma {:induction false} DecodeCons(spec: KeySpec, b: Bytes, k: Val, after: Bytes, ks: seq<Val>, rest: Bytes)
    requires spec != [] && Decode(spec[0].1, Reverse(spec[0].0, b)) == Some((k, after))
    requires DecodeSuffix(spec[1..], after) == Some((ks, rest))
    ensures DecodeSuffix(spec, b) == Some(([k] + ks, rest))
  {
  }

  lemma {:induction false} ReverseSkips(h: Hasher, digest: Bytes, b: Bytes)
    requires |digest| == h.DigestLength()
    ensures Reverse(h, digest + b) == b
  {
    assert (digest + b)[|digest|..] == b;
  }

  /** For every list of hashed keys: decoding the suffix returns the keys and exactly what follows them. */
  lemma {:induction false} SuffixRoundTrip(d: Digests, spec: KeySpec, keys: seq<Val>, rest: Bytes)
    requires d.Valid() && TypedKeys(keys, spec)
    ensures DecodeSuffix(spec, EncodeSuffix(d, spec, keys) + rest) == Some((keys, rest))
    decreases |spec|
  {
    if spec == [] {
      assert EncodeSuffix(d, spec, keys) + rest == rest;
    } else {
      var h, t := spec[0].0, spec[0].1;
      var e, tail := Encode(keys[0], t), EncodeSuffix(d, spec[1..], keys[1..]);
      assert EncodeSuffix(d, spec, keys) + rest == d.Of(h, e) + (e + (tail + rest)) by {
        Assoc(d.Of(h, e) + e, tail, rest);
        Assoc(d.Of(h, e), e, tail + rest);
      }
      ReverseSkips(h, d.Of(h, e), e + (tail + rest));
      RoundTrip(keys[0], t, tail + rest);
      SuffixRoundTrip(d, spec[1..], keys[1..], rest);
      DecodeCons(spec, d.Of(h, e) + (e + (tail + rest)), keys[0], tail + rest, keys[1..], rest);
      assert keys == [keys[0]] + keys[1..];
    }
  }

  /** Decoding never looks at the digest: any other bytes of its width give the same result. */
  lemma {:induction false} DigestIgnored(h: Hasher, t: Ty, spec: KeySpec, digest: Bytes, other: Bytes, rest: Bytes)
    requires |digest| == |other| == h.DigestLength()
    ensures DecodeSuffix([(h, t)] + spec, digest + rest) == DecodeSuffix([(h, t)] + spec, other + rest)
  {
    assert Reverse(h, digest + rest) == rest == Reverse(h, other + rest);
  }

  /** Every digest found in the bytes is the digest of the key that follows it. */
  predicate DigestsMatch(d: Digests, spec: KeySpec, b: Bytes)
    decreases |spec|
  {
    spec == [] ||
    (var h, t := spec[0].0, spec[0].1;
     && |b| >= h.DigestLength()
     && Decode(t, Reverse(h, b)).Some?
     && var (k, rest) := Decode(t, Reverse(h, b)).value;
     && Typed(k, t)
     && b[..h.DigestLength()] == d.Of(h, Encode(k, t))
     && DigestsMatch(d, spec[1..], rest))
  }

  /** One key: the bytes are its digest and encoding followed by `after` exactly when the digest found is right. */
  lemma {:induction false} KeyCanonicalIff(d: Digests, h: Hasher, t: Ty, b: Bytes)
    requires d.Valid() && Decode(t, Reverse(h, b)).Some?
    ensures var (k, after) := Decode(t, Reverse(h, b)).value;
            && Typed(k, t) && Encode(k, t) + after == Reverse(h, b)
            && (HashKey(d, h, Encode(k, t)) + after == b
                <==> |b| >= h.DigestLength() && b[..h.DigestLength()] == d.Of(h, Encode(k, t)))
  {
    Canonical(t, Reverse(h, b));
    var (k, after) := Decode(t, Reverse(h, b)).value;
    var digest := d.Of(h, Encode(k, t));
    assert |digest| == h.DigestLength();
    Assoc(digest, Encode(k, t), after);
    if |b| >= |digest| {
      assert b == b[..|digest|] + b[|digest|..];
      assert HashKey(d, h, Encode(k, t)) + after == digest + b[|digest|..];
      if digest + b[|digest|..] == b {
        assert b[..|digest|] == digest;
      }
    }
  }

  /** Decoding does not check digests: it inverts encoding exactly on the inputs whose digests match. */
  lemma {:induction false} SuffixCanonicalIff(d: Digests, spec: KeySpec, b: Bytes)
    requires d.Valid() && DecodeSuffix(spec, b).Some?
    ensures var (keys, rest) := DecodeSuffix(spec, b).value;
            && TypedKeys(keys, spec)
            && (EncodeSuffix(d, spec, keys) + rest == b <==> DigestsMatch(d, spec, b))
    decreases |spec|
  {
    if spec != [] {
      var h, t := spec[0].0, spec[0].1;
      KeyCanonicalIff(d, h, t, b);
      var (k, after) := Decode(t, Reverse(h, b)).value;
      SuffixCanonicalIff(d, spec[1..], after);
      var (ks, rest) := DecodeSuffix(spec[1..], after).value;
      HeadAndTail(d, spec, k, ks, rest, b, after);
    }
  }

  lemma {:induction false} HeadAndTail(d: Digests, spec: KeySpec, k: Val, ks: seq<Val>, rest: Bytes, b: Bytes,
      after: Bytes)
    requires spec != [] && TypedKeys(ks, spec[1..]) && Typed(k, spec[0].1)
    requires d.Valid() && Encode(k, spec[0].1) + after == Reverse(spec[0].0, b)
    ensures TypedKeys([k] + ks, spec)
    ensures EncodeSuffix(d, spec, [k] + ks) + rest == b
       <==> HashKey(d, spec[0].0, Encode(k, spec[0].1)) + after == b && EncodeSuffix(d, spec[1..], ks) + rest == after
  {
    var keys := [k] + ks;
    assert keys[1..] == ks;
    var e := Encode(k, spec[0].1);
    var digest, tail := d.Of(spec[0].0, e), EncodeSuffix(d, spec[1..], ks);
    assert |digest| == spec[0].0.DigestLength();
    Assoc(digest, e, after);
    Assoc(digest + e, tail, rest);
    Assoc(digest, e, tail + rest);
    HeadBytes(digest, e, tail + rest, after, b);
  }

  lemma {:induction false} HeadBytes(digest: Bytes, e: Bytes, tail: Bytes, after: Bytes, b: Bytes)
    requires e + after == if |b| < |digest| then [] else b[|digest|..]
    ensures digest + (e + tail) == b <==> digest + (e + after) == b && tail == after
  {
    if digest + (e + tail) == b {
      assert b[|digest|..] == e + tail;
      SplitEqual(e, tail, e, after);
    }
  }

  // ----- Raw entries of one storage map -----

  /** One storage map: its prefix hash, its hashed keys and its value type. */
  datatype Map = Map(prefix: Bytes, keys: KeySpec, value: Ty)

  datatype DecodeStorageError = UnexpectedStoragePrefix | UnexpectedKeyBytes | UnexpectedValueBytes | DecodeError

  function StorageKey(d: Digests, m: Map, keys: seq<Val>): Bytes
    requires TypedKeys(keys, m.keys)
  {
    m.prefix + EncodeSuffix(d, m.keys, keys)
  }

  function DecodeEntry(m: Map, key: Bytes, value: Bytes): Result<(seq<Val>, Val), DecodeStorageError> {
    if !(m.prefix <= key) then Err(UnexpectedStoragePrefix)
    else match DecodeSuffix(m.keys, key[|m.prefix|..])
      case None => Err(DecodeError)
      case Some((keys, keyRest)) =>
        if keyRest != [] then Err(UnexpectedKeyBytes)
        else match Decode(m.value, value)
          case None => Err(DecodeError)
          case Some((v, valueRest)) => if valueRest != [] then Err(UnexpectedValueBytes) else Ok((keys, v))
  }

  /** How an entry is refused: by its prefix, then its key, then its value; bytes left over have their own errors. */
  lemma {:induction false} EntryRefusedAs(m: Map, key: Bytes, value: Bytes)
    ensures var r := DecodeEntry(m, key, value);
            && (!(m.prefix <= key) <==> r == Err(UnexpectedStoragePrefix))
            && (m.prefix <= key ==>
                  var k := DecodeSuffix(m.keys, key[|m.prefix|..]);
                  && (k.None? ==> r == Err(DecodeError))
                  && (k.Some? && k.value.1 != [] ==> r == Err(UnexpectedKeyBytes))
                  && (k.Some? && k.value.1 == [] ==>
                        var v := Decode(m.value, value);
                        && (v.None? ==> r == Err(DecodeError))
                        && (v.Some? && v.value.1 != [] ==> r == Err(UnexpectedValueBytes))))
  {
  }

  /** An entry written under a typed key is read back as that key and value, with no bytes left over. */
  lemma {:induction false} EntryRoundTrip(d: Digests, m: Map, keys: seq<Val>, v: Val)
    requires d.Valid() && TypedKeys(keys, m.keys) && Typed(v, m.value)
    ensures DecodeEntry(m, StorageKey(d, m, keys), Encode(v, m.value)) == Ok((keys, v))
  {
    var suffix := EncodeSuffix(d, m.keys, keys);
    assert StorageKey(d, m, keys)[|m.prefix|..] == suffix == suffix + [];
    SuffixRoundTrip(d, m.keys, keys, []);
    assert Encode(v, m.value) == Encode(v, m.value) + [];
    RoundTrip(v, m.value, []);
  }

  lemma {:induction false} SuffixTyped(spec: KeySpec, b: Bytes)
    requires DecodeSuffix(spec, b).Some?
    ensures TypedKeys(DecodeSuffix(spec, b).value.0, spec)
    decreases |spec|
  {
    if spec != [] {
      Canonical(spec[0].1, Reverse(spec[0].0, b));
      var (k, rest) := Decode(spec[0].1, Reverse(spec[0].0, b)).value;
      SuffixTyped(spec[1..], rest);
      var ks := DecodeSuffix(spec[1..], rest).value.0;
      forall i | 0 < i < |spec| ensures Typed(([k] + ks)[i], spec[i].1) {
        assert ([k] + ks)[i] == ks[i - 1] && spec[i] == spec[1..][i - 1];
      }
    }
  }

  /** A readable entry is well typed, and its value bytes are exactly the encoding of its value. */
  lemma {:induction false} EntryTyped(m: Map, key: Bytes, value: Bytes)
    requires DecodeEntry(m, key, value).Ok?
    ensures var (keys, v) := DecodeEntry(m, key, value).value;
            TypedKeys(keys, m.keys) && Typed(v, m.value) && Encode(v, m.value) == value
  {
    SuffixTyped(m.keys, key[|m.prefix|..]);
    Canonical(m.value, value);
    var v := DecodeEntry(m, key, value).value.1;
    assert Encode(v, m.value) + [] == Encode(v, m.value);
  }

  /** A readable entry lies under the storage key of its decoded keys exactly when its digests are right. */
  lemma {:induction false} EntryKeyIff(d: Digests, m: Map, key: Bytes, value: Bytes)
    requires d.Valid() && DecodeEntry(m, key, value).Ok?
    ensures var keys := DecodeEntry(m, key, value).value.0;
            && TypedKeys(keys, m.keys)
            && (StorageKey(d, m, keys) == key <==> DigestsMatch(d, m.keys, key[|m.prefix|..]))
  {
    var suffix := key[|m.prefix|..];
    var keys := DecodeEntry(m, key, value).value.0;
    SuffixCanonicalIff(d, m.keys, suffix);
    assert EncodeSuffix(d, m.keys, keys) + [] == EncodeSuffix(d, m.keys, keys);
    assert key == m.prefix + suffix;
  }
}
