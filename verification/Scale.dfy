/** The SCALE codec for the types that occur in storage keys and values. */
module Scale {
  import opened Arithmetic
  import opened Common
  import opened Endian

  /** Encodable types. A vector may carry the bound that its decoder enforces. */
  datatype Ty =
    | TUnit
    | TBool
    | TUint(width: nat)
    | TFixed(size: nat)
    | TEnum(variants: nat)
    | TOption(inner: Ty)
    | TPair(first: Ty, second: Ty)
    | TVec(elem: Ty, bound: Option<nat>)

  datatype Val =
    | VUnit
    | VBool(b: bool)
    | VUint(n: nat)
    | VFixed(bytes: Bytes)
    | VEnum(index: nat)
    | VNone
    | VSome(inner: Val)
    | VPair(first: Val, second: Val)
    | VVec(items: seq<Val>)

  const U32_LIMIT: nat := 0x1_0000_0000

  predicate FitsBound(n: nat, bound: Option<nat>) {
    n < U32_LIMIT && (bound.Some? ==> n <= bound.value)
  }

  predicate Typed(v: Val, t: Ty)
    decreases t, 0
  {
    match t
    case TUnit => v.VUnit?
    case TBool => v.VBool?
    case TUint(w) => v.VUint? && v.n < Pow256(w)
    case TFixed(n) => v.VFixed? && |v.bytes| == n
    case TEnum(k) => v.VEnum? && v.index < k && v.index < 256
    case TOption(i) => v.VNone? || (v.VSome? && Typed(v.inner, i))
    case TPair(a, b) => v.VPair? && Typed(v.first, a) && Typed(v.second, b)
    case TVec(e, bound) => v.VVec? && FitsBound(|v.items|, bound) && AllTyped(v.items, e)
  }

  predicate AllTyped(vs: seq<Val>, t: Ty)
    decreases t, 1
  {
    forall i :: 0 <= i < |vs| ==> Typed(vs[i], t)
  }

  // ----- Compact lengths -----

  function EncodeCompact(n: nat): Bytes
    requires n < U32_LIMIT
  {
    if n < 64 then [4 * n]
    else if n < 0x4000 then LittleEndian(4 * n + 1, 2)
    else if n < 0x4000_0000 then LittleEndian(4 * n + 2, 4)
    else [3] + LittleEndian(n, 4)
  }

  /** Reads a compact `u32`; a value written in a longer mode than it needs is refused. */
  function DecodeCompact(b: Bytes): Option<(nat, Bytes)> {
    if b == [] then None
    else if b[0] % 4 == 0 then Some((b[0] / 4, b[1..]))
    else if b[0] % 4 == 1 then
      if |b| < 2 then None else
      var x := FromLittleEndian(b[..2]) / 4;
      if x > 0x3F then Some((x, b[2..])) else None
    else if b[0] % 4 == 2 then
      if |b| < 4 then None else
      var x := FromLittleEndian(b[..4]) / 4;
      if x > 0x3FFF then Some((x, b[4..])) else None
    else
      if b[0] != 3 || |b| < 5 then None else
      var x := FromLittleEndian(b[1..5]);
      if x > 0x3FFF_FFFF then Some((x, b[5..])) else None
  }

  lemma {:induction false} SmallPowers()
    ensures Pow256(1) == 256 && Pow256(2) == 0x1_0000 && Pow256(4) == U32_LIMIT
  {
    assert Pow256(0) == 1;
    assert Pow256(3) == 256 * Pow256(2);
  }

  lemma {:induction false} ModeBits(n: nat, k: nat, width: nat)
    requires k < 4 && width > 0
    ensures LittleEndian(4 * n + k, width)[0] % 4 == k && (4 * n + k) / 4 == n
  {
    var m := 4 * n + k;
    ByteSplit(m % 256, m / 256);
    DivIs(m, 4, n);
  }

  lemma {:induction false} CompactRoundTrip(n: nat, rest: Bytes)
    requires n < U32_LIMIT
    ensures DecodeCompact(EncodeCompact(n) + rest) == Some((n, rest))
  {
    SmallPowers();
    var e := EncodeCompact(n);
    assert (e + rest)[..|e|] == e && (e + rest)[|e|..] == rest;
    if 64 <= n < 0x4000 {
      ModeBits(n, 1, 2);
      LittleEndianDecodes(4 * n + 1, 2);
    } else if 0x4000 <= n < 0x4000_0000 {
      ModeBits(n, 2, 4);
      LittleEndianDecodes(4 * n + 2, 4);
    } else if n >= 0x4000_0000 {
      LittleEndianDecodes(n, 4);
      assert (e + rest)[1..5] == LittleEndian(n, 4);
    }
  }

  /** A number whose low byte carries mode `k` is four times its quotient plus `k`. */
  lemma {:induction false} ModeOf(b: Bytes, k: nat)
    requires b != [] && k < 4 && b[0] % 4 == k
    ensures FromLittleEndian(b) == 4 * (FromLittleEndian(b) / 4) + k
  {
    var high := FromLittleEndian(b[1..]);
    assert FromLittleEndian(b) == b[0] + 256 * high;
    ByteSplit(b[0], high);
  }

  lemma {:induction false} CompactCanonical(b: Bytes)
    requires DecodeCompact(b).Some?
    ensures var (n, rest) := DecodeCompact(b).value; n < U32_LIMIT && EncodeCompact(n) + rest == b
  {
    SmallPowers();
    if b[0] % 4 == 0 {
      assert b == [b[0]] + b[1..];
    } else if b[0] % 4 == 1 {
      ModeOf(b[..2], 1);
      LittleEndianCanonical(b[..2]);
      assert b == b[..2] + b[2..];
    } else if b[0] % 4 == 2 {
      ModeOf(b[..4], 2);
      LittleEndianCanonical(b[..4]);
      assert b == b[..4] + b[4..];
    } else {
      LittleEndianCanonical(b[1..5]);
      assert b == [b[0]] + b[1..5] + b[5..];
    }
  }

  // ----- Values -----

  function Encode(v: Val, t: Ty): Bytes
    requires Typed(v, t)
    decreases t, 0
  {
    match t
    case TUnit => []
    case TBool => [if v.b then 1 else 0]
    case TUint(w) => LittleEndian(v.n, w)
    case TFixed(_) => v.bytes
    case TEnum(_) => [v.index]
    case TOption(i) => if v.VNone? then [0] else [1] + Encode(v.inner, i)
    case TPair(a, b) => Encode(v.first, a) + Encode(v.second, b)
    case TVec(e, _) => EncodeCompact(|v.items|) + EncodeAll(v.items, e)
  }

  function EncodeAll(vs: seq<Val>, t: Ty): Bytes
    requires AllTyped(vs, t)
    decreases t, |vs|
  {
    if vs == [] then [] else Encode(vs[0], t) + EncodeAll(vs[1..], t)
  }

  /** Reads one value off the front; `None` is a codec error. */
  function Decode(t: Ty, b: Bytes): Option<(Val, Bytes)>
    decreases t, 0
  {
    match t
    case TUnit => Some((VUnit, b))
    case TBool => if b == [] || b[0] > 1 then None else Some((VBool(b[0] == 1), b[1..]))
    case TUint(w) => if |b| < w then None else Some((VUint(FromLittleEndian(b[..w])), b[w..]))
    case TFixed(n) => if |b| < n then None else Some((VFixed(b[..n]), b[n..]))
    case TEnum(k) => if b == [] || b[0] >= k then None else Some((VEnum(b[0]), b[1..]))
    case TOption(i) =>
      if b == [] || b[0] > 1 then None
      else if b[0] == 0 then Some((VNone, b[1..]))
      else (match Decode(i, b[1..])
            case None => None
            case Some((v, rest)) => Some((VSome(v), rest)))
    case TPair(a, c) =>
      (match Decode(a, b)
       case None => None
       case Some((x, rest)) =>
         match Decode(c, rest)
         case None => None
         case Some((y, rest')) => Some((VPair(x, y), rest')))
    case TVec(e, bound) =>
      match DecodeCompact(b)
      case None => None
      case Some((n, rest)) =>
        if !FitsBound(n, bound) then None
        else match DecodeMany(e, n, rest)
          case None => None
          case Some((vs, rest')) => Some((VVec(vs), rest'))
  }

  function DecodeMany(t: Ty, n: nat, b: Bytes): Option<(seq<Val>, Bytes)>
    decreases t, n
  {
    if n == 0 then Some(([], b))
    else match Decode(t, b)
      case None => None
      case Some((v, rest)) =>
        match DecodeMany(t, n - 1, rest)
        case None => None
        case Some((vs, rest')) => Some(([v] + vs, rest'))
  }

  lemma {:induction false} Assoc(a: Bytes, b: Bytes, c: Bytes)
    ensures a + b + c == a + (b + c)
  {
  }

  /** Whatever follows, decoding an encoding gives back the value and leaves exactly what follows. */
  lemma {:induction false} RoundTrip(v: Val, t: Ty, rest: Bytes)
    requires Typed(v, t)
    ensures Decode(t, Encode(v, t) + rest) == Some((v, rest))
    decreases t, 0
  {
    var e := Encode(v, t);
    assert (e + rest)[..|e|] == e && (e + rest)[|e|..] == rest;
    match t
    case TUint(w) => LittleEndianDecodes(v.n, w);
    case TOption(i) =>
      if v.VSome? {
        RoundTrip(v.inner, i, rest);
        assert (e + rest)[1..] == Encode(v.inner, i) + rest;
      }
    case TPair(a, b) =>
      Assoc(Encode(v.first, a), Encode(v.second, b), rest);
      RoundTrip(v.first, a, Encode(v.second, b) + rest);
      RoundTrip(v.second, b, rest);
    case TVec(x, _) =>
      Assoc(EncodeCompact(|v.items|), EncodeAll(v.items, x), rest);
      CompactRoundTrip(|v.items|, EncodeAll(v.items, x) + rest);
      RoundTripAll(v.items, x, rest);
    case _ =>
  }

  lemma {:induction false} RoundTripAll(vs: seq<Val>, t: Ty, rest: Bytes)
    requires AllTyped(vs, t)
    ensures DecodeMany(t, |vs|, EncodeAll(vs, t) + rest) == Some((vs, rest))
    decreases t, |vs|
  {
    if vs == [] {
      assert EncodeAll(vs, t) + rest == rest;
    } else {
      var tail := vs[1..];
      var after := EncodeAll(tail, t) + rest;
      Assoc(Encode(vs[0], t), EncodeAll(tail, t), rest);
      assert EncodeAll(vs, t) + rest == Encode(vs[0], t) + after;
      RoundTrip(vs[0], t, after);
      RoundTripAll(tail, t, rest);
      assert vs == [vs[0]] + tail && |tail| == |vs| - 1;
    }
  }

  /** Decoding accepts only encodings: what it consumes is the encoding of what it returns. */
  lemma {:induction false} Canonical(t: Ty, b: Bytes)
    requires Decode(t, b).Some?
    ensures var (v, rest) := Decode(t, b).value; Typed(v, t) && Encode(v, t) + rest == b
    decreases t, 0
  {
    match t
    case TUnit =>
    case TBool => assert b == [b[0]] + b[1..];
    case TUint(w) =>
      LittleEndianCanonical(b[..w]);
      assert b == b[..w] + b[w..];
    case TFixed(n) => assert b == b[..n] + b[n..];
    case TEnum(_) => assert b == [b[0]] + b[1..];
    case TOption(i) =>
      assert b == [b[0]] + b[1..];
      if b[0] == 1 {
        Canonical(i, b[1..]);
        var (v, rest) := Decode(i, b[1..]).value;
        Assoc([1], Encode(v, i), rest);
      }
    case TPair(a, c) =>
      Canonical(a, b);
      var (x, rest) := Decode(a, b).value;
      Canonical(c, rest);
      var (y, rest') := Decode(c, rest).value;
      Assoc(Encode(x, a), Encode(y, c), rest');
    case TVec(e, _) =>
      CompactCanonical(b);
      var (n, rest) := DecodeCompact(b).value;
      CanonicalMany(e, n, rest);
      var (vs, rest') := DecodeMany(e, n, rest).value;
      Assoc(EncodeCompact(n), EncodeAll(vs, e), rest');
  }

  lemma {:induction false} CanonicalMany(t: Ty, n: nat, b: Bytes)
    requires DecodeMany(t, n, b).Some?
    ensures var (vs, rest) := DecodeMany(t, n, b).value; |vs| == n && AllTyped(vs, t) && EncodeAll(vs, t) + rest == b
    decreases t, n
  {
    if n > 0 {
      Canonical(t, b);
      var (v, rest) := Decode(t, b).value;
      CanonicalMany(t, n - 1, rest);
      var (vs, rest') := DecodeMany(t, n - 1, rest).value;
      assert ([v] + vs)[1..] == vs;
      Assoc(Encode(v, t), EncodeAll(vs, t), rest');
    }
  }

  // ----- The byte forms of the specification -----

  /** A compact length: one, two or four bytes that read as 4n plus the mode, or the mode byte 3 and four bytes. */
  lemma {:induction false} CompactForm(n: nat)
    requires n < U32_LIMIT
    ensures var e := EncodeCompact(n);
            && (n < 64 ==> e == [4 * n])
            && (64 <= n < 0x4000 ==> |e| == 2 && FromLittleEndian(e) == 4 * n + 1)
            && (0x4000 <= n < 0x4000_0000 ==> |e| == 4 && FromLittleEndian(e) == 4 * n + 2)
            && (0x4000_0000 <= n ==> |e| == 5 && e[0] == 3 && FromLittleEndian(e[1..]) == n)
  {
    SmallPowers();
    if 64 <= n < 0x4000 {
      LittleEndianDecodes(4 * n + 1, 2);
    } else if 0x4000 <= n < 0x4000_0000 {
      LittleEndianDecodes(4 * n + 2, 4);
    } else if n >= 0x4000_0000 {
      LittleEndianDecodes(n, 4);
      assert EncodeCompact(n)[1..] == LittleEndian(n, 4);
    }
  }

  /** Scalars: tag bytes for booleans, options and enumerations, little-endian integers, fixed bytes as they are. */
  lemma {:induction false} ScalarForm(v: Val, t: Ty)
    requires Typed(v, t)
    ensures t.TUnit? ==> Encode(v, t) == []
    ensures t.TBool? ==> Encode(v, t) == [if v.b then 1 else 0]
    ensures t.TUint? ==> |Encode(v, t)| == t.width && FromLittleEndian(Encode(v, t)) == v.n
    ensures t.TFixed? ==> Encode(v, t) == v.bytes
    ensures t.TEnum? ==> Encode(v, t) == [v.index]
    ensures t.TOption? && v.VNone? ==> Encode(v, t) == [0]
  {
    if t.TUint? {
      LittleEndianDecodes(v.n, t.width);
    }
  }

  /** Composites: an option's value after the tag 1, pairs in order, lists after their compact length. */
  lemma {:induction false} CompositeForm(v: Val, t: Ty)
    requires Typed(v, t)
    ensures t.TOption? && v.VSome? ==> Encode(v, t) == [1] + Encode(v.inner, t.inner)
    ensures t.TPair? ==> Encode(v, t) == Encode(v.first, t.first) + Encode(v.second, t.second)
    ensures t.TVec? ==> AllTyped(v.items, t.elem) && FitsBound(|v.items|, t.bound)
    ensures t.TVec? ==> Encode(v, t) == EncodeCompact(|v.items|) + EncodeAll(v.items, t.elem)
  {
  }

  /** A list's items follow one another in order. */
  lemma {:induction false} ItemsInOrder(vs: seq<Val>, v: Val, t: Ty)
    requires AllTyped(vs, t) && Typed(v, t)
    ensures AllTyped(vs + [v], t) && EncodeAll(vs + [v], t) == EncodeAll(vs, t) + Encode(v, t)
    decreases |vs|
  {
    if vs == [] {
      assert (vs + [v])[1..] == [] && [] + Encode(v, t) == Encode(v, t) + [];
    } else {
      assert (vs + [v])[1..] == vs[1..] + [v];
      ItemsInOrder(vs[1..], v, t);
      Assoc(Encode(vs[0], t), EncodeAll(vs[1..], t), Encode(v, t));
    }
  }
}
