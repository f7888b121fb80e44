/** Value types shared by the pallets and the off-chain programs. */
module Common {

  datatype Option<+T> = None | Some(value: T)

  datatype Result<+T, +E> = Ok(value: T) | Err(error: E)

  type Byte = b: int | 0 <= b < 256
  type Bytes = seq<Byte>

  /** Accounts are compared as fixed-width big-endian byte strings, so their order is numeric. */
  type AccountId = nat

  /** The origin of an extrinsic. */
  datatype Origin = Root | Signed(who: AccountId) | Unsigned

  datatype TableIdentifier = TableIdentifier(name: Bytes, namespace: Bytes)

  /** The values in order if every element has one, otherwise the first error. */
  function Collect<T, R, E>(f: T -> Result<R, E>, s: seq<T>): Result<seq<R>, E> {
    if s == [] then Ok([])
    else match f(s[0])
      case Err(e) => Err(e)
      case Ok(first) =>
        match Collect(f, s[1..])
        case Err(e) => Err(e)
        case Ok(rest) => Ok([first] + rest)
  }

  lemma {:induction false} CollectInOrder<T, R, E>(f: T -> Result<R, E>, s: seq<T>)
    ensures match Collect(f, s)
            case Ok(values) =>
              |values| == |s| && forall i :: 0 <= i < |s| ==> f(s[i]) == Ok(values[i])
            case Err(e) =>
              exists i :: 0 <= i < |s| && f(s[i]) == Err(e) && forall j :: 0 <= j < i ==> f(s[j]).Ok?
    decreases |s|
  {
    if s != [] && f(s[0]).Ok? {
      var tail := s[1..];
      CollectInOrder(f, tail);
      if Collect(f, tail).Err? {
        var e := Collect(f, tail).error;
        var i :| 0 <= i < |tail| && f(tail[i]) == Err(e) && forall j :: 0 <= j < i ==> f(tail[j]).Ok?;
        assert f(s[i + 1]) == Err(e);
        assert forall j :: 0 < j < i + 1 ==> s[j] == tail[j - 1];
      }
    }
  }

  lemma {:induction false} CollectOne<T, R, E>(f: T -> Result<R, E>, x: T)
    requires f(x).Ok?
    ensures Collect(f, [x]) == Ok([f(x).value])
  {
    assert [x][1..] == [];
    assert [f(x).value] + [] == [f(x).value];
  }

  /** Text whose characters are single bytes, as bytes. */
  function AsBytes(text: string): (b: Bytes)
    requires forall i :: 0 <= i < |text| ==> text[i] < 256 as char
    ensures |b| == |text| && forall i :: 0 <= i < |text| ==> b[i] == text[i] as int
  {
    seq(|text|, i requires 0 <= i < |text| => text[i] as int)
  }

  const U64_MAX: nat := 0xFFFF_FFFF_FFFF_FFFF

  /** What a `u8` cast keeps of a length. */
  function AsU8(n: nat): (r: Byte)
    ensures n < 256 ==> r == n
  {
    n % 256
  }
}
