/** Injecting UUIDs into the WITH options of a table, and reading them back. */
module TableOptions {
  import opened Common

  const MAX_LENGTH: nat := 64
  const MAX_COLUMNS: nat := 64

  /** UTF-8 text; strings compare byte by byte. */
  type Text = Bytes

  datatype SqlOption = SqlOption(name: Text, value: Text)

  datatype ColumnUuid = ColumnUuid(name: Text, uuid: Text)

  /** The string library: case mappings and the UTF-8 check. */
  datatype Strings = Strings(upper: Text -> Text, lower: Text -> Text, isUtf8: Text -> bool)

  const TABLE_UUID: Text := [84, 65, 66, 76, 69, 95, 85, 85, 73, 68]             // "TABLE_UUID"
  const TABLE_UUID_LOWER: Text := [116, 97, 98, 108, 101, 95, 117, 117, 105, 100] // "table_uuid"
  const COLUMN_PREFIX: Text := [99, 111, 108, 117, 109, 110, 95]            // "column_"
  const UUID_SUFFIX: Text := [95, 117, 117, 105, 100]                       // "_uuid"

  // ----- Order -----

  predicate Less(a: Text, b: Text) {
    b != [] && (a == [] || a[0] < b[0] || (a[0] == b[0] && Less(a[1..], b[1..])))
  }

  /** Dictionary order: a proper prefix, or smaller at the first byte that differs. */
  lemma {:induction false} LessIff(a: Text, b: Text)
    ensures Less(a, b) <==> exists i :: Smaller(a, b, i)
    decreases |a|
  {
    if a == [] {
      if b != [] {
        assert Smaller(a, b, 0);
      }
    } else if b != [] {
      LessIff(a[1..], b[1..]);
      if a[0] == b[0] {
        if i :| Smaller(a[1..], b[1..], i) {
          assert a[..i + 1] == [a[0]] + a[1..][..i] && b[..i + 1] == [b[0]] + b[1..][..i];
          assert Smaller(a, b, i + 1);
        }
        if i :| Smaller(a, b, i) {
          assert i > 0 && a[1..][..i - 1] == a[..i][1..] && b[1..][..i - 1] == b[..i][1..];
          assert Smaller(a[1..], b[1..], i - 1);
        }
      } else {
        if a[0] < b[0] {
          assert Smaller(a, b, 0);
        }
        if i :| Smaller(a, b, i) {
          assert i > 0 ==> a[..i][0] == b[..i][0];
        }
      }
    }
  }

  /** The two agree up to `i`, and there `a` ends or has the smaller byte. */
  predicate Smaller(a: Text, b: Text, i: int) {
    0 <= i <= |a| && i < |b| && a[..i] == b[..i] && (i == |a| || a[i] < b[i])
  }

  /** Exactly one of before, equal and after. */
  lemma {:induction false} LessTotal(a: Text, b: Text)
    ensures Less(a, b) || a == b || Less(b, a)
    ensures !(Less(a, b) && Less(b, a)) && (a == b ==> !Less(a, b))
  {
    if a != [] && b != [] && a[0] == b[0] {
      LessTotal(a[1..], b[1..]);
      assert a == [a[0]] + a[1..] && b == [b[0]] + b[1..];
    }
  }

  lemma {:induction false} LessTransitive(a: Text, b: Text, c: Text)
    requires Less(a, b) && Less(b, c)
    ensures Less(a, c)
  {
    if a != [] && a[0] == b[0] == c[0] {
      LessTransitive(a[1..], b[1..], c[1..]);
    }
  }

  predicate AtMost(a: Text, b: Text) {
    !Less(b, a)
  }

  lemma {:induction false} AtMostTransitive(a: Text, b: Text, c: Text)
    requires AtMost(a, b) && AtMost(b, c)
    ensures AtMost(a, c)
  {
    LessTotal(a, b);
    LessTotal(b, c);
    LessTotal(a, c);
    if Less(c, a) {
      if a != b && b != c {
        LessTransitive(a, b, c);
      }
    }
  }

  // ----- Sorting -----

  type Fold = Text -> Text

  function Key(u: Fold, o: SqlOption): Text {
    u(o.name)
  }

  ghost predicate Sorted(u: Fold, s: seq<SqlOption>) {
    forall i, j :: 0 <= i < j < |s| ==> AtMost(Key(u, s[i]), Key(u, s[j]))
  }

  ghost predicate StrictlySorted(u: Fold, s: seq<SqlOption>) {
    forall i, j :: 0 <= i < j < |s| ==> Less(Key(u, s[i]), Key(u, s[j]))
  }

  /** The entries with this key, in order. */
  function ByKey(u: Fold, s: seq<SqlOption>, k: Text): seq<SqlOption> {
    if s == [] then []
    else
      var o := s[|s| - 1];
      ByKey(u, s[..|s| - 1], k) + if Key(u, o) == k then [o] else []
  }

  lemma {:induction false} ByKeyAppend(u: Fold, a: seq<SqlOption>, b: seq<SqlOption>, k: Text)
    ensures ByKey(u, a + b, k) == ByKey(u, a, k) + ByKey(u, b, k)
    decreases |b|
  {
    if b == [] {
      assert a + b == a;
    } else {
      var b' := b[..|b| - 1];
      ByKeyAppend(u, a, b', k);
      assert (a + b)[..|a + b| - 1] == a + b';
    }
  }

  lemma {:induction false} ByKeySnoc(u: Fold, s: seq<SqlOption>, o: SqlOption, k: Text)
    ensures ByKey(u, s + [o], k) == if Key(u, o) == k then ByKey(u, s, k) + [o] else ByKey(u, s, k)
  {
    assert (s + [o])[..|s|] == s;
    assert ByKey(u, s, k) + [] == ByKey(u, s, k);
  }

  lemma {:induction false} ByKeyEmpty(u: Fold, s: seq<SqlOption>, k: Text)
    ensures ByKey(u, s, k) == [] <==> forall i :: 0 <= i < |s| ==> Key(u, s[i]) != k
  {
    if s != [] {
      var before, o := s[..|s| - 1], s[|s| - 1];
      assert s == before + [o];
      ByKeySnoc(u, before, o, k);
      ByKeyEmpty(u, before, k);
      assert forall i :: 0 <= i < |before| ==> s[i] == before[i];
    }
  }

  lemma {:induction false} ByKeyMember(u: Fold, s: seq<SqlOption>, k: Text, i: nat)
    requires i < |ByKey(u, s, k)|
    ensures ByKey(u, s, k)[i] in s && Key(u, ByKey(u, s, k)[i]) == k
  {
    if i < |ByKey(u, s[..|s| - 1], k)| {
      ByKeyMember(u, s[..|s| - 1], k, i);
    }
  }

  /** The place after every entry whose key is not larger. */
  function Position(u: Fold, k: Text, s: seq<SqlOption>): (p: nat)
    ensures p <= |s|
    ensures forall i :: p <= i < |s| ==> Less(k, Key(u, s[i]))
    ensures p > 0 ==> !Less(k, Key(u, s[p - 1]))
  {
    if s == [] then 0
    else if Less(k, Key(u, s[|s| - 1])) then Position(u, k, s[..|s| - 1])
    else |s|
  }

  function Insert(u: Fold, o: SqlOption, s: seq<SqlOption>): seq<SqlOption> {
    var p := Position(u, Key(u, o), s);
    s[..p] + [o] + s[p..]
  }

  function StableSort(u: Fold, s: seq<SqlOption>): seq<SqlOption> {
    if s == [] then [] else Insert(u, s[|s| - 1], StableSort(u, s[..|s| - 1]))
  }

  lemma {:induction false} InsertSorted(u: Fold, o: SqlOption, s: seq<SqlOption>)
    requires Sorted(u, s)
    ensures Sorted(u, Insert(u, o, s))
  {
    var k := Key(u, o);
    var p := Position(u, k, s);
    var r := Insert(u, o, s);
    assert forall i :: 0 <= i < p ==> r[i] == s[i];
    assert r[p] == o;
    assert forall i :: p < i < |r| ==> r[i] == s[i - 1];
    forall i | 0 <= i < p ensures AtMost(Key(u, s[i]), k) {
      if i < p - 1 {
        AtMostTransitive(Key(u, s[i]), Key(u, s[p - 1]), k);
      }
    }
    forall i | p <= i < |s| ensures AtMost(k, Key(u, s[i])) {
      LessTotal(k, Key(u, s[i]));
    }
  }

  lemma {:induction false} SpliceByKey(u: Fold, before: seq<SqlOption>, o: SqlOption, after: seq<SqlOption>, k: Text)
    ensures ByKey(u, before + [o] + after, k)
         == ByKey(u, before, k) + (if Key(u, o) == k then [o] else []) + ByKey(u, after, k)
  {
    ByKeyAppend(u, before + [o], after, k);
    assert (before + [o])[..|before|] == before;
  }

  lemma {:induction false} InsertByKey(u: Fold, o: SqlOption, s: seq<SqlOption>, k: Text)
    ensures ByKey(u, Insert(u, o, s), k) == ByKey(u, s, k) + if Key(u, o) == k then [o] else []
  {
    var p := Position(u, Key(u, o), s);
    var before, after := s[..p], s[p..];
    var own := if Key(u, o) == k then [o] else [];
    SpliceByKey(u, before, o, after, k);
    assert ByKey(u, s, k) == ByKey(u, before, k) + ByKey(u, after, k) by {
      ByKeyAppend(u, before, after, k);
      assert s == before + after;
    }
    if Key(u, o) == k {
      AfterHasLarger(u, k, after);
    }
    SwapEmpty(ByKey(u, before, k), own, ByKey(u, after, k));
  }

  lemma {:induction false} SwapEmpty(x: seq<SqlOption>, y: seq<SqlOption>, z: seq<SqlOption>)
    requires y == [] || z == []
    ensures x + y + z == x + z + y
  {
  }

  lemma {:induction false} AfterHasLarger(u: Fold, k: Text, s: seq<SqlOption>)
    requires forall i :: 0 <= i < |s| ==> Less(k, Key(u, s[i]))
    ensures ByKey(u, s, k) == []
  {
    LessTotal(k, k);
    ByKeyEmpty(u, s, k);
  }

  /** Sorting orders the keys and keeps, for every key, the same entries in the same order. */
  lemma {:induction false} SortIsStable(u: Fold, s: seq<SqlOption>, k: Text)
    ensures Sorted(u, StableSort(u, s))
    ensures ByKey(u, StableSort(u, s), k) == ByKey(u, s, k)
    decreases |s|
  {
    if s != [] {
      var s' := s[..|s| - 1];
      SortIsStable(u, s', k);
      InsertSorted(u, s[|s| - 1], StableSort(u, s'));
      InsertByKey(u, s[|s| - 1], StableSort(u, s'), k);
    }
  }

  lemma {:induction false} CancelTail(a: seq<SqlOption>, b: seq<SqlOption>, t: seq<SqlOption>)
    requires a + t == b + t
    ensures a == b
  {
    assert |a + t| == |a| + |t| && |b + t| == |b| + |t|;
    assert a == (a + t)[..|a|] && b == (b + t)[..|b|];
  }

  lemma {:induction false} LastOfKey(u: Fold, a: seq<SqlOption>, b: seq<SqlOption>)
    requires Sorted(u, a) && Sorted(u, b) && a != [] && forall k :: ByKey(u, a, k) == ByKey(u, b, k)
    ensures b != [] && AtMost(Key(u, a[|a| - 1]), Key(u, b[|b| - 1]))
  {
    var k := Key(u, a[|a| - 1]);
    ByKeyEmpty(u, a, k);
    ByKeyEmpty(u, b, k);
    assert ByKey(u, a, k) == ByKey(u, b, k);
    var i :| 0 <= i < |b| && Key(u, b[i]) == k;
    LessTotal(k, k);
  }

  /** A sorted list is determined by its entries per key, so any stable sort gives the same list. */
  lemma {:induction false} SortedUnique(u: Fold, a: seq<SqlOption>, b: seq<SqlOption>)
    requires Sorted(u, a) && Sorted(u, b) && forall k :: ByKey(u, a, k) == ByKey(u, b, k)
    ensures a == b
    decreases |a|
  {
    if a == [] {
      if b != [] {
        LastOfKey(u, b, a);
      }
    } else {
      LastOfKey(u, a, b);
      LastOfKey(u, b, a);
      var x, y := a[|a| - 1], b[|b| - 1];
      LessTotal(Key(u, x), Key(u, y));
      assert ByKey(u, a, Key(u, x)) == ByKey(u, b, Key(u, x));
      var a', b' := a[..|a| - 1], b[..|b| - 1];
      var ka, kb := ByKey(u, a, Key(u, x)), ByKey(u, b, Key(u, x));
      assert x == ka[|ka| - 1] && y == kb[|kb| - 1];
      forall k ensures ByKey(u, a', k) == ByKey(u, b', k) {
        assert ByKey(u, a, k) == ByKey(u, b, k);
        var own := if Key(u, x) == k then [x] else [];
        CancelTail(ByKey(u, a', k), ByKey(u, b', k), own);
      }
      SortedUnique(u, a', b');
      assert a == a' + [x] && b == b' + [y];
    }
  }

  // ----- Dropping repeated neighbours -----

  function Dedup(u: Fold, s: seq<SqlOption>): seq<SqlOption> {
    if s == [] then []
    else
      var d, o := Dedup(u, s[..|s| - 1]), s[|s| - 1];
      if d != [] && Key(u, d[|d| - 1]) == Key(u, o) then d else d + [o]
  }

  function FirstOf(s: seq<SqlOption>): seq<SqlOption> {
    if s == [] then [] else [s[0]]
  }

  lemma {:induction false} DedupLast(u: Fold, s: seq<SqlOption>)
    requires s != []
    ensures Dedup(u, s) != [] && Key(u, Dedup(u, s)[|Dedup(u, s)| - 1]) == Key(u, s[|s| - 1])
  {
  }

  /** On a sorted list, what is left is strictly sorted and keeps exactly the first entry of every key. */
  lemma {:induction false} DedupKeepsFirst(u: Fold, s: seq<SqlOption>, k: Text)
    requires Sorted(u, s)
    ensures StrictlySorted(u, Dedup(u, s))
    ensures ByKey(u, Dedup(u, s), k) == FirstOf(ByKey(u, s, k))
    decreases |s|
  {
    if s != [] {
      var s', o := s[..|s| - 1], s[|s| - 1];
      var d := Dedup(u, s');
      assert s == s' + [o];
      ByKeySnoc(u, s', o, k);
      ByKeySnoc(u, d, o, k);
      DedupKeepsFirst(u, s', k);
      if s' != [] {
        DedupLast(u, s');
        var last := d[|d| - 1];
        if Key(u, last) == Key(u, o) {
          if Key(u, o) == k {
            ByKeyEmpty(u, s', k);
          }
        } else {
          PushKeepsStrict(u, d, o, Key(u, s'[|s'| - 1]));
          if Key(u, o) == k {
            NoEarlierKey(u, s);
          }
        }
      }
    }
  }

  lemma {:induction false} PushKeepsStrict(u: Fold, d: seq<SqlOption>, o: SqlOption, last: Text)
    requires StrictlySorted(u, d) && d != [] && Key(u, d[|d| - 1]) == last && last != Key(u, o)
       && AtMost(last, Key(u, o))
    ensures StrictlySorted(u, d + [o])
  {
    LessTotal(last, Key(u, o));
    forall i | 0 <= i < |d| ensures Less(Key(u, d[i]), Key(u, o)) {
      if i < |d| - 1 {
        LessTransitive(Key(u, d[i]), last, Key(u, o));
      }
    }
  }

  lemma {:induction false} NoEarlierKey(u: Fold, s: seq<SqlOption>)
    requires Sorted(u, s) && |s| > 1 && Key(u, s[|s| - 2]) != Key(u, s[|s| - 1])
    ensures ByKey(u, s[..|s| - 1], Key(u, s[|s| - 1])) == []
  {
    var k, p := Key(u, s[|s| - 1]), Key(u, s[|s| - 2]);
    LessTotal(p, k);
    ByKeyEmpty(u, s[..|s| - 1], k);
    forall i | 0 <= i < |s| - 1 ensures Key(u, s[i]) != k {
      LessTotal(Key(u, s[i]), p);
      assert i < |s| - 2 ==> AtMost(Key(u, s[i]), p);
    }
  }

  // ----- Merging -----

  function ColumnEntries(c: Strings, columns: seq<ColumnUuid>): seq<SqlOption> {
    if columns == [] then []
    else
      var e := columns[|columns| - 1];
      ColumnEntries(c, columns[..|columns| - 1])
      + if c.isUtf8(e.name) && c.isUtf8(e.uuid) then [SqlOption(e.name, e.uuid)] else []
  }

  /** A column becomes an entry with its name and UUID exactly when both are UTF-8, and is dropped otherwise. */
  lemma {:induction false} ColumnEntry(c: Strings, e: ColumnUuid)
    ensures ColumnEntries(c, [e]) == if c.isUtf8(e.name) && c.isUtf8(e.uuid) then [SqlOption(e.name, e.uuid)] else []
  {
    assert [e][..0] == [];
  }

  /** Columns keep their order. */
  lemma {:induction false} ColumnEntriesAppend(c: Strings, a: seq<ColumnUuid>, b: seq<ColumnUuid>)
    ensures ColumnEntries(c, a + b) == ColumnEntries(c, a) + ColumnEntries(c, b)
    decreases |b|
  {
    if b == [] {
      assert a + b == a;
    } else {
      assert (a + b)[..|a + b| - 1] == a + b[..|b| - 1];
      ColumnEntriesAppend(c, a, b[..|b| - 1]);
    }
  }

  /** New entries first: columns, then the table, then what the statement already had. */
  function Entries(c: Strings, columns: seq<ColumnUuid>, uuid: Text, existing: seq<SqlOption>): seq<SqlOption> {
    ColumnEntries(c, columns) + [SqlOption(TABLE_UUID, uuid)] + existing
  }

  function Merge(c: Strings, columns: seq<ColumnUuid>, uuid: Text, existing: seq<SqlOption>): seq<SqlOption> {
    Dedup(c.upper, StableSort(c.upper, Entries(c, columns, uuid, existing)))
  }

  /** The merge as the code does it: collect, sort in place, drop repeated neighbours. */
  method UpdateOptions(c: Strings, columns: seq<ColumnUuid>, uuid: Text,
      existing: seq<SqlOption>) returns (r: Option<seq<SqlOption>>)
    ensures r == if c.isUtf8(uuid) then Some(Merge(c, columns, uuid, existing)) else None
  {
    if !c.isUtf8(uuid) {
      return None;
    }
    var entries := CollectColumns(c, columns);
    entries := entries + [SqlOption(TABLE_UUID, uuid)] + existing;
    entries := SortEntries(c.upper, entries);
    entries := DedupEntries(c.upper, entries);
    return Some(entries);
  }

  method CollectColumns(c: Strings, columns: seq<ColumnUuid>) returns (entries: seq<SqlOption>)
    ensures entries == ColumnEntries(c, columns)
  {
    entries := [];
    for i := 0 to |columns|
      invariant entries == ColumnEntries(c, columns[..i])
    {
      assert columns[..i + 1][..i] == columns[..i];
      if c.isUtf8(columns[i].name) && c.isUtf8(columns[i].uuid) {
        entries := entries + [SqlOption(columns[i].name, columns[i].uuid)];
      }
    }
    assert columns[..|columns|] == columns;
  }

  method DedupEntries(u: Fold, entries: seq<SqlOption>) returns (kept: seq<SqlOption>)
    ensures kept == Dedup(u, entries)
  {
    kept := [];
    for i := 0 to |entries|
      invariant kept == Dedup(u, entries[..i])
    {
      assert entries[..i + 1][..i] == entries[..i];
      if kept == [] || Key(u, kept[|kept| - 1]) != Key(u, entries[i]) {
        kept := kept + [entries[i]];
      }
    }
    assert entries[..|entries|] == entries;
  }

  method FindPosition(u: Fold, k: Text, s: seq<SqlOption>) returns (p: nat)
    ensures p == Position(u, k, s)
  {
    p := |s|;
    assert s[..p] == s;
    while p > 0 && Less(k, Key(u, s[p - 1]))
      invariant p <= |s| && Position(u, k, s) == Position(u, k, s[..p])
    {
      assert s[..p][..p - 1] == s[..p - 1];
      p := p - 1;
    }
  }

  method SortEntries(u: Fold, entries: seq<SqlOption>) returns (sorted: seq<SqlOption>)
    ensures sorted == StableSort(u, entries)
  {
    sorted := [];
    for i := 0 to |entries|
      invariant sorted == StableSort(u, entries[..i])
    {
      assert entries[..i + 1][..i] == entries[..i];
      var p := FindPosition(u, Key(u, entries[i]), sorted);
      sorted := sorted[..p] + [entries[i]] + sorted[p..];
    }
    assert entries[..|entries|] == entries;
  }

  /** The merged options: strictly sorted by folded name, one entry per name, the first in entry order. */
  lemma {:induction false} MergeIsFirstWins(c: Strings, columns: seq<ColumnUuid>, uuid: Text,
      existing: seq<SqlOption>, k: Text)
    ensures StrictlySorted(c.upper, Merge(c, columns, uuid, existing))
    ensures ByKey(c.upper, Merge(c, columns, uuid, existing), k)
       == FirstOf(ByKey(c.upper, Entries(c, columns, uuid, existing), k))
  {
    var e := Entries(c, columns, uuid, existing);
    SortIsStable(c.upper, e, k);
    DedupKeepsFirst(c.upper, StableSort(c.upper, e), k);
  }

  // ----- First wins, over the inputs -----

  ghost predicate Writable(c: Strings, e: ColumnUuid) {
    c.isUtf8(e.name) && c.isUtf8(e.uuid)
  }

  /** The first column that is written and folds to this name. */
  ghost predicate FirstColumn(c: Strings, columns: seq<ColumnUuid>, k: Text, i: nat) {
    && i < |columns| && Writable(c, columns[i]) && c.upper(columns[i].name) == k
    && forall j :: 0 <= j < i && Writable(c, columns[j]) ==> c.upper(columns[j].name) != k
  }

  ghost predicate NoColumn(c: Strings, columns: seq<ColumnUuid>, k: Text) {
    forall j :: 0 <= j < |columns| && Writable(c, columns[j]) ==> c.upper(columns[j].name) != k
  }

  lemma {:induction false} NoColumnEntries(c: Strings, columns: seq<ColumnUuid>, k: Text)
    requires NoColumn(c, columns, k)
    ensures ByKey(c.upper, ColumnEntries(c, columns), k) == []
    decreases |columns|
  {
    if columns != [] {
      var before, e := columns[..|columns| - 1], columns[|columns| - 1];
      NoColumnEntries(c, before, k);
      if Writable(c, e) {
        ByKeySnoc(c.upper, ColumnEntries(c, before), SqlOption(e.name, e.uuid), k);
      } else {
        assert ColumnEntries(c, before) + [] == ColumnEntries(c, before);
      }
    }
  }

  lemma {:induction false} FirstColumnEntries(c: Strings, columns: seq<ColumnUuid>, k: Text, i: nat)
    requires FirstColumn(c, columns, k, i)
    ensures FirstOf(ByKey(c.upper, ColumnEntries(c, columns), k)) == [SqlOption(columns[i].name, columns[i].uuid)]
  {
    var before, e, after := columns[..i], columns[i], columns[i + 1..];
    var o := SqlOption(e.name, e.uuid);
    assert columns == before + [e] + after;
    ColumnEntriesAppend(c, before + [e], after);
    ColumnEntriesAppend(c, before, [e]);
    ColumnEntry(c, e);
    assert NoColumn(c, before, k);
    NoColumnEntries(c, before, k);
    ByKeyAppend(c.upper, ColumnEntries(c, before) + [o], ColumnEntries(c, after), k);
    ByKeySnoc(c.upper, ColumnEntries(c, before), o, k);
  }

  ghost predicate FirstOption(c: Strings, existing: seq<SqlOption>, k: Text, i: nat) {
    && i < |existing| && c.upper(existing[i].name) == k
    && forall j :: 0 <= j < i ==> c.upper(existing[j].name) != k
  }

  lemma {:induction false} FirstOptionEntries(c: Strings, existing: seq<SqlOption>, k: Text, i: nat)
    requires FirstOption(c, existing, k, i)
    ensures FirstOf(ByKey(c.upper, existing, k)) == [existing[i]]
  {
    assert existing == existing[..i] + [existing[i]] + existing[i + 1..];
    ByKeyEmpty(c.upper, existing[..i], k);
    ByKeySnoc(c.upper, existing[..i], existing[i], k);
    ByKeyAppend(c.upper, existing[..i] + [existing[i]], existing[i + 1..], k);
  }

  /** The first of the three lists that has an entry of this name gives it. */
  lemma {:induction false} MergePicks(c: Strings, columns: seq<ColumnUuid>, uuid: Text, existing: seq<SqlOption>,
      k: Text)
    ensures var own, given := ByKey(c.upper, ColumnEntries(c, columns), k), ByKey(c.upper, existing, k);
            ByKey(c.upper, Merge(c, columns, uuid, existing), k) ==
            if own != [] then FirstOf(own)
            else if k == c.upper(TABLE_UUID) then [SqlOption(TABLE_UUID, uuid)]
            else FirstOf(given)
  {
    var cols, table := ColumnEntries(c, columns), SqlOption(TABLE_UUID, uuid);
    MergeIsFirstWins(c, columns, uuid, existing, k);
    ByKeyAppend(c.upper, cols + [table], existing, k);
    ByKeySnoc(c.upper, cols, table, k);
    FirstOfAppend(ByKey(c.upper, cols + [table], k), ByKey(c.upper, existing, k));
    if k == c.upper(TABLE_UUID) {
      FirstOfAppend(ByKey(c.upper, cols, k), [table]);
    }
  }

  lemma {:induction false} FirstOfAppend(a: seq<SqlOption>, b: seq<SqlOption>)
    ensures FirstOf(a + b) == if a != [] then FirstOf(a) else FirstOf(b)
  {
    assert a == [] ==> a + b == b;
  }

  /** What the merge holds for a folded name: the first column written under it; failing that the table UUID, if it is
      the table's name; failing that the first existing option; failing that nothing. */
  lemma {:induction false} MergeHolds(c: Strings, columns: seq<ColumnUuid>, uuid: Text, existing: seq<SqlOption>,
      k: Text, i: nat)
    ensures FirstColumn(c, columns, k, i) ==>
      ByKey(c.upper, Merge(c, columns, uuid, existing), k) == [SqlOption(columns[i].name, columns[i].uuid)]
    ensures NoColumn(c, columns, k) && k == c.upper(TABLE_UUID) ==>
      ByKey(c.upper, Merge(c, columns, uuid, existing), k) == [SqlOption(TABLE_UUID, uuid)]
    ensures NoColumn(c, columns, k) && k != c.upper(TABLE_UUID) && FirstOption(c, existing, k, i) ==>
      ByKey(c.upper, Merge(c, columns, uuid, existing), k) == [existing[i]]
    ensures NoColumn(c, columns, k) && k != c.upper(TABLE_UUID)
            && (forall j :: 0 <= j < |existing| ==> c.upper(existing[j].name) != k) ==>
      ByKey(c.upper, Merge(c, columns, uuid, existing), k) == []
  {
    MergePicks(c, columns, uuid, existing, k);
    ByKeyEmpty(c.upper, existing, k);
    if FirstColumn(c, columns, k, i) {
      FirstColumnEntries(c, columns, k, i);
    }
    if NoColumn(c, columns, k) {
      NoColumnEntries(c, columns, k);
    }
    if FirstOption(c, existing, k, i) {
      FirstOptionEntries(c, existing, k, i);
    }
  }

  lemma {:induction false} StrictIsSorted(u: Fold, s: seq<SqlOption>)
    requires StrictlySorted(u, s)
    ensures Sorted(u, s)
  {
    forall i, j | 0 <= i < j < |s| ensures AtMost(Key(u, s[i]), Key(u, s[j])) {
      LessTotal(Key(u, s[i]), Key(u, s[j]));
    }
  }

  /** Strict order and first-wins together leave no freedom: any list with both is the merge. */
  lemma {:induction false} MergeUnique(c: Strings, columns: seq<ColumnUuid>, uuid: Text, existing: seq<SqlOption>,
      r: seq<SqlOption>)
    requires StrictlySorted(c.upper, r)
    requires forall k :: ByKey(c.upper, r, k) == FirstOf(ByKey(c.upper, Entries(c, columns, uuid, existing), k))
    ensures r == Merge(c, columns, uuid, existing)
  {
    var m := Merge(c, columns, uuid, existing);
    MergeIsFirstWins(c, columns, uuid, existing, []);
    StrictIsSorted(c.upper, r);
    StrictIsSorted(c.upper, m);
    forall k ensures ByKey(c.upper, r, k) == ByKey(c.upper, m, k) {
      MergeIsFirstWins(c, columns, uuid, existing, k);
    }
    SortedUnique(c.upper, r, m);
  }

  /** Merging the same UUIDs again changes nothing. */
  lemma {:induction false} MergeIdempotent(c: Strings, columns: seq<ColumnUuid>, uuid: Text, existing: seq<SqlOption>)
    ensures Merge(c, columns, uuid, Merge(c, columns, uuid, existing)) == Merge(c, columns, uuid, existing)
  {
    var m := Merge(c, columns, uuid, existing);
    MergeIsFirstWins(c, columns, uuid, existing, []);
    forall k ensures ByKey(c.upper, m, k) == FirstOf(ByKey(c.upper, Entries(c, columns, uuid, m), k)) {
      var fixed := ColumnEntries(c, columns) + [SqlOption(TABLE_UUID, uuid)];
      ByKeyAppend(c.upper, fixed, existing, k);
      ByKeyAppend(c.upper, fixed, m, k);
      MergeIsFirstWins(c, columns, uuid, existing, k);
    }
    MergeUnique(c, columns, uuid, m, m);
  }

  // ----- Reading back -----

  datatype Extracted = NoMatch | Column(name: Text) | Panic

  predicate EndsWith(s: Text, suffix: Text) {
    |s| >= |suffix| && s[|s| - |suffix|..] == suffix
  }

  function ExtractColumnName(s: Text): Extracted {
    if COLUMN_PREFIX <= s && EndsWith(s, UUID_SUFFIX) then
      var start, end := |COLUMN_PREFIX|, |s| - |UUID_SUFFIX|;
      if start <= end then Column(s[start..end]) else Panic
    else NoMatch
  }

  /** The names written and looked for. */
  lemma {:induction false} OptionText()
    ensures TABLE_UUID == AsBytes("TABLE_UUID") && TABLE_UUID_LOWER == AsBytes("table_uuid")
    ensures COLUMN_PREFIX == AsBytes("column_") && UUID_SUFFIX == AsBytes("_uuid")
  {
  }

  /** A column name is found exactly between the affixes; the one name that makes the slice fail is "column_uuid". */
  lemma {:induction false} ExtractIff(s: Text, name: Text)
    ensures ExtractColumnName(s) == Column(name) <==> s == COLUMN_PREFIX + name + UUID_SUFFIX
    ensures ExtractColumnName(s).Panic? <==> s == COLUMN_PREFIX + UUID_SUFFIX[1..]
  {
    if s == COLUMN_PREFIX + name + UUID_SUFFIX {
      assert s[..7] == COLUMN_PREFIX && s[|s| - 5..] == UUID_SUFFIX && s[7..|s| - 5] == name;
    }
    if ExtractColumnName(s) == Column(name) {
      assert s == s[..7] + s[7..|s| - 5] + s[|s| - 5..];
    }
    if s == COLUMN_PREFIX + UUID_SUFFIX[1..] {
      assert s[..7] == COLUMN_PREFIX && s[6..] == UUID_SUFFIX;
    }
    if ExtractColumnName(s).Panic? {
      PanicLength(s);
      assert s == s[..7] + s[6..][1..];
    }
  }

  lemma {:induction false} PanicLength(s: Text)
    requires ExtractColumnName(s).Panic?
    ensures |s| == 11 && s[..7] == COLUMN_PREFIX && s[6..] == UUID_SUFFIX
  {
    assert s[..7] == COLUMN_PREFIX;
    var k := |s| - 5;
    assert s[k..] == UUID_SUFFIX;
    assert s[k] == UUID_SUFFIX[0] == 95;
    assert s[k] == COLUMN_PREFIX[k];
  }

  predicate Fits(t: Text) {
    |t| <= MAX_LENGTH
  }

  function ReadColumns(options: seq<SqlOption>): Option<seq<ColumnUuid>> {
    if options == [] then Some([])
    else
      var o := options[|options| - 1];
      match ReadColumns(options[..|options| - 1])
      case None => None
      case Some(found) =>
        match ExtractColumnName(o.name)
        case Panic => None
        case NoMatch => Some(found)
        case Column(name) => if Fits(name) && Fits(o.value) then Some(found + [ColumnUuid(name, o.value)]) else None
  }

  /** The columns read are exactly the options whose names carry both affixes. */
  lemma {:induction false} ReadColumnsIff(options: seq<SqlOption>, name: Text, value: Text)
    requires ReadColumns(options).Some?
    ensures ColumnUuid(name, value) in ReadColumns(options).value
       <==> SqlOption(COLUMN_PREFIX + name + UUID_SUFFIX, value) in options
    decreases |options|
  {
    if options != [] {
      var o, prefix := options[|options| - 1], options[..|options| - 1];
      assert options == prefix + [o];
      ReadColumnsIff(prefix, name, value);
      ExtractIff(o.name, name);
    }
  }

  /** Columns are read in the order of their options, each with its own value. */
  lemma {:induction false} ReadColumnsAppend(a: seq<SqlOption>, b: seq<SqlOption>)
    ensures ReadColumns(a + b) ==
      if ReadColumns(a).Some? && ReadColumns(b).Some? then Some(ReadColumns(a).value + ReadColumns(b).value) else None
    decreases |b|
  {
    if b == [] {
      assert a + b == a;
      assert ReadColumns(a).Some? ==> ReadColumns(a).value + [] == ReadColumns(a).value;
    } else {
      var last, before := b[|b| - 1], b[..|b| - 1];
      assert (a + b)[..|a + b| - 1] == a + before;
      ReadColumnsAppend(a, before);
      if ReadColumns(a + b).Some? && ExtractColumnName(last.name).Column? {
        var e := ColumnUuid(ExtractColumnName(last.name).name, last.value);
        assert ReadColumns(a).value + ReadColumns(before).value + [e]
            == ReadColumns(a).value + (ReadColumns(before).value + [e]);
      }
    }
  }

  function ReadTable(c: Strings, options: seq<SqlOption>): Option<Text> {
    if options == [] then Some([])
    else
      var o := options[|options| - 1];
      match ReadTable(c, options[..|options| - 1])
      case None => None
      case Some(found) =>
        if c.lower(o.name) != TABLE_UUID_LOWER then Some(found)
        else if Fits(o.value) then Some(o.value)
        else None
  }

  /** Table UUID and column UUIDs; `None` where the code panics. */
  function ReadUuids(c: Strings, options: seq<SqlOption>): Option<(Text, seq<ColumnUuid>)> {
    match ReadColumns(options)
    case None => None
    case Some(columns) =>
      if |columns| > MAX_COLUMNS then None
      else match ReadTable(c, options)
        case None => None
        case Some(uuid) => Some((uuid, columns))
  }

  method UuidsFromOptions(c: Strings, options: seq<SqlOption>) returns (r: Option<(Text, seq<ColumnUuid>)>)
    ensures r == ReadUuids(c, options)
  {
    var columns := ReadColumns(options);
    if columns.None? || |columns.value| > MAX_COLUMNS {
      return None;
    }
    var uuid: Text := [];
    for i := 0 to |options|
      invariant ReadTable(c, options[..i]) == Some(uuid)
    {
      assert options[..i + 1][..i] == options[..i];
      if c.lower(options[i].name) == TABLE_UUID_LOWER {
        if !Fits(options[i].value) {
          ReadTableFails(c, options, i + 1);
          return None;
        }
        uuid := options[i].value;
      }
    }
    assert options[..|options|] == options;
    return Some((uuid, columns.value));
  }

  lemma {:induction false} ReadTableFails(c: Strings, options: seq<SqlOption>, i: nat)
    requires i <= |options| && ReadTable(c, options[..i]).None?
    ensures ReadTable(c, options).None?
    decreases |options| - i
  {
    if i == |options| {
      assert options[..i] == options;
    } else {
      assert options[..i + 1][..i] == options[..i];
      ReadTableFails(c, options, i + 1);
    }
  }

  // ----- What the merge keeps -----

  /** The entries with no earlier entry of the same folded name, in order. */
  function Survivors(u: Fold, s: seq<SqlOption>): seq<SqlOption> {
    if s == [] then []
    else
      var before, o := s[..|s| - 1], s[|s| - 1];
      Survivors(u, before) + if ByKey(u, before, Key(u, o)) == [] then [o] else []
  }

  lemma {:induction false} SurvivorsSnoc(u: Fold, s: seq<SqlOption>, o: SqlOption)
    ensures Survivors(u, s + [o]) == if ByKey(u, s, Key(u, o)) == [] then Survivors(u, s) + [o] else Survivors(u, s)
  {
    assert (s + [o])[..|s|] == s;
    assert Survivors(u, s) + [] == Survivors(u, s);
  }

  lemma {:induction false} SurvivorsByKey(u: Fold, s: seq<SqlOption>, k: Text)
    ensures ByKey(u, Survivors(u, s), k) == FirstOf(ByKey(u, s, k))
    decreases |s|
  {
    if s != [] {
      var before, o := s[..|s| - 1], s[|s| - 1];
      var kept := Survivors(u, before);
      SurvivorsByKey(u, before, k);
      assert s == before + [o];
      SurvivorsSnoc(u, before, o);
      ByKeySnoc(u, before, o, k);
      ByKeySnoc(u, kept, o, k);
    }
  }

  /** The merge is the sorted survivors: sorting loses and repeats nothing. */
  lemma {:induction false} MergeSortsSurvivors(c: Strings, columns: seq<ColumnUuid>, uuid: Text,
      existing: seq<SqlOption>)
    ensures Merge(c, columns, uuid, existing)
         == StableSort(c.upper, Survivors(c.upper, Entries(c, columns, uuid, existing)))
  {
    var m, e := Merge(c, columns, uuid, existing), Entries(c, columns, uuid, existing);
    var kept := Survivors(c.upper, e);
    MergeIsFirstWins(c, columns, uuid, existing, []);
    StrictIsSorted(c.upper, m);
    SortIsStable(c.upper, kept, []);
    forall k ensures ByKey(c.upper, m, k) == ByKey(c.upper, StableSort(c.upper, kept), k) {
      MergeIsFirstWins(c, columns, uuid, existing, k);
      SurvivorsByKey(c.upper, e, k);
      SortIsStable(c.upper, kept, k);
    }
    SortedUnique(c.upper, m, StableSort(c.upper, kept));
  }

  // ----- When reading panics -----

  /** The reader gets past this option: it is no column's, or its column name and value have room. */
  predicate Readable(o: SqlOption) {
    match ExtractColumnName(o.name)
    case Panic => false
    case NoMatch => true
    case Column(name) => |name| <= 64 && |o.value| <= 64
  }

  ghost predicate AllReadable(options: seq<SqlOption>) {
    forall o :: o in options ==> Readable(o)
  }

  function ColumnCount(options: seq<SqlOption>): nat {
    if options == [] then 0
    else ColumnCount(options[..|options| - 1]) + if ExtractColumnName(options[|options| - 1].name).Column? then 1 else 0
  }

  lemma {:induction false} ReadColumnsOkIff(options: seq<SqlOption>)
    ensures ReadColumns(options).Some? <==> AllReadable(options)
    ensures ReadColumns(options).Some? ==> |ReadColumns(options).value| == ColumnCount(options)
    decreases |options|
  {
    if options != [] {
      var o, prefix := options[|options| - 1], options[..|options| - 1];
      assert options == prefix + [o];
      ReadColumnsOkIff(prefix);
      assert AllReadable(options) <==> AllReadable(prefix) && Readable(o);
    }
  }

  lemma {:induction false} ColumnCountAppend(a: seq<SqlOption>, b: seq<SqlOption>)
    ensures ColumnCount(a + b) == ColumnCount(a) + ColumnCount(b)
    decreases |b|
  {
    if b == [] {
      assert a + b == a;
    } else {
      assert (a + b)[..|a + b| - 1] == a + b[..|b| - 1];
      ColumnCountAppend(a, b[..|b| - 1]);
    }
  }

  lemma {:induction false} InsertKeeps(u: Fold, o: SqlOption, s: seq<SqlOption>)
    ensures ColumnCount(Insert(u, o, s)) == ColumnCount(s + [o])
    ensures forall x :: x in Insert(u, o, s) <==> x in s + [o]
  {
    var p := Position(u, Key(u, o), s);
    assert s == s[..p] + s[p..];
    ColumnCountAppend(s[..p] + [o], s[p..]);
    ColumnCountAppend(s[..p], [o]);
    ColumnCountAppend(s[..p], s[p..]);
    ColumnCountAppend(s, [o]);
  }

  lemma {:induction false} SortKeeps(u: Fold, s: seq<SqlOption>)
    ensures ColumnCount(StableSort(u, s)) == ColumnCount(s)
    ensures forall x :: x in StableSort(u, s) <==> x in s
    decreases |s|
  {
    if s != [] {
      var prefix, o := s[..|s| - 1], s[|s| - 1];
      SortKeeps(u, prefix);
      InsertKeeps(u, o, StableSort(u, prefix));
      ColumnCountAppend(StableSort(u, prefix), [o]);
      ColumnCountAppend(prefix, [o]);
      assert s == prefix + [o];
    }
  }

  // ----- Reading back what was merged -----

  /** What the Unicode case mappings do keep: names that lower-case to the reader's name all upper-case to the
      writer's, and the writer's own name is one of them. Other names may upper-case to it as well. */
  ghost predicate FoldsOneWay(c: Strings) {
    && c.lower(TABLE_UUID) == TABLE_UUID_LOWER
    && forall name :: c.lower(name) == TABLE_UUID_LOWER ==> c.upper(name) == c.upper(TABLE_UUID)
  }

  /** The entries the reader takes for the table UUID's, in order. */
  function ForReader(c: Strings, s: seq<SqlOption>): seq<SqlOption> {
    ByKey(c.lower, s, TABLE_UUID_LOWER)
  }

  ghost predicate AllFit(options: seq<SqlOption>) {
    forall i :: 0 <= i < |options| ==> |options[i].value| <= 64
  }

  /** Reading takes the last of them, or the empty default, and panics if one is too long. */
  lemma {:induction false} ReadTableIsLast(c: Strings, options: seq<SqlOption>)
    ensures var own := ForReader(c, options);
            && (ReadTable(c, options).Some? <==> AllFit(own))
            && (ReadTable(c, options).Some? ==>
                  ReadTable(c, options).value == if own == [] then [] else own[|own| - 1].value)
    decreases |options|
  {
    if options != [] {
      var o, prefix := options[|options| - 1], options[..|options| - 1];
      ReadTableIsLast(c, prefix);
      var own, all := ForReader(c, prefix), ForReader(c, options);
      if Key(c.lower, o) == TABLE_UUID_LOWER {
        assert all == own + [o] && all[|own|] == o;
        assert forall i :: 0 <= i < |own| ==> all[i] == own[i];
      } else {
        assert all == own;
      }
    }
  }

  /** The reader's entries are among the writer's. */
  lemma {:induction false} ReaderSeesWriter(c: Strings, s: seq<SqlOption>)
    requires FoldsOneWay(c)
    ensures ForReader(c, s) == ForReader(c, ByKey(c.upper, s, c.upper(TABLE_UUID)))
    decreases |s|
  {
    if s != [] {
      var prefix, o := s[..|s| - 1], s[|s| - 1];
      ReaderSeesWriter(c, prefix);
      var own := ByKey(c.upper, prefix, c.upper(TABLE_UUID));
      assert s == prefix + [o];
      ByKeySnoc(c.upper, prefix, o, c.upper(TABLE_UUID));
      ByKeySnoc(c.lower, prefix, o, TABLE_UUID_LOWER);
      ByKeySnoc(c.lower, own, o, TABLE_UUID_LOWER);
      assert c.lower(o.name) == TABLE_UUID_LOWER ==> c.upper(o.name) == c.upper(TABLE_UUID);
    }
  }

  /** The columns that take the table UUID's place in the merge. */
  function Taking(c: Strings, columns: seq<ColumnUuid>): seq<SqlOption> {
    ByKey(c.upper, ColumnEntries(c, columns), c.upper(TABLE_UUID))
  }

  lemma {:induction false} OneTableEntry(c: Strings, columns: seq<ColumnUuid>, uuid: Text, existing: seq<SqlOption>)
    ensures var taking := Taking(c, columns);
            ByKey(c.upper, Merge(c, columns, uuid, existing), c.upper(TABLE_UUID))
            == [if taking == [] then SqlOption(TABLE_UUID, uuid) else taking[0]]
  {
    var k, cols, table := c.upper(TABLE_UUID), ColumnEntries(c, columns), SqlOption(TABLE_UUID, uuid);
    MergeIsFirstWins(c, columns, uuid, existing, k);
    ByKeyAppend(c.upper, cols + [table], existing, k);
    ByKeyAppend(c.upper, cols, [table], k);
    assert ByKey(c.upper, [table], k) == [table];
  }

  /** Nothing takes the name, or the reader finds the first column that does and it carries the same UUID; a column
      the reader does not find leaves the empty default. */
  ghost predicate TableUuidKept(c: Strings, columns: seq<ColumnUuid>, uuid: Text) {
    var taking := Taking(c, columns);
    || taking == []
    || uuid == (if c.lower(taking[0].name) == TABLE_UUID_LOWER then taking[0].value else [])
  }

  lemma {:induction false} ReadTableOfMerge(c: Strings, columns: seq<ColumnUuid>, uuid: Text, existing: seq<SqlOption>)
    requires FoldsOneWay(c) && Fits(uuid) && forall e :: e in columns ==> Fits(e.uuid)
    ensures ReadTable(c, Merge(c, columns, uuid, existing)).Some?
    ensures ReadTable(c, Merge(c, columns, uuid, existing)).value == uuid <==> TableUuidKept(c, columns, uuid)
  {
    var m, taking := Merge(c, columns, uuid, existing), Taking(c, columns);
    var first := if taking == [] then SqlOption(TABLE_UUID, uuid) else taking[0];
    OneTableEntry(c, columns, uuid, existing);
    ReaderSeesWriter(c, m);
    ReadTableIsLast(c, m);
    assert [] + [first] == [first];
    ByKeySnoc(c.lower, [], first, TABLE_UUID_LOWER);
    assert ForReader(c, [first]) == if c.lower(first.name) == TABLE_UUID_LOWER then [first] else [];
    if taking != [] {
      ByKeyMember(c.upper, ColumnEntries(c, columns), c.upper(TABLE_UUID), 0);
      ColumnValuesFit(c, columns, taking[0]);
    }
  }

  /** Exactly when the reader returns the supplied table UUID: it meets no unreadable option and at most 64 column
      options among those the merge keeps, and the table UUID's entry is not lost to a column. */
  lemma {:induction false} TableUuidReadsBackIff(c: Strings, columns: seq<ColumnUuid>, uuid: Text,
      existing: seq<SqlOption>)
    requires FoldsOneWay(c) && Fits(uuid) && forall e :: e in columns ==> Fits(e.uuid)
    ensures var r := ReadUuids(c, Merge(c, columns, uuid, existing));
            var kept := Survivors(c.upper, Entries(c, columns, uuid, existing));
            r.Some? && r.value.0 == uuid <==>
            AllReadable(kept) && ColumnCount(kept) <= 64 && TableUuidKept(c, columns, uuid)
  {
    ReadsIff(c, columns, uuid, existing);
    ReadTableOfMerge(c, columns, uuid, existing);
  }

  lemma {:induction false} ColumnValuesFit(c: Strings, columns: seq<ColumnUuid>, o: SqlOption)
    requires o in ColumnEntries(c, columns) && forall e :: e in columns ==> Fits(e.uuid)
    ensures Fits(o.value)
    decreases |columns|
  {
    var e := columns[|columns| - 1];
    if o in ColumnEntries(c, columns[..|columns| - 1]) {
      ColumnValuesFit(c, columns[..|columns| - 1], o);
    } else {
      assert e in columns && o == SqlOption(e.name, e.uuid);
    }
  }

  // ----- Which columns read back -----

  /** The option the reader takes for this column's. */
  function OptionName(name: Text): Text {
    COLUMN_PREFIX + name + UUID_SUFFIX
  }

  lemma {:induction false} ByKeyHas(u: Fold, s: seq<SqlOption>, o: SqlOption)
    requires o in s
    ensures o in ByKey(u, s, Key(u, o))
    decreases |s|
  {
    var before, last := s[..|s| - 1], s[|s| - 1];
    assert s == before + [last];
    ByKeySnoc(u, before, last, Key(u, o));
    if o in before {
      ByKeyHas(u, before, o);
    }
  }

  /** An entry survives exactly when it is the first of its folded name. */
  lemma {:induction false} SurvivesIff(u: Fold, s: seq<SqlOption>, o: SqlOption)
    ensures o in Survivors(u, s) <==> FirstOf(ByKey(u, s, Key(u, o))) == [o]
  {
    var k, kept := Key(u, o), Survivors(u, s);
    SurvivorsByKey(u, s, k);
    if o in kept {
      ByKeyHas(u, kept, o);
    }
    if ByKey(u, kept, k) == [o] {
      ByKeyMember(u, kept, k, 0);
    }
  }

  /** When reading does not panic, the columns read are exactly the affixed options among the survivors. */
  lemma {:induction false} ColumnsReadIff(c: Strings, columns: seq<ColumnUuid>, uuid: Text, existing: seq<SqlOption>,
      name: Text, value: Text)
    requires ReadUuids(c, Merge(c, columns, uuid, existing)).Some?
    ensures ColumnUuid(name, value) in ReadUuids(c, Merge(c, columns, uuid, existing)).value.1
       <==> SqlOption(OptionName(name), value) in Survivors(c.upper, Entries(c, columns, uuid, existing))
  {
    MergeSortsSurvivors(c, columns, uuid, existing);
    SortKeeps(c.upper, Survivors(c.upper, Entries(c, columns, uuid, existing)));
    ReadColumnsIff(Merge(c, columns, uuid, existing), name, value);
  }

  /** The first entry that upper-cases like the column's option is that option, spelled the same, with that value. */
  ghost predicate ColumnKept(c: Strings, entries: seq<SqlOption>, name: Text, value: Text) {
    FirstOf(ByKey(c.upper, entries, c.upper(OptionName(name)))) == [SqlOption(OptionName(name), value)]
  }

  /** Exactly when the reader returns a column with its UUID, supplied or not: it does not panic, and the column's
      affixed option comes first among the entries of its folded name. */
  lemma {:induction false} ColumnReadsBackIff(c: Strings, columns: seq<ColumnUuid>, uuid: Text,
      existing: seq<SqlOption>, name: Text,
      value: Text)
    requires FoldsOneWay(c) && Fits(uuid) && forall e :: e in columns ==> Fits(e.uuid)
    ensures var r := ReadUuids(c, Merge(c, columns, uuid, existing));
            var entries := Entries(c, columns, uuid, existing);
            var kept := Survivors(c.upper, entries);
            r.Some? && ColumnUuid(name, value) in r.value.1 <==>
            AllReadable(kept) && ColumnCount(kept) <= 64 && ColumnKept(c, entries, name, value)
  {
    ReadsIff(c, columns, uuid, existing);
    if ReadUuids(c, Merge(c, columns, uuid, existing)).Some? {
      KeptReads(c, columns, uuid, existing, name, value);
    }
  }

  /** Reading the merged options panics exactly on an unreadable survivor or on too many columns. */
  lemma {:induction false} ReadsIff(c: Strings, columns: seq<ColumnUuid>, uuid: Text, existing: seq<SqlOption>)
    requires FoldsOneWay(c) && Fits(uuid) && forall e :: e in columns ==> Fits(e.uuid)
    ensures var kept := Survivors(c.upper, Entries(c, columns, uuid, existing));
            ReadUuids(c, Merge(c, columns, uuid, existing)).Some? <==>
            AllReadable(kept) && ColumnCount(kept) <= 64
  {
    var m, kept := Merge(c, columns, uuid, existing), Survivors(c.upper, Entries(c, columns, uuid, existing));
    MergeSortsSurvivors(c, columns, uuid, existing);
    SortKeeps(c.upper, kept);
    ReadColumnsOkIff(m);
    assert AllReadable(m) <==> AllReadable(kept);
    ReadTableOfMerge(c, columns, uuid, existing);
  }

  lemma {:induction false} SurvivorsAmong(u: Fold, s: seq<SqlOption>)
    ensures |Survivors(u, s)| <= |s| && ColumnCount(Survivors(u, s)) <= |s|
    ensures forall o :: o in Survivors(u, s) ==> o in s
    decreases |s|
  {
    if s != [] {
      var before, o := s[..|s| - 1], s[|s| - 1];
      assert s == before + [o];
      SurvivorsAmong(u, before);
      SurvivorsSnoc(u, before, o);
      ColumnCountAppend(Survivors(u, before), [o]);
    }
  }

  /** A few readable entries can always be read. */
  lemma {:induction false} FewReadable(c: Strings, columns: seq<ColumnUuid>, uuid: Text, existing: seq<SqlOption>)
    requires FoldsOneWay(c) && Fits(uuid) && forall e :: e in columns ==> Fits(e.uuid)
    requires var entries := Entries(c, columns, uuid, existing); AllReadable(entries) && |entries| <= MAX_COLUMNS
    ensures ReadUuids(c, Merge(c, columns, uuid, existing)).Some?
  {
    SurvivorsAmong(c.upper, Entries(c, columns, uuid, existing));
    ReadsIff(c, columns, uuid, existing);
  }

  lemma {:induction false} KeptReads(c: Strings, columns: seq<ColumnUuid>, uuid: Text, existing: seq<SqlOption>,
      name: Text, value: Text)
    requires ReadUuids(c, Merge(c, columns, uuid, existing)).Some?
    ensures ColumnUuid(name, value) in ReadUuids(c, Merge(c, columns, uuid, existing)).value.1
       <==> ColumnKept(c, Entries(c, columns, uuid, existing), name, value)
  {
    ColumnsReadIff(c, columns, uuid, existing, name, value);
    SurvivesIff(c.upper, Entries(c, columns, uuid, existing), SqlOption(OptionName(name), value));
  }

  lemma {:induction false} OneColumn(c: Strings, column: ColumnUuid)
    requires c.isUtf8(column.name) && c.isUtf8(column.uuid)
    ensures ColumnEntries(c, [column]) == [SqlOption(column.name, column.uuid)]
  {
    assert [column][..0] == [];
  }

  lemma {:induction false} TableReadable(uuid: Text)
    ensures Readable(SqlOption(TABLE_UUID, uuid))
  {
    assert TABLE_UUID[0] != COLUMN_PREFIX[0];
  }

  lemma {:induction false} AffixedReadable(name: Text, value: Text)
    requires Fits(name) && Fits(value)
    ensures Readable(SqlOption(OptionName(name), value))
  {
    ExtractIff(OptionName(name), name);
  }

  /** A column supplied under its plain name is lost, unless its name folds like its own option. */
  lemma {:induction false} PlainColumnLost(c: Strings, name: Text, value: Text, uuid: Text)
    requires FoldsOneWay(c) && Fits(value) && Fits(uuid) && c.isUtf8(name) && c.isUtf8(value)
    requires ExtractColumnName(name).NoMatch?
    requires c.upper(name) != c.upper(OptionName(name)) && c.upper(TABLE_UUID) != c.upper(OptionName(name))
    ensures var r := ReadUuids(c, Merge(c, [ColumnUuid(name, value)], uuid, []));
            r.Some? && ColumnUuid(name, value) !in r.value.1
  {
    var columns, o, table := [ColumnUuid(name, value)], SqlOption(name, value), SqlOption(TABLE_UUID, uuid);
    OneColumn(c, columns[0]);
    TableReadable(uuid);
    assert Entries(c, columns, uuid, []) == [] + [o] + [table];
    FewReadable(c, columns, uuid, []);
    ByKeySnoc(c.upper, [], o, c.upper(OptionName(name)));
    ByKeySnoc(c.upper, [] + [o], table, c.upper(OptionName(name)));
    KeptReads(c, columns, uuid, [], name, value);
  }

  /** A column supplied under its affixed name is read back, under the plain name. */
  lemma {:induction false} AffixedColumnReadsBack(c: Strings, name: Text, value: Text, uuid: Text)
    requires FoldsOneWay(c) && Fits(OptionName(name)) && Fits(value) && Fits(uuid)
    requires c.isUtf8(OptionName(name)) && c.isUtf8(value)
    ensures var r := ReadUuids(c, Merge(c, [ColumnUuid(OptionName(name), value)], uuid, []));
            r.Some? && ColumnUuid(name, value) in r.value.1
  {
    var columns, o := [ColumnUuid(OptionName(name), value)], SqlOption(OptionName(name), value);
    var table := SqlOption(TABLE_UUID, uuid);
    OneColumn(c, columns[0]);
    TableReadable(uuid);
    AffixedReadable(name, value);
    assert Entries(c, columns, uuid, []) == [] + [o] + [table];
    FewReadable(c, columns, uuid, []);
    ByKeySnoc(c.upper, [], o, c.upper(OptionName(name)));
    ByKeySnoc(c.upper, [] + [o], table, c.upper(OptionName(name)));
    assert ByKey(c.upper, [] + [o], c.upper(OptionName(name))) == [o];
    assert FirstOf(ByKey(c.upper, [] + [o] + [table], c.upper(OptionName(name)))) == [o];
    KeptReads(c, columns, uuid, [], name, value);
  }

  /** A plain column is read back after all when the statement already has its affixed option with the same UUID. */
  lemma {:induction false} OptionKeepsColumn(c: Strings, name: Text, value: Text, uuid: Text)
    requires FoldsOneWay(c) && Fits(name) && Fits(value) && Fits(uuid) && c.isUtf8(name) && c.isUtf8(value)
    requires ExtractColumnName(name).NoMatch?
    requires c.upper(name) != c.upper(OptionName(name)) && c.upper(TABLE_UUID) != c.upper(OptionName(name))
    ensures var r := ReadUuids(c, Merge(c, [ColumnUuid(name, value)], uuid, [SqlOption(OptionName(name), value)]));
            r.Some? && ColumnUuid(name, value) in r.value.1
  {
    var columns, o, table := [ColumnUuid(name, value)], SqlOption(name, value), SqlOption(TABLE_UUID, uuid);
    var own := SqlOption(OptionName(name), value);
    OneColumn(c, columns[0]);
    TableReadable(uuid);
    AffixedReadable(name, value);
    assert Entries(c, columns, uuid, [own]) == [] + [o] + [table] + [own];
    FewReadable(c, columns, uuid, [own]);
    ByKeySnoc(c.upper, [], o, c.upper(OptionName(name)));
    ByKeySnoc(c.upper, [] + [o], table, c.upper(OptionName(name)));
    ByKeySnoc(c.upper, [] + [o] + [table], own, c.upper(OptionName(name)));
    assert [] + [own] == [own];
    KeptReads(c, columns, uuid, [own], name, value);
  }

  // ----- Two inputs that do not read back -----

  /** An option named "column_uuid" makes the reader panic, although the table UUID's own entry is in place. */
  lemma {:induction false} ColumnUuidOptionPanics(c: Strings, uuid: Text, value: Text)
    requires FoldsOneWay(c) && Fits(uuid) && c.upper(COLUMN_PREFIX + UUID_SUFFIX[1..]) != c.upper(TABLE_UUID)
    ensures var m := Merge(c, [], uuid, [SqlOption(COLUMN_PREFIX + UUID_SUFFIX[1..], value)]);
            ReadTable(c, m) == Some(uuid) && ReadUuids(c, m) == None
  {
    var table, o := SqlOption(TABLE_UUID, uuid), SqlOption(COLUMN_PREFIX + UUID_SUFFIX[1..], value);
    var entries := Entries(c, [], uuid, [o]);
    assert entries == [table, o] && entries[..1] == [table] && [table] == [] + [table];
    ReadTableOfMerge(c, [], uuid, [o]);
    TableUuidReadsBackIff(c, [], uuid, [o]);
    ByKeySnoc(c.upper, [], table, Key(c.upper, o));
    assert ByKey(c.upper, entries[..1], Key(c.upper, o)) == [];
    ExtractIff(o.name, []);
    assert o in Survivors(c.upper, entries) && !Readable(o);
  }

  function UpperByte(b: Byte): Byte {
    if 97 <= b <= 122 then b - 32 else b
  }

  function LowerByte(b: Byte): Byte {
    if 65 <= b <= 90 then b + 32 else b
  }

  const DOTLESS_I: Text := [0xC4, 0xB1]

  /** Upper case for ASCII and the dotless i, which becomes an ASCII I. */
  function Upper(t: Text): Text
    decreases |t|
  {
    if t == [] then []
    else if DOTLESS_I <= t then [73] + Upper(t[2..])
    else [UpperByte(t[0])] + Upper(t[1..])
  }

  /** Lower case for ASCII and the dotless i, which stays. */
  function Lower(t: Text): (r: Text)
    ensures |r| == |t| && forall i :: 0 <= i < |t| ==> r[i] == LowerByte(t[i])
  {
    seq(|t|, i requires 0 <= i < |t| => LowerByte(t[i]))
  }

  lemma {:induction false} UpperOfVariant(t: Text, s: Text)
    requires |t| == |s| && forall i :: 0 <= i < |t| ==> LowerByte(t[i]) == s[i] < 128
    ensures Upper(t) == Upper(s)
    decreases |t|
  {
    if t != [] {
      var t', s' := t[1..], s[1..];
      assert LowerByte(t[0]) == s[0] && t[0] != 0xC4 && s[0] != 0xC4;
      assert forall i :: 0 <= i < |t'| ==> t'[i] == t[i + 1] && s'[i] == s[i + 1];
      UpperOfVariant(t', s');
    }
  }

  lemma {:induction false} LatinFoldsOneWay(isUtf8: Text -> bool)
    ensures FoldsOneWay(Strings(Upper, Lower, isUtf8))
  {
    forall name | Lower(name) == TABLE_UUID_LOWER ensures Upper(name) == Upper(TABLE_UUID) {
      forall i | 0 <= i < |name| ensures LowerByte(name[i]) == TABLE_UUID_LOWER[i] < 128 {
        assert Lower(name)[i] == TABLE_UUID_LOWER[i];
      }
      UpperOfVariant(name, TABLE_UUID_LOWER);
      UpperOfTable();
    }
  }

  /** "table_uu", a dotless i, "d". */
  const DOTLESS_NAME: Text := NAME_START + (DOTLESS_I + NAME_END)
  const NAME_START: Text := [116, 97, 98, 108, 101, 95, 117, 117]
  const NAME_END: Text := [100]

  /** A single option that neither reader recognises gives the empty defaults. */
  lemma {:induction false} ReadLone(c: Strings, o: SqlOption)
    requires c.lower(o.name) != TABLE_UUID_LOWER && ExtractColumnName(o.name).NoMatch?
    ensures ReadUuids(c, [o]) == Some(([], []))
  {
    assert [o][..|[o]| - 1] == [];
    assert ReadColumns([]) == Some([]) && ReadTable(c, []) == Some([]);
    assert ReadColumns([o]) == Some([]);
    assert ReadTable(c, [o]) == Some([]);
  }

  /** A column whose name only upper-cases to the table UUID's takes its place, even with the same UUID, and the
      reader then finds no UUID at all. */
  lemma {:induction false} HiddenByColumn(c: Strings, name: Text, uuid: Text)
    requires c.isUtf8(name) && c.isUtf8(uuid)
    requires c.upper(name) == c.upper(TABLE_UUID) && c.lower(name) != TABLE_UUID_LOWER
       && ExtractColumnName(name).NoMatch?
    ensures var m := Merge(c, [ColumnUuid(name, uuid)], uuid, []);
            m == [SqlOption(name, uuid)] && ReadUuids(c, m) == Some(([], []))
  {
    var columns, o, table := [ColumnUuid(name, uuid)], SqlOption(name, uuid), SqlOption(TABLE_UUID, uuid);
    assert columns[..0] == [];
    assert ColumnEntries(c, columns) == [] + [o];
    assert Entries(c, columns, uuid, []) == [] + [o] + [table];
    ByKeySnoc(c.upper, [], o, Key(c.upper, table));
    SurvivorsSnoc(c.upper, [], o);
    SurvivorsSnoc(c.upper, [] + [o], table);
    MergeSortsSurvivors(c, columns, uuid, []);
    assert [o][..0] == [] && StableSort(c.upper, []) == [];
    assert StableSort(c.upper, [o]) == [o];
    ReadLone(c, o);
  }

  lemma {:induction false} DotlessUnknown()
    ensures Lower(DOTLESS_NAME) != TABLE_UUID_LOWER && ExtractColumnName(DOTLESS_NAME).NoMatch?
  {
    assert |Lower(DOTLESS_NAME)| == 11 && |TABLE_UUID_LOWER| == 10;
    assert DOTLESS_NAME[0] == 116;
  }

  /** Such a name under the Unicode mappings: the dotless i upper-cases to I and lower-cases to itself. */
  lemma {:induction false} DotlessColumnHidesTable(isUtf8: Text -> bool, uuid: Text)
    requires Fits(uuid) && uuid != [] && isUtf8(uuid) && isUtf8(DOTLESS_NAME)
    ensures var c := Strings(Upper, Lower, isUtf8);
            FoldsOneWay(c) && ReadUuids(c, Merge(c, [ColumnUuid(DOTLESS_NAME, uuid)], uuid, [])) == Some(([], []))
  {
    LatinFoldsOneWay(isUtf8);
    UpperOfDotless();
    DotlessUnknown();
    HiddenByColumn(Strings(Upper, Lower, isUtf8), DOTLESS_NAME, uuid);
  }

  lemma {:induction false} UpperSplit(a: Text, b: Text)
    requires forall i :: 0 <= i < |a| ==> a[i] < 128
    ensures Upper(a + b) == Upper(a) + Upper(b)
    decreases |a|
  {
    if a == [] {
      assert a + b == b;
    } else {
      assert (a + b)[1..] == a[1..] + b;
      assert (a + b)[0] != 0xC4;
      UpperSplit(a[1..], b);
    }
  }

  /** After ASCII text a dotless i upper-cases like an i. */
  lemma {:induction false} DotlessLikeI(a: Text, z: Text)
    requires forall i :: 0 <= i < |a| ==> a[i] < 128
    ensures Upper(a + (DOTLESS_I + z)) == Upper(a + ([105] + z))
  {
    UpperSplit(a, DOTLESS_I + z);
    UpperSplit(a, [105] + z);
    assert Upper(DOTLESS_I + z) == [73] + Upper(z) by { assert (DOTLESS_I + z)[2..] == z; }
    assert Upper([105] + z) == [73] + Upper(z) by { assert ([105] + z)[1..] == z; }
  }

  lemma {:induction false} UpperOfDotless()
    ensures Upper(DOTLESS_NAME) == Upper(TABLE_UUID)
  {
    assert Upper(NAME_START + (DOTLESS_I + NAME_END)) == Upper(NAME_START + ([105] + NAME_END)) by {
      NameAscii();
      DotlessLikeI(NAME_START, NAME_END);
    }
    NameParts();
    UpperOfTable();
  }

  lemma {:induction false} NameAscii()
    ensures forall i :: 0 <= i < |NAME_START| ==> NAME_START[i] < 128
  {
  }

  lemma {:induction false} NameParts()
    ensures NAME_START + ([105] + NAME_END) == TABLE_UUID_LOWER
  {
  }

  lemma {:induction false} UpperOfTable()
    ensures Upper(TABLE_UUID) == Upper(TABLE_UUID_LOWER)
  {
    UpperOfVariant(TABLE_UUID, TABLE_UUID_LOWER);
  }

  /** For a column named "x" the plain name is lost and the affixed one is read back as "x". */
  lemma {:induction false} ColumnX(isUtf8: Text -> bool, value: Text, uuid: Text)
    requires Fits(value) && Fits(uuid) && isUtf8([120]) && isUtf8(OptionName([120])) && isUtf8(value)
    ensures var c := Strings(Upper, Lower, isUtf8);
            var plain := ReadUuids(c, Merge(c, [ColumnUuid([120], value)], uuid, []));
            var affixed := ReadUuids(c, Merge(c, [ColumnUuid(OptionName([120]), value)], uuid, []));
            && plain.Some? && ColumnUuid([120], value) !in plain.value.1
            && affixed.Some? && ColumnUuid([120], value) in affixed.value.1
  {
    var c := Strings(Upper, Lower, isUtf8);
    LatinFoldsOneWay(isUtf8);
    UpperStarts([120]);
    UpperStarts(OptionName([120]));
    UpperStarts(TABLE_UUID);
    PlainColumnLost(c, [120], value, uuid);
    AffixedColumnReadsBack(c, [120], value, uuid);
  }

  lemma {:induction false} UpperStarts(t: Text)
    requires t != [] && t[0] < 128
    ensures Upper(t) != [] && Upper(t)[0] == UpperByte(t[0])
  {
  }
}
