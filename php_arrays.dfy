/**
 * PHP values and PHP's ordered arrays. An array is a sequence of entries
 * with unique keys; its order is insertion order. The operations are the
 * ones the core uses: `$a[$k] = $v`, `$a[] = $v`, `array_replace` and
 * `array_merge`.
 */
module PhpArrays {
  import opened Wrappers
  import opened PhpStrings

  datatype Key = IntKey(i: int) | StrKey(s: string)

  /** The PHP values the core inspects (floats and objects are not modelled). */
  datatype Value = Null | Bool(b: bool) | Int(n: int) | Str(s: string) | Arr(entries: seq<Entry>)

  datatype Entry = Entry(key: Key, val: Value)

  type PArray = seq<Entry>

  function Max(x: int, y: int): int { if x < y then y else x }

  /** PHP's `empty()`: null, false, 0, "", "0" and the empty array. */
  predicate IsEmpty(v: Value)
    ensures IsEmpty(v) <==>
      v == Null || v == Bool(false) || v == Int(0) || v == Str("") || v == Str("0") || v == Arr([])
  {
    match v
    case Null => true
    case Bool(b) => !b
    case Int(n) => n == 0
    case Str(s) => s == "" || s == "0"
    case Arr(e) => e == []
  }

  /** The values of an array, in order (what `foreach ($a as $v)` visits). */
  function Values(a: PArray): (r: seq<Value>)
    ensures |r| == |a| && forall i :: 0 <= i < |a| ==> r[i] == a[i].val
  {
    seq(|a|, i requires 0 <= i < |a| => a[i].val)
  }

  // ---------------------------------------------------------------- keys

  /** The key PHP stores for a string offset: canonical integer strings become integers. */
  function KeyOf(s: string): (k: Key)
    ensures k.IntKey? <==> IsCanonicalNat(s) || IsCanonicalNegative(s)
    ensures k.StrKey? ==> k.s == s
    ensures k.IntKey? && IsCanonicalNat(s) ==> k.i >= 0
    ensures k.IntKey? && !IsCanonicalNat(s) ==> k.i < 0
  {
    if IsCanonicalNat(s) then IntKey(DigitsValue(s))
    else if IsCanonicalNegative(s) then
      PositiveDigits(s[1..]);
      IntKey(-(DigitsValue(s[1..]) as int))
    else StrKey(s)
  }

  /** The string PHP converts a key to (e.g. when it is the subject of a regular expression). */
  function KeyString(k: Key): string {
    match k
    case IntKey(i) => if i < 0 then "-" + Dec(-i) else Dec(i)
    case StrKey(s) => s
  }

  /** A key PHP can actually hold: string keys are never canonical integer strings. */
  predicate NormalKey(k: Key) {
    k.StrKey? ==> !IsCanonicalNat(k.s) && !IsCanonicalNegative(k.s)
  }

  lemma KeyStringRoundTrip(k: Key)
    requires NormalKey(k)
    ensures KeyOf(KeyString(k)) == k
  {
    match k
    case IntKey(i) =>
      if i < 0 {
        var s := "-" + Dec(-i);
        assert s[1..] == Dec(-i);
        DecRoundTrip(-i);
      } else {
        DecRoundTrip(i);
      }
    case StrKey(_) =>
  }

  lemma KeyOfRoundTrip(s: string)
    ensures NormalKey(KeyOf(s)) && KeyString(KeyOf(s)) == s
  {
    if IsCanonicalNat(s) {
      CanonicalIsDec(s);
    } else if IsCanonicalNegative(s) {
      PositiveDigits(s[1..]);
      CanonicalIsDec(s[1..]);
      assert s == "-" + s[1..];
    }
  }

  /** A key made of a non-empty name, a dash and a number is always a string key. */
  lemma DashedKeyIsString(name: string, n: nat)
    requires name != ""
    ensures KeyOf(name + "-" + Dec(n)) == StrKey(name + "-" + Dec(n))
  {
    var s := name + "-" + Dec(n);
    assert s[|name|] == '-' && !IsDigit(s[|name|]);
    assert s[1..][|name| - 1] == '-';
  }

  // ---------------------------------------------------------------- lookup

  /** The keys of an array. */
  function KeySet(a: PArray): (ks: set<Key>)
    ensures forall i :: 0 <= i < |a| ==> a[i].key in ks
  {
    if a == [] then {} else {a[0].key} + KeySet(a[1..])
  }

  /** Every key of an array belongs to one of its entries. */
  lemma {:induction false} KeySetWitness(a: PArray, k: Key)
    requires k in KeySet(a)
    ensures exists i :: 0 <= i < |a| && a[i].key == k
    decreases |a|
  {
    if a[0].key != k {
      KeySetWitness(a[1..], k);
      var j :| 0 <= j < |a[1..]| && a[1..][j].key == k;
      assert a[j + 1].key == k;
    }
  }

  /** `$a[$k]`, or None when `$k` is not a key of `$a`. */
  function Lookup(a: PArray, k: Key): (r: Option<Value>)
    ensures r.Some? <==> k in KeySet(a)
    ensures r.Some? ==> Entry(k, r.value) in a
  {
    if a == [] then None
    else if a[0].key == k then Some(a[0].val)
    else Lookup(a[1..], k)
  }

  predicate Unique(a: PArray) {
    forall i, j :: 0 <= i < j < |a| ==> a[i].key != a[j].key
  }

  lemma UniqueCons(e: Entry, a: PArray)
    requires Unique(a) && e.key !in KeySet(a)
    ensures Unique([e] + a)
  {
    var b := [e] + a;
    forall i, j | 0 <= i < j < |b| ensures b[i].key != b[j].key {
      if i == 0 { assert b[j] == a[j - 1]; }
    }
  }

  lemma UniqueTail(a: PArray)
    requires Unique(a) && a != []
    ensures Unique(a[1..]) && a[0].key !in KeySet(a[1..])
  {
    forall j | 0 <= j < |a| - 1 ensures a[1..][j].key != a[0].key {
      assert a[1..][j] == a[j + 1];
    }
    if a[0].key in KeySet(a[1..]) {
      KeySetWitness(a[1..], a[0].key);
    }
  }

  /** In an array with unique keys, no entry's key occurs before it. */
  lemma UniquePrefix(a: PArray, i: int)
    requires Unique(a) && 0 <= i < |a|
    ensures a[i].key !in KeySet(a[..i])
  {
    forall j | 0 <= j < i ensures a[..i][j].key != a[i].key {
      assert a[..i][j] == a[j];
    }
    if a[i].key in KeySet(a[..i]) {
      KeySetWitness(a[..i], a[i].key);
    }
  }

  /** In an array with unique keys, every entry is what its key looks up. */
  lemma {:induction false} LookupAt(a: PArray, i: int)
    requires Unique(a) && 0 <= i < |a|
    ensures Lookup(a, a[i].key) == Some(a[i].val)
    decreases |a|
  {
    if i > 0 {
      UniqueTail(a);
      assert a[1..][i - 1] == a[i];
      LookupAt(a[1..], i - 1);
    }
  }

  lemma {:induction false} LookupAppend(a: PArray, e: Entry, k: Key)
    ensures Lookup(a + [e], k) ==
      if k in KeySet(a) then Lookup(a, k) else if e.key == k then Some(e.val) else None
    ensures KeySet(a + [e]) == KeySet(a) + {e.key}
    decreases |a|
  {
    if a != [] {
      assert (a + [e])[1..] == a[1..] + [e];
      LookupAppend(a[1..], e, k);
    }
  }

  // ---------------------------------------------------------------- $a[$k] = $v

  /** `$a[$k] = $v`: replace the value of a present key in place, or append. */
  function Assign(a: PArray, k: Key, v: Value): (r: PArray)
    ensures k !in KeySet(a) ==> r == a + [Entry(k, v)]
    ensures k in KeySet(a) ==> |r| == |a|
    ensures |r| >= |a|
    ensures forall i :: 0 <= i < |a| ==> r[i].key == a[i].key
    ensures forall i :: 0 <= i < |a| && a[i].key != k ==> r[i] == a[i]
    ensures KeySet(r) == KeySet(a) + {k}
  {
    if a == [] then [Entry(k, v)]
    else if a[0].key == k then
      var r := [Entry(k, v)] + a[1..];
      assert r[1..] == a[1..];
      r
    else
      var rest := Assign(a[1..], k, v);
      var r := [a[0]] + rest;
      assert r[1..] == rest;
      r
  }

  /** After `$a[$k] = $v`, `$k` holds `$v` and every other key holds what it held. */
  lemma {:induction false} AssignLookup(a: PArray, k: Key, v: Value, k': Key)
    ensures Lookup(Assign(a, k, v), k') == if k' == k then Some(v) else Lookup(a, k')
    decreases |a|
  {
    if a != [] && a[0].key != k {
      var r := Assign(a, k, v);
      assert r[1..] == Assign(a[1..], k, v);
      AssignLookup(a[1..], k, v, k');
    }
  }

  /** `$a[$k] = $v` keeps the keys of an array unique. */
  lemma {:induction false} AssignUnique(a: PArray, k: Key, v: Value)
    requires Unique(a)
    ensures Unique(Assign(a, k, v))
    decreases |a|
  {
    var r := Assign(a, k, v);
    if a == [] {
    } else if a[0].key == k {
      forall i, j | 0 <= i < j < |r| ensures r[i].key != r[j].key {
        assert r[i].key == a[i].key && r[j].key == a[j].key;
      }
    } else {
      UniqueTail(a);
      AssignUnique(a[1..], k, v);
      assert r == [a[0]] + Assign(a[1..], k, v);
      UniqueCons(a[0], Assign(a[1..], k, v));
    }
  }

  // ---------------------------------------------------------------- $a[] = $v

  /**
   * The integer key `$a[] = $v` uses: one more than the largest integer key,
   * and 0 when there is none or all are negative (PHP before 8.3).
   */
  function NextIndex(a: PArray): (n: int)
    ensures n >= 0
    ensures forall i :: 0 <= i < |a| && a[i].key.IntKey? ==> a[i].key.i < n
    ensures n == 0 || IntKey(n - 1) in KeySet(a)
  {
    if a == [] then 0
    else Max(NextIndex(a[1..]), if a[0].key.IntKey? then a[0].key.i + 1 else 0)
  }

  /** `$a[] = $v`: append under a fresh integer key. */
  function Push(a: PArray, v: Value): (r: PArray)
    ensures IntKey(NextIndex(a)) !in KeySet(a)
    ensures KeySet(r) == KeySet(a) + {IntKey(NextIndex(a))}
    ensures Lookup(r, IntKey(NextIndex(a))) == Some(v)
    ensures forall k :: k != IntKey(NextIndex(a)) ==> Lookup(r, k) == Lookup(a, k)
    ensures Unique(a) ==> Unique(r)
  {
    var e := Entry(IntKey(NextIndex(a)), v);
    forall k ensures Lookup(a + [e], k) ==
      if k in KeySet(a) then Lookup(a, k) else if e.key == k then Some(e.val) else None
    {
      LookupAppend(a, e, k);
    }
    a + [e]
  }

  lemma SetAddPresent<T>(s: set<T>, x: T)
    requires x in s
    ensures s + {x} == s
  {
  }

  lemma SliceCons<T>(s: seq<T>, i: int)
    requires 0 <= i < |s|
    ensures s[i..] == [s[i]] + s[i + 1..]
  {
  }

  // ---------------------------------------------------------------- array_replace

  /** `array_replace($a, $b)`: `$a[$k] = $v` for every entry of `$b`, in order. */
  function ArrayReplace(a: PArray, b: PArray): (r: PArray)
    ensures |r| >= |a|
    ensures forall i :: 0 <= i < |a| ==> r[i].key == a[i].key
    ensures forall i :: 0 <= i < |a| && a[i].key !in KeySet(b) ==> r[i] == a[i]
    ensures KeySet(r) == KeySet(a) + KeySet(b)
    decreases |b|
  {
    if b == [] then a
    else ArrayReplace(Assign(a, b[0].key, b[0].val), b[1..])
  }

  /** The entries of `b` whose keys are not in `ks`, in order. */
  function Absent(b: PArray, ks: set<Key>): (r: PArray)
    ensures |r| <= |b|
  {
    if b == [] then []
    else (if b[0].key in ks then [] else [b[0]]) + Absent(b[1..], ks)
  }

  lemma {:induction false} AbsentIgnores(b: PArray, ks: set<Key>, k: Key)
    requires k !in KeySet(b)
    ensures Absent(b, ks + {k}) == Absent(b, ks)
    decreases |b|
  {
    if b != [] {
      AbsentIgnores(b[1..], ks, k);
    }
  }

  lemma {:induction false} ArrayReplaceUnique(a: PArray, b: PArray)
    requires Unique(a)
    ensures Unique(ArrayReplace(a, b))
    decreases |b|
  {
    if b != [] {
      AssignUnique(a, b[0].key, b[0].val);
      ArrayReplaceUnique(Assign(a, b[0].key, b[0].val), b[1..]);
    }
  }

  /** After `array_replace($a, $b)`, a key of `$b` holds `$b`'s value; any other key holds `$a`'s. */
  lemma {:induction false} ArrayReplaceLookup(a: PArray, b: PArray, k: Key)
    requires Unique(b)
    ensures Lookup(ArrayReplace(a, b), k) == if k in KeySet(b) then Lookup(b, k) else Lookup(a, k)
    decreases |b|
  {
    if b != [] {
      UniqueTail(b);
      AssignLookup(a, b[0].key, b[0].val, k);
      ArrayReplaceLookup(Assign(a, b[0].key, b[0].val), b[1..], k);
    }
  }

  /** `array_replace($a, $b)` appends exactly the entries of `$b` whose keys `$a` lacks, in `$b`'s order. */
  lemma {:induction false} ArrayReplaceAppends(a: PArray, b: PArray)
    requires Unique(b)
    ensures ArrayReplace(a, b)[|a|..] == Absent(b, KeySet(a))
    decreases |b|
  {
    if b != [] {
      UniqueTail(b);
      var a' := Assign(a, b[0].key, b[0].val);
      ArrayReplaceAppends(a', b[1..]);
      if b[0].key in KeySet(a) {
        ReplaceStepPresent(a, b);
      } else {
        ReplaceStepAbsent(a, b);
      }
    }
  }

  lemma ReplaceStepPresent(a: PArray, b: PArray)
    requires b != [] && b[0].key in KeySet(a)
    requires var a' := Assign(a, b[0].key, b[0].val);
      ArrayReplace(a', b[1..])[|a'|..] == Absent(b[1..], KeySet(a'))
    ensures ArrayReplace(a, b)[|a|..] == Absent(b, KeySet(a))
  {
    var a' := Assign(a, b[0].key, b[0].val);
    var r := ArrayReplace(a', b[1..]);
    var ks := KeySet(a);
    var tail := Absent(b[1..], ks);
    AssignPresent(a, b[0].key, b[0].val);
    assert r[|a|..] == tail;
    ReplaceUnfold(a, b);
    AbsentSkip(b, ks);
  }

  lemma AbsentSkip(b: PArray, ks: set<Key>)
    requires b != [] && b[0].key in ks
    ensures Absent(b, ks) == Absent(b[1..], ks)
  {
    assert Absent(b, ks) == [] + Absent(b[1..], ks);
  }

  lemma ReplaceUnfold(a: PArray, b: PArray)
    requires b != []
    ensures ArrayReplace(a, b) == ArrayReplace(Assign(a, b[0].key, b[0].val), b[1..])
  {
  }

  lemma AssignPresent(a: PArray, k: Key, v: Value)
    requires k in KeySet(a)
    ensures KeySet(Assign(a, k, v)) == KeySet(a) && |Assign(a, k, v)| == |a|
  {
    SetAddPresent(KeySet(a), k);
  }

  lemma ReplaceStepAbsent(a: PArray, b: PArray)
    requires b != [] && b[0].key !in KeySet(a) && b[0].key !in KeySet(b[1..])
    requires var a' := Assign(a, b[0].key, b[0].val);
      ArrayReplace(a', b[1..])[|a'|..] == Absent(b[1..], KeySet(a'))
    ensures ArrayReplace(a, b)[|a|..] == Absent(b, KeySet(a))
  {
    var a' := Assign(a, b[0].key, b[0].val);
    var r := ArrayReplace(a', b[1..]);
    assert ArrayReplace(a, b) == r;
    var ks := KeySet(a);
    assert Absent(b, ks) == [b[0]] + Absent(b[1..], ks);
    assert a' == a + [b[0]];
    AbsentIgnores(b[1..], ks, b[0].key);
    assert a'[|a|].key !in KeySet(b[1..]);
    assert r[|a|] == b[0];
    assert |a'| == |a| + 1 && |r| >= |a'|;
    SliceCons(r, |a|);
  }

  // ---------------------------------------------------------------- array_merge

  /** One step of `array_merge`: integer keys are appended afresh, string keys assigned. */
  function Put(acc: PArray, e: Entry): PArray {
    if e.key.IntKey? then Push(acc, e.val) else Assign(acc, e.key, e.val)
  }

  function MergeInto(acc: PArray, b: PArray): (r: PArray)
    ensures |acc| <= |r| <= |acc| + |b|
    ensures forall i :: 0 <= i < |acc| ==> r[i].key == acc[i].key
    decreases |b|
  {
    if b == [] then acc else MergeInto(Put(acc, b[0]), b[1..])
  }

  /** `array_merge($a, $b)`. */
  function ArrayMerge(a: PArray, b: PArray): (r: PArray)
    ensures |r| <= |a| + |b|
    ensures Counting(IntKeysOf(r))
    ensures |IntKeysOf(r)| == |IntKeysOf(a)| + |IntKeysOf(b)|
  {
    MergeIntoInts([], a);
    MergeIntoInts(MergeInto([], a), b);
    MergeInto(MergeInto([], a), b)
  }

  /** The integer keys of an array, in order. */
  function IntKeysOf(a: PArray): seq<int> {
    if a == [] then []
    else (if a[0].key.IntKey? then [a[0].key.i] else []) + IntKeysOf(a[1..])
  }

  /** The values stored under integer keys, in order. */
  function IntValues(a: PArray): (r: seq<Value>)
    ensures |r| == |IntKeysOf(a)|
  {
    if a == [] then []
    else (if a[0].key.IntKey? then [a[0].val] else []) + IntValues(a[1..])
  }

  /** The sequence is 0, 1, ..., |s| - 1. */
  predicate Counting(s: seq<int>) {
    forall j :: 0 <= j < |s| ==> s[j] == j
  }

  /** `a` with its integer keys replaced by n, n + 1, ... in order; string keys kept. */
  function Renumber(a: PArray, n: int): (r: PArray)
    ensures |r| == |a|
    ensures forall i :: 0 <= i < |a| ==> r[i].val == a[i].val && r[i].key.IntKey? == a[i].key.IntKey?
    ensures forall i :: 0 <= i < |a| && a[i].key.StrKey? ==> r[i].key == a[i].key
    decreases |a|
  {
    if a == [] then []
    else [Renumbered(a[0], n)] + Renumber(a[1..], n + IntCount(a[0]))
  }

  /** An entry under the next list index n if its key is an integer; a string-keyed one as is. */
  function Renumbered(e: Entry, n: int): Entry {
    if e.key.IntKey? then Entry(IntKey(n), e.val) else e
  }

  /** How many list indices an entry takes up. */
  function IntCount(e: Entry): nat {
    if e.key.IntKey? then 1 else 0
  }

  lemma {:induction false} IntProjectionsAppend(a: PArray, e: Entry)
    ensures IntKeysOf(a + [e]) == IntKeysOf(a) + IntKeysOf([e])
    ensures IntValues(a + [e]) == IntValues(a) + IntValues([e])
    decreases |a|
  {
    if a != [] {
      assert (a + [e])[1..] == a[1..] + [e];
      IntProjectionsAppend(a[1..], e);
    }
  }

  /** Assigning a string key leaves the integer-keyed entries alone. */
  lemma {:induction false} AssignStringKeepsInts(a: PArray, k: Key, v: Value)
    requires k.StrKey?
    ensures IntKeysOf(Assign(a, k, v)) == IntKeysOf(a)
    ensures IntValues(Assign(a, k, v)) == IntValues(a)
    decreases |a|
  {
    if a == [] {
    } else if a[0].key == k {
      assert Assign(a, k, v)[1..] == a[1..];
    } else {
      var r := Assign(a, k, v);
      assert r[1..] == Assign(a[1..], k, v);
      AssignStringKeepsInts(a[1..], k, v);
    }
  }

  lemma {:induction false} IntKeysMember(a: PArray, j: int)
    ensures j in IntKeysOf(a) <==> IntKey(j) in KeySet(a)
    decreases |a|
  {
    if a != [] {
      IntKeysMember(a[1..], j);
    }
  }

  /** When the integer keys are 0 .. n - 1, `$a[] = ` uses n. */
  lemma NextIndexOfRange(a: PArray)
    requires Counting(IntKeysOf(a))
    ensures NextIndex(a) == |IntKeysOf(a)|
  {
    var n, m := NextIndex(a), |IntKeysOf(a)|;
    if m > 0 {
      assert IntKeysOf(a)[m - 1] == m - 1;
      IntKeysMember(a, m - 1);
      KeySetWitness(a, IntKey(m - 1));
    }
    if n > 0 {
      IntKeysMember(a, n - 1);
      var j :| 0 <= j < m && IntKeysOf(a)[j] == n - 1;
    }
  }

  lemma IntProjectionsSingle(e: Entry)
    ensures IntKeysOf([e]) == if e.key.IntKey? then [e.key.i] else []
    ensures IntValues([e]) == if e.key.IntKey? then [e.val] else []
  {
    assert [e][1..] == [];
  }

  lemma PutInts(acc: PArray, e: Entry)
    requires Counting(IntKeysOf(acc))
    ensures Counting(IntKeysOf(Put(acc, e)))
    ensures |IntKeysOf(Put(acc, e))| == |IntKeysOf(acc)| + |IntKeysOf([e])|
    ensures IntValues(Put(acc, e)) == IntValues(acc) + IntValues([e])
  {
    IntProjectionsSingle(e);
    if e.key.IntKey? {
      PushInts(acc, e.val);
    } else {
      AssignStringKeepsInts(acc, e.key, e.val);
    }
  }

  lemma PushInts(acc: PArray, v: Value)
    requires Counting(IntKeysOf(acc))
    ensures IntKeysOf(Push(acc, v)) == IntKeysOf(acc) + [|IntKeysOf(acc)|]
    ensures IntValues(Push(acc, v)) == IntValues(acc) + [v]
  {
    var n := |IntKeysOf(acc)|;
    NextIndexOfRange(acc);
    var e := Entry(IntKey(n), v);
    assert Push(acc, v) == acc + [e];
    IntProjectionsAppend(acc, e);
    IntProjectionsSingle(e);
  }

  lemma IntProjectionsCons(b: PArray)
    requires b != []
    ensures IntKeysOf(b) == IntKeysOf([b[0]]) + IntKeysOf(b[1..])
    ensures IntValues(b) == IntValues([b[0]]) + IntValues(b[1..])
  {
    IntProjectionsSingle(b[0]);
  }

  lemma {:induction false} MergeIntoInts(acc: PArray, b: PArray)
    requires Counting(IntKeysOf(acc))
    ensures Counting(IntKeysOf(MergeInto(acc, b)))
    ensures |IntKeysOf(MergeInto(acc, b))| == |IntKeysOf(acc)| + |IntKeysOf(b)|
    ensures IntValues(MergeInto(acc, b)) == IntValues(acc) + IntValues(b)
    decreases |b|
  {
    if b != [] {
      var acc' := Put(acc, b[0]);
      PutInts(acc, b[0]);
      MergeIntoInts(acc', b[1..]);
      IntProjectionsCons(b);
    }
  }

  lemma {:induction false} MergeIntoUnique(acc: PArray, b: PArray)
    requires Unique(acc)
    ensures Unique(MergeInto(acc, b))
    decreases |b|
  {
    if b != [] {
      if !b[0].key.IntKey? {
        AssignUnique(acc, b[0].key, b[0].val);
      }
      MergeIntoUnique(Put(acc, b[0]), b[1..]);
    }
  }

  /** A string key read after one merge step. */
  lemma PutLookupString(acc: PArray, e: Entry, k: Key)
    requires k.StrKey?
    ensures Lookup(Put(acc, e), k) == if e.key == k then Some(e.val) else Lookup(acc, k)
  {
    if !e.key.IntKey? {
      AssignLookup(acc, e.key, e.val, k);
    }
  }

  /** Under `array_merge` a string key takes its value from the last array that holds it. */
  lemma {:induction false} MergeIntoLookup(acc: PArray, b: PArray, k: Key)
    requires k.StrKey? && Unique(b)
    ensures Lookup(MergeInto(acc, b), k) == if k in KeySet(b) then Lookup(b, k) else Lookup(acc, k)
    decreases |b|
  {
    if b != [] {
      UniqueTail(b);
      PutLookupString(acc, b[0], k);
      MergeIntoLookup(Put(acc, b[0]), b[1..], k);
    }
  }

  /** Merging entries whose string keys are new onto a list-shaped prefix appends them renumbered. */
  lemma {:induction false} MergeIntoRenumbers(acc: PArray, a: PArray)
    requires Counting(IntKeysOf(acc)) && Unique(a)
    requires FreshStrings(acc, a)
    ensures MergeInto(acc, a) == acc + Renumber(a, |IntKeysOf(acc)|)
    decreases |a|
  {
    var n := |IntKeysOf(acc)|;
    if a == [] {
      assert acc + [] == acc;
    } else {
      assert MergeInto(acc, a) == acc + Renumber(a, n) by {
        var x := Renumbered(a[0], n);
        var acc' := acc + [x];
        RenumberStep(acc, a);
        MergeIntoRenumbers(acc', a[1..]);
        var m := |IntKeysOf(acc')|;
        RenumberUnfold(a, n, m);
        SnocGlue(MergeInto(acc, a), MergeInto(acc', a[1..]), acc, x, Renumber(a[1..], m), Renumber(a, n));
      }
    }
  }

  /** The chain of equalities that closes one step of `MergeIntoRenumbers`. */
  lemma SnocGlue<T>(m0: seq<T>, m1: seq<T>, s: seq<T>, x: T, t: seq<T>, r: seq<T>)
    requires m0 == m1 && m1 == (s + [x]) + t && r == [x] + t
    ensures m0 == s + r
  {
  }

  lemma RenumberUnfold(a: PArray, n: int, m: int)
    requires a != [] && m == n + IntCount(a[0])
    ensures Renumber(a, n) == [Renumbered(a[0], n)] + Renumber(a[1..], m)
  {
  }

  /** No string key of `a` is already a key of `acc`. */
  predicate FreshStrings(acc: PArray, a: PArray) {
    forall i :: 0 <= i < |a| && a[i].key.StrKey? ==> a[i].key !in KeySet(acc)
  }

  /** The facts one step of `MergeIntoRenumbers` hands to the next. */
  lemma RenumberStep(acc: PArray, a: PArray)
    requires Counting(IntKeysOf(acc)) && Unique(a) && a != []
    requires FreshStrings(acc, a)
    ensures var acc' := acc + [Renumbered(a[0], |IntKeysOf(acc)|)];
      && MergeInto(acc, a) == MergeInto(acc', a[1..])
      && Counting(IntKeysOf(acc'))
      && |IntKeysOf(acc')| == |IntKeysOf(acc)| + IntCount(a[0])
      && Unique(a[1..])
      && FreshStrings(acc', a[1..])
  {
    var e := Renumbered(a[0], |IntKeysOf(acc)|);
    PutAppends(acc, a[0]);
    PutInts(acc, a[0]);
    IntProjectionsSingle(a[0]);
    FreshKeysStep(acc, a, e);
  }

  lemma FreshKeysStep(acc: PArray, a: PArray, e: Entry)
    requires a != [] && Unique(a) && e.key.StrKey? == a[0].key.StrKey?
    requires e.key.StrKey? ==> e.key == a[0].key
    requires FreshStrings(acc, a)
    ensures Unique(a[1..])
    ensures FreshStrings(acc + [e], a[1..])
  {
    UniqueTail(a);
    LookupAppend(acc, e, e.key);
    forall i | 0 <= i < |a[1..]| && a[1..][i].key.StrKey? ensures a[1..][i].key !in KeySet(acc + [e]) {
      assert a[1..][i] == a[i + 1];
      assert a[i + 1].key != a[0].key;
    }
  }

  /** One merge step whose string key is new appends the (renumbered) entry. */
  lemma PutAppends(acc: PArray, e: Entry)
    requires Counting(IntKeysOf(acc))
    requires e.key.StrKey? ==> e.key !in KeySet(acc)
    ensures Put(acc, e) == acc + [Renumbered(e, |IntKeysOf(acc)|)]
  {
    if e.key.IntKey? {
      NextIndexOfRange(acc);
    }
  }

  /** `array_merge` of a single array renumbers its integer keys from 0. */
  lemma MergeFromEmpty(a: PArray)
    requires Unique(a)
    ensures MergeInto([], a) == Renumber(a, 0)
  {
    MergeIntoRenumbers([], a);
  }

  /** The first array's keys come first and in order, integer keys renumbered from 0. */
  lemma ArrayMergeOrder(a: PArray, b: PArray)
    requires Unique(a)
    ensures var r := ArrayMerge(a, b);
      |r| >= |a| && forall i :: 0 <= i < |a| ==> r[i].key == Renumber(a, 0)[i].key
  {
    MergeFromEmpty(a);
  }

  /** A string key takes the second array's value when it has one, the first's otherwise. */
  lemma ArrayMergeLookup(a: PArray, b: PArray, k: Key)
    requires Unique(a) && Unique(b) && k.StrKey?
    ensures Lookup(ArrayMerge(a, b), k) == if k in KeySet(b) then Lookup(b, k) else Lookup(a, k)
  {
    MergeIntoLookup([], a, k);
    MergeIntoLookup(MergeInto([], a), b, k);
  }

  /** The integer keys of the result are 0, 1, ... holding the first array's list values, then the second's. */
  lemma ArrayMergeIntegers(a: PArray, b: PArray)
    ensures Counting(IntKeysOf(ArrayMerge(a, b)))
    ensures IntValues(ArrayMerge(a, b)) == IntValues(a) + IntValues(b)
  {
    var m := MergeInto([], a);
    assert IntKeysOf([]) == [] && IntValues([]) == [];
    MergeIntoInts([], a);
    assert IntValues(m) == IntValues(a);
    MergeIntoInts(m, b);
  }

  lemma ArrayMergeUnique(a: PArray, b: PArray)
    ensures Unique(ArrayMerge(a, b))
  {
    MergeIntoUnique([], a);
    MergeIntoUnique(MergeInto([], a), b);
  }
}
