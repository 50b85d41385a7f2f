/**
 * The order in which an IndexedDB index lists a table: by the indexed value,
 * and records with equal indexed values by primary key. This is what
 * `orderBy('created_at')` and `orderBy('name')` return in src/services/offline.ts.
 * Keys are compared the way IndexedDB compares them: numbers before strings,
 * numbers numerically, strings by their UTF-16 code units.
 */
module IndexOrder {

  /**
   * The UTF-16 code units of one character, as JavaScript stores it: one unit
   * below U+10000, otherwise a high and a low surrogate.
   */
  function CharUnits(c: char): seq<int>
  {
    if c as int < 0x1_0000 then [c as int]
    else [0xD800 + (c as int - 0x1_0000) / 0x400, 0xDC00 + (c as int - 0x1_0000) % 0x400]
  }

  /** The UTF-16 encoding of a string. */
  function Utf16(s: string): seq<int>
  {
    if s == [] then [] else CharUnits(s[0]) + Utf16(s[1..])
  }

  /** A character takes two units exactly when its first unit is a high surrogate. */
  lemma CharUnitsShape(c: char)
    ensures 1 <= |CharUnits(c)| <= 2
    ensures |CharUnits(c)| == 2 <==> 0xD800 <= CharUnits(c)[0] < 0xDC00
  {
  }

  lemma CharUnitsInjective(c: char, d: char)
    requires CharUnits(c) == CharUnits(d)
    ensures c == d
  {
    if c as int >= 0x1_0000 {
      var v, w := c as int - 0x1_0000, d as int - 0x1_0000;
      assert v == 0x400 * (v / 0x400) + v % 0x400;
      assert w == 0x400 * (w / 0x400) + w % 0x400;
    }
  }

  /** Different strings have different encodings. */
  lemma {:induction false} Utf16Injective(a: string, b: string)
    requires Utf16(a) == Utf16(b)
    ensures a == b
    decreases |a|
  {
    if a == [] {
      if b != [] {
        CharUnitsShape(b[0]);
      }
    } else {
      CharUnitsShape(a[0]);
      if b == [] {
        assert false;
      }
      CharUnitsShape(b[0]);
      var ua, ub := CharUnits(a[0]), CharUnits(b[0]);
      assert Utf16(a)[0] == ua[0] && Utf16(b)[0] == ub[0];
      assert ua == Utf16(a)[..|ua|] && ub == Utf16(b)[..|ub|];
      CharUnitsInjective(a[0], b[0]);
      assert Utf16(a[1..]) == Utf16(a)[|ua|..] && Utf16(b[1..]) == Utf16(b)[|ub|..];
      Utf16Injective(a[1..], b[1..]);
      assert a == [a[0]] + a[1..] && b == [b[0]] + b[1..];
    }
  }

  /** Lexicographic order on sequences of code units. */
  predicate UnitsLess(a: seq<int>, b: seq<int>)
  {
    if |a| == 0 then |b| > 0
    else if |b| == 0 then false
    else a[0] < b[0] || (a[0] == b[0] && UnitsLess(a[1..], b[1..]))
  }

  lemma {:induction false} UnitsLessIrreflexive(a: seq<int>)
    ensures !UnitsLess(a, a)
  {
    if |a| > 0 {
      UnitsLessIrreflexive(a[1..]);
    }
  }

  lemma {:induction false} UnitsLessTransitive(a: seq<int>, b: seq<int>, c: seq<int>)
    requires UnitsLess(a, b) && UnitsLess(b, c)
    ensures UnitsLess(a, c)
  {
    if |a| > 0 && |b| > 0 && |c| > 0 && a[0] == b[0] == c[0] {
      UnitsLessTransitive(a[1..], b[1..], c[1..]);
    }
  }

  lemma {:induction false} UnitsLessTotal(a: seq<int>, b: seq<int>)
    requires a != b
    ensures UnitsLess(a, b) || UnitsLess(b, a)
  {
    if |a| > 0 && |b| > 0 && a[0] == b[0] {
      assert a == [a[0]] + a[1..] && b == [b[0]] + b[1..];
      UnitsLessTotal(a[1..], b[1..]);
    }
  }

  /** The order IndexedDB puts strings in: by their UTF-16 code units. */
  predicate StrLess(a: string, b: string)
  {
    UnitsLess(Utf16(a), Utf16(b))
  }

  lemma StrLessIrreflexive(a: string)
    ensures !StrLess(a, a)
  {
    UnitsLessIrreflexive(Utf16(a));
  }

  lemma StrLessTransitive(a: string, b: string, c: string)
    requires StrLess(a, b) && StrLess(b, c)
    ensures StrLess(a, c)
  {
    UnitsLessTransitive(Utf16(a), Utf16(b), Utf16(c));
  }

  lemma StrLessTotal(a: string, b: string)
    requires a != b
    ensures StrLess(a, b) || StrLess(b, a)
  {
    if Utf16(a) == Utf16(b) {
      Utf16Injective(a, b);
    }
    UnitsLessTotal(Utf16(a), Utf16(b));
  }

  /**
   * Code-unit order is not code-point order: U+1F600 is encoded with a
   * surrogate pair (0xD83D 0xDE00), so it sorts before U+FF61.
   */
  lemma SurrogatesSortBeforeHighBmp()
    ensures StrLess("\U{1F600}", "\U{FF61}") && !StrLess("\U{FF61}", "\U{1F600}")
  {
    assert Utf16("\U{1F600}") == [0xD83D, 0xDE00];
    assert Utf16("\U{FF61}") == [0xFF61];
  }

  /** The value an index holds for a record. */
  datatype IndexKey = NumKey(n: int) | StrKey(s: string)

  predicate KeyLess(x: IndexKey, y: IndexKey)
  {
    match (x, y)
    case (NumKey(m), NumKey(n)) => m < n
    case (NumKey(_), StrKey(_)) => true
    case (StrKey(_), NumKey(_)) => false
    case (StrKey(s), StrKey(t)) => StrLess(s, t)
  }

  /** Record `a` (index value `x`) is listed before record `b` (index value `y`). */
  predicate Before(x: IndexKey, a: string, y: IndexKey, b: string)
  {
    KeyLess(x, y) || (x == y && StrLess(a, b))
  }

  lemma BeforeIrreflexive(x: IndexKey, a: string)
    ensures !Before(x, a, x, a)
  {
    StrLessIrreflexive(a);
    if x.StrKey? {
      StrLessIrreflexive(x.s);
    }
  }

  lemma BeforeTransitive(x: IndexKey, a: string, y: IndexKey, b: string, z: IndexKey, c: string)
    requires Before(x, a, y, b) && Before(y, b, z, c)
    ensures Before(x, a, z, c)
  {
    if x.StrKey? && y.StrKey? && z.StrKey? {
      if KeyLess(x, y) && KeyLess(y, z) {
        StrLessTransitive(x.s, y.s, z.s);
      }
    }
    if x == y && y == z {
      if x.StrKey? {
        StrLessIrreflexive(x.s);
      }
      StrLessTransitive(a, b, c);
    }
  }

  lemma BeforeTotal(x: IndexKey, a: string, y: IndexKey, b: string)
    requires a != b
    ensures Before(x, a, y, b) || Before(y, b, x, a)
  {
    if x == y {
      StrLessTotal(a, b);
    } else if x.StrKey? && y.StrKey? {
      StrLessTotal(x.s, y.s);
    }
  }

  /** Every key of `ks` is a key of the index. */
  predicate Within(ix: map<string, IndexKey>, ks: seq<string>)
  {
    forall i :: 0 <= i < |ks| ==> ks[i] in ix
  }

  /** Each key of `ks` is listed before the next one. */
  predicate ChainSorted(ix: map<string, IndexKey>, ks: seq<string>)
    requires Within(ix, ks)
  {
    forall i :: 0 < i < |ks| ==> Before(ix[ks[i - 1]], ks[i - 1], ix[ks[i]], ks[i])
  }

  /** Each key of `ks` is listed before every later one (so no key occurs twice). */
  predicate Sorted(ix: map<string, IndexKey>, ks: seq<string>)
    requires Within(ix, ks)
  {
    forall i, j :: 0 <= i < j < |ks| ==> Before(ix[ks[i]], ks[i], ix[ks[j]], ks[j])
  }

  lemma {:induction false} ChainSortedIsSorted(ix: map<string, IndexKey>, ks: seq<string>)
    requires Within(ix, ks) && ChainSorted(ix, ks)
    ensures Sorted(ix, ks)
  {
    if |ks| > 1 {
      var tail := ks[1..];
      assert Within(ix, tail) && ChainSorted(ix, tail) by {
        forall i | 0 < i < |tail|
          ensures Before(ix[tail[i - 1]], tail[i - 1], ix[tail[i]], tail[i])
        {
          assert tail[i - 1] == ks[i] && tail[i] == ks[i + 1];
        }
      }
      ChainSortedIsSorted(ix, tail);
      forall i, j | 0 <= i < j < |ks|
        ensures Before(ix[ks[i]], ks[i], ix[ks[j]], ks[j])
      {
        if i > 0 {
          assert ks[i] == tail[i - 1] && ks[j] == tail[j - 1];
        } else if j > 1 {
          assert ks[1] == tail[0] && ks[j] == tail[j - 1];
          BeforeTransitive(ix[ks[0]], ks[0], ix[ks[1]], ks[1], ix[ks[j]], ks[j]);
        }
      }
    }
  }

  /** Inserts the new key `k` into the chain-sorted `ks` at its place in the listing. */
  function Insert(ix: map<string, IndexKey>, ks: seq<string>, k: string): (r: seq<string>)
    requires k in ix && Within(ix, ks) && ChainSorted(ix, ks) && k !in ks
    ensures Within(ix, r) && ChainSorted(ix, r)
    ensures |r| == |ks| + 1
    ensures forall x :: x in r <==> x in ks || x == k
    ensures r[0] == k || r[0] == ks[0]
  {
    if ks == [] then [k]
    else if Before(ix[k], k, ix[ks[0]], ks[0]) then [k] + ks
    else
      BeforeTotal(ix[k], k, ix[ks[0]], ks[0]);
      var rest := Insert(ix, ks[1..], k);
      assert forall x :: x in ks[1..] ==> x in ks;
      [ks[0]] + rest
  }

  /** The keys of `ix`, each once, in the order the index lists them. */
  method Listing(ix: map<string, IndexKey>) returns (ks: seq<string>)
    ensures Within(ix, ks) && Sorted(ix, ks)
    ensures forall k :: k in ks <==> k in ix
    ensures |ks| == |ix|
  {
    var rest := ix.Keys;
    ks := [];
    while rest != {}
      invariant rest <= ix.Keys
      invariant Within(ix, ks) && ChainSorted(ix, ks)
      invariant forall k :: k in ks <==> k in ix && k !in rest
      invariant |ks| + |rest| == |ix|
      decreases rest
    {
      var k :| k in rest;
      ks := Insert(ix, ks, k);
      rest := rest - {k};
    }
    ChainSortedIsSorted(ix, ks);
  }
}
