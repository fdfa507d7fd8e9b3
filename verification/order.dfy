/**
 The order in which the columns are sorted: lexicographic by character, a
 proper prefix before its extensions. Characters are compared as Unicode
 code points; `Array.prototype.sort` compares UTF-16 code units, which
 orders differently only strings holding characters outside the Basic
 Multilingual Plane. Strictly sorted sequences of strings stand for sorted
 sets.
 */
module StringOrder {

  predicate Less(a: string, b: string)
  {
    if |a| == 0 then |b| > 0
    else if |b| == 0 then false
    else a[0] < b[0] || (a[0] == b[0] && Less(a[1..], b[1..]))
  }

  lemma {:induction false} LessIrreflexive(a: string)
    ensures !Less(a, a)
  {
    if |a| > 0 {
      LessIrreflexive(a[1..]);
    }
  }

  lemma {:induction false} LessTransitive(a: string, b: string, c: string)
    requires Less(a, b) && Less(b, c)
    ensures Less(a, c)
  {
    if |a| > 0 && a[0] == b[0] && b[0] == c[0] {
      LessTransitive(a[1..], b[1..], c[1..]);
    }
  }

  lemma {:induction false} LessTotal(a: string, b: string)
    ensures a == b || Less(a, b) || Less(b, a)
  {
    if |a| > 0 && |b| > 0 && a[0] == b[0] {
      LessTotal(a[1..], b[1..]);
      if a[1..] == b[1..] {
        assert a == [a[0]] + a[1..] && b == [b[0]] + b[1..];
      }
    }
  }

  lemma LessAsymmetric(a: string, b: string)
    requires Less(a, b)
    ensures !Less(b, a)
  {
  }

  /** Ascending with no duplicates. */
  predicate StrictlySorted(s: seq<string>)
  {
    forall i, j :: 0 <= i < j < |s| ==> Less(s[i], s[j])
  }

  function Elems(s: seq<string>): set<string>
  {
    set x | x in s
  }

  /** Puts `k` into its place in a strictly sorted sequence, unless it is there already. */
  function Insert(keys: seq<string>, k: string): (r: seq<string>)
    requires StrictlySorted(keys)
    ensures StrictlySorted(r)
    ensures Elems(r) == Elems(keys) + {k}
  {
    if |keys| == 0 then [k]
    else if k == keys[0] then keys
    else if Less(k, keys[0]) then
      InsertFront(keys, k);
      [k] + keys
    else
      var tail := Insert(keys[1..], k);
      InsertBehind(keys, k, tail);
      [keys[0]] + tail
  }

  lemma InsertFront(keys: seq<string>, k: string)
    requires StrictlySorted(keys) && |keys| > 0 && Less(k, keys[0])
    ensures StrictlySorted([k] + keys)
    ensures Elems([k] + keys) == Elems(keys) + {k}
  {
    forall j | 0 < j < |keys|
      ensures Less(k, keys[j])
    {
      LessTransitive(k, keys[0], keys[j]);
    }
  }

  lemma InsertBehind(keys: seq<string>, k: string, tail: seq<string>)
    requires StrictlySorted(keys) && |keys| > 0 && k != keys[0] && !Less(k, keys[0])
    requires StrictlySorted(tail) && Elems(tail) == Elems(keys[1..]) + {k}
    ensures StrictlySorted([keys[0]] + tail)
    ensures Elems([keys[0]] + tail) == Elems(keys) + {k}
  {
    LessTotal(k, keys[0]);
    forall j | 0 <= j < |tail|
      ensures Less(keys[0], tail[j])
    {
      assert tail[j] in Elems(tail);
      if tail[j] != k {
        var m :| 1 <= m < |keys| && keys[m] == tail[j];
      }
    }
    assert keys == [keys[0]] + keys[1..];
    assert Elems(keys) == {keys[0]} + Elems(keys[1..]);
    assert Elems([keys[0]] + tail) == {keys[0]} + Elems(tail);
  }

  /** A strictly sorted sequence is determined by its elements: the sorted
      column order does not depend on how the set was assembled. */
  lemma {:induction false} SortedUnique(s: seq<string>, t: seq<string>)
    requires StrictlySorted(s) && StrictlySorted(t)
    requires Elems(s) == Elems(t)
    ensures s == t
  {
    if |s| == 0 {
      EmptyElems(t);
    } else {
      assert s[0] in Elems(t);
      assert t[0] in Elems(s);
      if s[0] != t[0] {
        MinimumFirst(s, t[0]);
        MinimumFirst(t, s[0]);
        LessAsymmetric(s[0], t[0]);
      }
      assert Elems(s[1..]) == Elems(s) - {s[0]} by { TailElems(s); }
      assert Elems(t[1..]) == Elems(t) - {t[0]} by { TailElems(t); }
      SortedUnique(s[1..], t[1..]);
      assert s == [s[0]] + s[1..] && t == [t[0]] + t[1..];
    }
  }

  lemma EmptyElems(s: seq<string>)
    ensures Elems(s) == {} ==> s == []
  {
    if |s| > 0 {
      assert s[0] in Elems(s);
    }
  }

  lemma MinimumFirst(s: seq<string>, x: string)
    requires StrictlySorted(s) && x in Elems(s) && x != s[0]
    ensures Less(s[0], x)
  {
  }

  lemma TailElems(s: seq<string>)
    requires StrictlySorted(s) && |s| > 0
    ensures Elems(s[1..]) == Elems(s) - {s[0]}
  {
    forall j | 1 <= j < |s|
      ensures s[j] != s[0]
    {
      LessIrreflexive(s[0]);
    }
    assert s == [s[0]] + s[1..];
  }
}
