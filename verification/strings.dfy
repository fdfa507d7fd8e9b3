/**
 Joining and splitting strings, as JavaScript's `Array.prototype.join` and a
 plain separator split do it.
 */
module Strings {

  /** `parts.join(sep)`: the parts with one separator between neighbours. */
  function Join(sep: string, parts: seq<string>): string
  {
    if |parts| == 0 then ""
    else if |parts| == 1 then parts[0]
    else parts[0] + sep + Join(sep, parts[1..])
  }

  /** Every part preceded by the separator. */
  function JoinTail(sep: string, parts: seq<string>): string
  {
    if |parts| == 0 then "" else sep + parts[0] + JoinTail(sep, parts[1..])
  }

  /** A join with a first part is that part followed by every other part
      prefixed with the separator. */
  lemma {:induction false} JoinCons(sep: string, first: string, rest: seq<string>)
    ensures Join(sep, [first] + rest) == first + JoinTail(sep, rest)
    decreases |rest|
  {
    if |rest| > 0 {
      JoinCons(sep, rest[0], rest[1..]);
      assert ([first] + rest)[1..] == [rest[0]] + rest[1..];
    }
  }

  /** The tail join ends with the separator and the last part. */
  lemma {:induction false} JoinTailSnoc(sep: string, parts: seq<string>)
    requires |parts| > 0
    ensures JoinTail(sep, parts) == JoinTail(sep, parts[..|parts| - 1]) + sep + parts[|parts| - 1]
  {
    if |parts| > 1 {
      JoinTailSnoc(sep, parts[1..]);
      assert parts[1..][..|parts| - 2] == parts[..|parts| - 1][1..];
    }
  }

  /** Cuts a string at every occurrence of the separator. */
  function Split(s: string, sep: char): (r: seq<string>)
    ensures |r| > 0
  {
    if |s| == 0 then [""]
    else
      var tail := Split(s[1..], sep);
      if s[0] == sep then [""] + tail
      else [[s[0]] + tail[0]] + tail[1..]
  }

  lemma {:induction false} SplitPlain(a: string, sep: char)
    requires sep !in a
    ensures Split(a, sep) == [a]
  {
    if |a| > 0 {
      SplitPlain(a[1..], sep);
      assert [a[0]] + a[1..] == a;
    }
  }

  lemma {:induction false} SplitAtSeparator(a: string, sep: char, b: string)
    requires sep !in a
    ensures Split(a + [sep] + b, sep) == [a] + Split(b, sep)
  {
    if |a| == 0 {
      assert (a + [sep] + b)[1..] == b;
    } else {
      assert (a + [sep] + b)[1..] == a[1..] + [sep] + b;
      SplitAtSeparator(a[1..], sep, b);
      assert [a[0]] + a[1..] == a;
    }
  }

  /** Splitting a join gives the parts back when no part holds the separator. */
  lemma {:induction false} SplitJoin(parts: seq<string>, sep: char)
    requires |parts| > 0
    requires forall i :: 0 <= i < |parts| ==> sep !in parts[i]
    ensures Split(Join([sep], parts), sep) == parts
  {
    if |parts| == 1 {
      SplitPlain(parts[0], sep);
    } else {
      SplitJoin(parts[1..], sep);
      SplitAtSeparator(parts[0], sep, Join([sep], parts[1..]));
      assert [parts[0]] + parts[1..] == parts;
    }
  }

  /** A join holds a character only if a part or the separator holds it. */
  lemma {:induction false} JoinAvoids(sep: string, parts: seq<string>, c: char)
    requires c !in sep
    requires forall i :: 0 <= i < |parts| ==> c !in parts[i]
    ensures c !in Join(sep, parts)
  {
    if |parts| > 1 {
      JoinAvoids(sep, parts[1..], c);
    }
  }
}
