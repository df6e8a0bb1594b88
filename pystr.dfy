/** Python's string and list primitives used by the bio pipeline: `str.split` with a
    one-character separator, `sep.join`, the slice `xs[:n]`, `str.count` and
    `str.replace`, each defined the way CPython behaves on them. */
module PyStr {

  /** `s.count(c)`: the number of occurrences of the character `c` in `s`. */
  function Count(s: string, c: char): nat
  {
    if s == [] then 0 else (if s[0] == c then 1 else 0) + Count(s[1..], c)
  }

  /** `s.split(c)` for a separator of one character. A string with k separators gives
      k + 1 segments (so never an empty list), empty segments are kept, and no segment
      contains the separator. */
  function Split(s: string, c: char): (r: seq<string>)
    ensures |r| == Count(s, c) + 1
    ensures forall i :: 0 <= i < |r| ==> c !in r[i]
  {
    if s == [] then [""]
    else
      var rest := Split(s[1..], c);
      if s[0] == c then [""] + rest
      else [[s[0]] + rest[0]] + rest[1..]
  }

  /** The total length of the parts, `sum(len(p) for p in parts)`. */
  function TotalLength(parts: seq<string>): nat
  {
    if parts == [] then 0 else |parts[0]| + TotalLength(parts[1..])
  }

  /** `sep.join(parts)`: the empty list joins to "", one part joins to itself. The result
      holds every part and one separator between each two neighbours. */
  function Join(sep: string, parts: seq<string>): (r: string)
    ensures |r| == TotalLength(parts) + (if parts == [] then 0 else (|parts| - 1) * |sep|)
  {
    if |parts| == 0 then ""
    else if |parts| == 1 then parts[0]
    else parts[0] + sep + Join(sep, parts[1..])
  }

  /** The slice `xs[:n]` for a non-negative bound: a bound past the end keeps everything. */
  function Take<T>(xs: seq<T>, n: nat): (r: seq<T>)
    ensures |r| == if n <= |xs| then n else |xs|
    ensures r == xs[..|r|]
  {
    if n <= |xs| then xs[..n] else xs
  }

  /** `s.replace(c, with)` for a pattern of one character: the reference definition that
      split-then-join is compared with. */
  function Replace(s: string, c: char, with: string): string
  {
    if s == [] then ""
    else (if s[0] == c then with else [s[0]]) + Replace(s[1..], c, with)
  }

  /** Each part of `parts` with `t` put in front of it. */
  function Prefixed(t: string, parts: seq<string>): (r: seq<string>)
    ensures |r| == |parts|
    ensures forall i :: 0 <= i < |parts| ==> r[i] == t + parts[i]
  {
    if parts == [] then [] else [t + parts[0]] + Prefixed(t, parts[1..])
  }

  /** Every occurrence of `c` in `s` is immediately followed by `f`. */
  predicate FollowedBy(s: string, c: char, f: char)
  {
    forall i :: 0 <= i < |s| && s[i] == c ==> i + 1 < |s| && s[i + 1] == f
  }

  /** A string without the separator splits into itself alone. */
  lemma {:induction false} SplitWithoutSeparator(s: string, c: char)
    requires c !in s
    ensures Split(s, c) == [s]
  {
    if s != [] {
      SplitWithoutSeparator(s[1..], c);
      assert [s[0]] + s[1..] == s;
    }
  }

  /** Splitting around one separator splits each side on its own. */
  lemma {:induction false} SplitAround(a: string, b: string, c: char)
    ensures Split(a + [c] + b, c) == Split(a, c) + Split(b, c)
  {
    if a == [] {
      SplitCons(c, b, c);
      assert a + [c] + b == [c] + b;
    } else {
      SplitAround(a[1..], b, c);
      SplitAroundStep(a[0], a[1..], b, c);
      assert a == [a[0]] + a[1..];
    }
  }

  /** The inductive step of `SplitAround`: one more character in front. */
  lemma SplitAroundStep(x: char, t: string, b: string, c: char)
    requires Split(t + [c] + b, c) == Split(t, c) + Split(b, c)
    ensures Split([x] + t + [c] + b, c) == Split([x] + t, c) + Split(b, c)
  {
    assert [x] + t + [c] + b == [x] + (t + [c] + b);
    SplitCons(x, t + [c] + b, c);
    SplitCons(x, t, c);
    ConsSegments(x, c, Split(t, c), Split(b, c));
  }

  /** How `SplitCons` builds on a concatenation of segment lists. */
  lemma ConsSegments(x: char, c: char, A: seq<string>, B: seq<string>)
    requires |A| >= 1
    ensures (if x == c then [""] + (A + B) else [[x] + (A + B)[0]] + (A + B)[1..])
            == (if x == c then [""] + A else [[x] + A[0]] + A[1..]) + B
  {
    assert (A + B)[0] == A[0] && (A + B)[1..] == A[1..] + B;
  }

  /** One unfolding of `Split` on a string with a known first character. */
  lemma SplitCons(x: char, t: string, c: char)
    ensures Split([x] + t, c) == if x == c then [""] + Split(t, c)
                                 else [[x] + Split(t, c)[0]] + Split(t, c)[1..]
  {
    assert ([x] + t)[1..] == t;
  }

  /** Joining on the separator and splitting again gives the parts back, as long as no
      part holds the separator. */
  lemma {:induction false} SplitJoin(parts: seq<string>, c: char)
    requires |parts| >= 1
    requires forall i :: 0 <= i < |parts| ==> c !in parts[i]
    ensures Split(Join([c], parts), c) == parts
  {
    if |parts| == 1 {
      SplitWithoutSeparator(parts[0], c);
    } else {
      SplitJoin(parts[1..], c);
      SplitAround(parts[0], Join([c], parts[1..]), c);
      SplitWithoutSeparator(parts[0], c);
      assert [parts[0]] + parts[1..] == parts;
    }
  }

  /** Splitting on `c` and joining with `sep` replaces every `c` by `sep`. */
  lemma {:induction false} JoinSplitIsReplace(s: string, c: char, sep: string)
    ensures Join(sep, Split(s, c)) == Replace(s, c, sep)
  {
    if s != [] {
      JoinSplitIsReplace(s[1..], c, sep);
      var rest := Split(s[1..], c);
      if s[0] != c {
        JoinHeadPrepend([s[0]], rest[0], rest[1..], sep);
        assert [rest[0]] + rest[1..] == rest;
      }
    }
  }

  /** Text put in front of the first part comes out in front of the join. */
  lemma JoinHeadPrepend(t: string, p: string, ps: seq<string>, sep: string)
    ensures Join(sep, [t + p] + ps) == t + Join(sep, [p] + ps)
  {
    if ps != [] {
      assert ([t + p] + ps)[1..] == ps && ([p] + ps)[1..] == ps;
    }
  }

  /** Replacing `c` by itself changes nothing. */
  lemma {:induction false} ReplaceBySelf(s: string, c: char)
    ensures Replace(s, c, [c]) == s
  {
    if s != [] {
      ReplaceBySelf(s[1..], c);
      assert (if s[0] == c then [c] else [s[0]]) == [s[0]];
      assert [s[0]] + s[1..] == s;
    }
  }

  /** Round trip: joining the segments of `s.split(c)` with `c` gives `s` back. */
  lemma JoinSplit(s: string, c: char)
    ensures Join([c], Split(s, c)) == s
  {
    JoinSplitIsReplace(s, c, [c]);
    ReplaceBySelf(s, c);
  }

  /** Joining with `c` followed by `t` is joining with `c` alone after putting `t` in
      front of every part but the first. */
  lemma {:induction false} JoinLongSeparator(parts: seq<string>, c: char, t: string)
    requires |parts| >= 1
    ensures Join([c] + t, parts) == Join([c], [parts[0]] + Prefixed(t, parts[1..]))
  {
    if |parts| > 1 {
      var tail := parts[1..];
      JoinLongSeparator(tail, c, t);
      assert tail[1..] == parts[2..];
      JoinHeadPrepend(t, tail[0], Prefixed(t, tail[1..]), [c]);
      assert Prefixed(t, tail) == [t + tail[0]] + Prefixed(t, tail[1..]);
      assert ([parts[0]] + Prefixed(t, tail))[1..] == Prefixed(t, tail);
    }
  }

  /** The segments of a join with `c` followed by `t`, split again on `c`: the first part
      as it was, each later part with `t` in front of it. */
  lemma SplitLongSeparator(parts: seq<string>, c: char, t: string)
    requires |parts| >= 1
    requires forall i :: 0 <= i < |parts| ==> c !in parts[i]
    requires c !in t
    ensures Split(Join([c] + t, parts), c) == [parts[0]] + Prefixed(t, parts[1..])
  {
    JoinLongSeparator(parts, c, t);
    var q := [parts[0]] + Prefixed(t, parts[1..]);
    forall i | 0 <= i < |q| ensures c !in q[i] {
      if i > 0 {
        assert q[i] == t + parts[i];
      }
    }
    SplitJoin(q, c);
  }

  /** In a join with the two-character separator `[c, f]` of parts free of `c`, every `c`
      is immediately followed by `f`. */
  lemma {:induction false} JoinFollowedBy(parts: seq<string>, c: char, f: char)
    requires c != f
    requires forall i :: 0 <= i < |parts| ==> c !in parts[i]
    ensures FollowedBy(Join([c, f], parts), c, f)
  {
    if |parts| > 1 {
      JoinFollowedBy(parts[1..], c, f);
      var p := parts[0];
      var rest := Join([c, f], parts[1..]);
      var s := Join([c, f], parts);
      assert s == p + [c, f] + rest;
      forall i | 0 <= i < |s| && s[i] == c ensures i + 1 < |s| && s[i + 1] == f {
        if i > |p| + 1 {
          var j := i - |p| - 2;
          assert s[i] == rest[j];
          assert j + 1 < |rest| && rest[j + 1] == f;
          assert s[i + 1] == rest[j + 1];
        }
      }
    }
  }

  /** Joining a concatenation joins the two halves with one more separator. */
  lemma {:induction false} JoinAppend(sep: string, a: seq<string>, b: seq<string>)
    requires |a| >= 1 && |b| >= 1
    ensures Join(sep, a + b) == Join(sep, a) + sep + Join(sep, b)
  {
    if |a| > 1 {
      JoinAppend(sep, a[1..], b);
      assert (a + b)[1..] == a[1..] + b;
    } else {
      assert (a + b)[1..] == b;
    }
  }
}
