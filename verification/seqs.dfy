/**
 * Sequence vocabulary shared by the model: order-preserving filtering,
 * the subsequence relation ("obtained by deleting elements") and joining
 * strings with a separator.
 */
module Seqs {

  /** `a` is obtained from `b` by deleting zero or more elements. */
  predicate IsSubseq<T(==)>(a: seq<T>, b: seq<T>)
    decreases |b|
  {
    if a == [] then true
    else if b == [] then false
    else (a[0] == b[0] && IsSubseq(a[1..], b[1..])) || IsSubseq(a, b[1..])
  }

  lemma {:induction false} SubseqRefl<T>(a: seq<T>)
    ensures IsSubseq(a, a)
    decreases |a|
  {
    if a != [] {
      SubseqRefl(a[1..]);
    }
  }

  lemma {:induction false} SubseqEmpty<T>(b: seq<T>)
    ensures IsSubseq([], b)
  {
  }

  /** Deleting a whole prefix of the larger sequence keeps the relation. */
  lemma {:induction false} SubseqDropPrefix<T>(a: seq<T>, p: seq<T>, b: seq<T>)
    requires IsSubseq(a, b)
    ensures IsSubseq(a, p + b)
    decreases |p|
  {
    if p != [] && a != [] {
      SubseqDropPrefix(a, p[1..], b);
      assert (p + b)[1..] == p[1..] + b;
      assert IsSubseq(a, (p + b)[1..]);
    } else if p == [] {
      assert p + b == b;
    }
  }

  /** Copying a common prefix keeps the relation. */
  lemma {:induction false} SubseqKeepPrefix<T>(p: seq<T>, a: seq<T>, b: seq<T>)
    requires IsSubseq(a, b)
    ensures IsSubseq(p + a, p + b)
    decreases |p|
  {
    if p == [] {
      assert p + a == a && p + b == b;
    } else {
      SubseqKeepPrefix(p[1..], a, b);
      assert (p + a)[1..] == p[1..] + a;
      assert (p + b)[1..] == p[1..] + b;
    }
  }

  lemma {:induction false} SubseqTail<T>(a: seq<T>, b: seq<T>)
    requires a != [] && IsSubseq(a, b)
    ensures IsSubseq(a[1..], b)
    decreases |b|
  {
    if a[0] == b[0] && IsSubseq(a[1..], b[1..]) {
      SubseqDropPrefix(a[1..], b[..1], b[1..]);
      assert b[..1] + b[1..] == b;
    } else {
      SubseqTail(a, b[1..]);
      SubseqDropPrefix(a[1..], b[..1], b[1..]);
      assert b[..1] + b[1..] == b;
    }
  }

  lemma {:induction false} SubseqTrans<T>(a: seq<T>, b: seq<T>, c: seq<T>)
    requires IsSubseq(a, b) && IsSubseq(b, c)
    ensures IsSubseq(a, c)
    decreases |c|
  {
    if a == [] {
    } else if b[0] == c[0] && IsSubseq(b[1..], c[1..]) {
      if a[0] == b[0] && IsSubseq(a[1..], b[1..]) {
        SubseqTrans(a[1..], b[1..], c[1..]);
      } else {
        SubseqTrans(a, b[1..], c[1..]);
      }
    } else {
      SubseqTrans(a, b, c[1..]);
    }
  }

  lemma {:induction false} SubseqLength<T>(a: seq<T>, b: seq<T>)
    requires IsSubseq(a, b)
    ensures |a| <= |b|
    decreases |b|
  {
    if a != [] {
      if a[0] == b[0] && IsSubseq(a[1..], b[1..]) {
        SubseqLength(a[1..], b[1..]);
      } else {
        SubseqLength(a, b[1..]);
      }
    }
  }

  /** A sequence is its prefix, the element at `i`, and the suffix after it. */
  lemma SplitAt<T>(s: seq<T>, i: nat)
    requires i < |s|
    ensures s == s[..i] + ([s[i]] + s[i + 1..])
  {
    assert s[i..] == [s[i]] + s[i + 1..];
    assert s == s[..i] + s[i..];
  }

  // ---------------------------------------------------------------------------
  // Filtering
  // ---------------------------------------------------------------------------

  /** `s.filter(p)`. */
  function Filter<T>(p: T -> bool, s: seq<T>): (r: seq<T>)
    ensures |r| <= |s|
    ensures forall i :: 0 <= i < |r| ==> p(r[i])
    ensures forall x :: x in r ==> x in s
    decreases |s|
  {
    if s == [] then []
    else if p(s[0]) then [s[0]] + Filter(p, s[1..])
    else Filter(p, s[1..])
  }

  /** Filtering a sequence extended by one element. */
  lemma {:induction false} FilterSnoc<T>(p: T -> bool, s: seq<T>, x: T)
    ensures Filter(p, s + [x]) == Filter(p, s) + (if p(x) then [x] else [])
    decreases |s|
  {
    if s == [] {
      assert s + [x] == [x];
      assert [x][1..] == [];
    } else {
      assert (s + [x])[0] == s[0];
      assert (s + [x])[1..] == s[1..] + [x];
      FilterSnoc(p, s[1..], x);
    }
  }

  lemma {:induction false} FilterMembership<T>(p: T -> bool, s: seq<T>, x: T)
    ensures x in Filter(p, s) <==> x in s && p(x)
    decreases |s|
  {
    if s != [] {
      FilterMembership(p, s[1..], x);
      assert s == [s[0]] + s[1..];
    }
  }

  lemma {:induction false} FilterIsSubseq<T>(p: T -> bool, s: seq<T>)
    ensures IsSubseq(Filter(p, s), s)
    decreases |s|
  {
    if s != [] {
      FilterIsSubseq(p, s[1..]);
      if p(s[0]) {
        SubseqKeepPrefix([s[0]], Filter(p, s[1..]), s[1..]);
        assert [s[0]] + s[1..] == s;
      } else {
        SubseqDropPrefix(Filter(p, s[1..]), [s[0]], s[1..]);
        assert [s[0]] + s[1..] == s;
      }
    }
  }

  /** Filtering by `p` and by its complement `q` splits `s` without loss. */
  lemma {:induction false} FilterPartition<T>(p: T -> bool, q: T -> bool, s: seq<T>)
    requires forall x :: q(x) == !p(x)
    ensures multiset(Filter(p, s)) + multiset(Filter(q, s)) == multiset(s)
    decreases |s|
  {
    if s != [] {
      FilterPartition(p, q, s[1..]);
      assert s == [s[0]] + s[1..];
    }
  }

  lemma {:induction false} FilterAll<T>(p: T -> bool, s: seq<T>)
    requires forall i :: 0 <= i < |s| ==> p(s[i])
    ensures Filter(p, s) == s
    decreases |s|
  {
    if s != [] {
      FilterAll(p, s[1..]);
    }
  }

  lemma {:induction false} FilterNone<T>(p: T -> bool, s: seq<T>)
    requires forall i :: 0 <= i < |s| ==> !p(s[i])
    ensures Filter(p, s) == []
    decreases |s|
  {
    if s != [] {
      FilterNone(p, s[1..]);
    }
  }

  /** The first element satisfying `p`, as `Array.prototype.find` returns it. */
  function FindFirst<T>(p: T -> bool, s: seq<T>): (r: nat)
    ensures r <= |s|
    ensures r < |s| ==> p(s[r])
    ensures forall i :: 0 <= i < r ==> !p(s[i])
    decreases |s|
  {
    if s == [] then 0 else if p(s[0]) then 0 else 1 + FindFirst(p, s[1..])
  }

  /** The filtered sequence starts with the element `find` returns, and is
      empty exactly when `find` finds nothing. */
  lemma {:induction false} FilterHeadIsFindFirst<T>(p: T -> bool, s: seq<T>)
    ensures Filter(p, s) == [] <==> FindFirst(p, s) == |s|
    ensures FindFirst(p, s) < |s| ==> Filter(p, s)[0] == s[FindFirst(p, s)]
    decreases |s|
  {
    if s != [] && !p(s[0]) {
      FilterHeadIsFindFirst(p, s[1..]);
    }
  }

  // ---------------------------------------------------------------------------
  // Joining
  // ---------------------------------------------------------------------------

  /** `parts.join(sep)`. */
  function Join(parts: seq<string>, sep: string): (r: string)
    decreases |parts|
  {
    if parts == [] then ""
    else if |parts| == 1 then parts[0]
    else parts[0] + sep + Join(parts[1..], sep)
  }

  /** Joining a head and a non-empty tail puts one separator between them. */
  lemma JoinCons(head: string, tail: seq<string>, sep: string)
    requires tail != []
    ensures Join([head] + tail, sep) == head + sep + Join(tail, sep)
  {
    assert ([head] + tail)[1..] == tail;
  }

  function Concat<T>(rows: seq<seq<T>>): seq<T>
    decreases |rows|
  {
    if rows == [] then [] else rows[0] + Concat(rows[1..])
  }

  lemma {:induction false} ConcatAppend<T>(rows: seq<seq<T>>, last: seq<T>)
    ensures Concat(rows + [last]) == Concat(rows) + last
    decreases |rows|
  {
    if rows == [] {
      assert rows + [last] == [last];
    } else {
      ConcatAppend(rows[1..], last);
      assert (rows + [last])[1..] == rows[1..] + [last];
    }
  }
}
