/** Sequence operations the source takes from JavaScript's arrays: `filter`, and
    the first-occurrence order of `Array.from(new Set(...))`. */
module Seqs {

  /** `s.filter(p)`: the elements of `s` that satisfy `p`, in their original order. */
  function Filter<T>(s: seq<T>, p: T -> bool): (r: seq<T>)
    ensures |r| <= |s|
    ensures forall i :: 0 <= i < |r| ==> r[i] in s && p(r[i])
    ensures forall i :: 0 <= i < |s| && p(s[i]) ==> s[i] in r
  {
    if s == [] then [] else (if p(s[0]) then [s[0]] else []) + Filter(s[1..], p)
  }

  /** Filtering distributes over concatenation, so filtering never reorders. */
  lemma {:induction false} FilterConcat<T>(a: seq<T>, b: seq<T>, p: T -> bool)
    ensures Filter(a + b, p) == Filter(a, p) + Filter(b, p)
  {
    if a == [] {
      assert a + b == b;
    } else {
      assert (a + b)[1..] == a[1..] + b;
      FilterConcat(a[1..], b, p);
    }
  }

  /** Filtering one element keeps it exactly when it passes the test. */
  lemma FilterSingleton<T>(x: T, p: T -> bool)
    ensures Filter([x], p) == if p(x) then [x] else []
  {
    assert [x][1..] == [];
  }

  /** Filtering a sequence all of whose elements pass changes nothing. */
  lemma {:induction false} FilterAllPass<T>(s: seq<T>, p: T -> bool)
    requires forall x :: x in s ==> p(x)
    ensures Filter(s, p) == s
  {
    if s != [] {
      FilterAllPass(s[1..], p);
    }
  }

  /** Every occurrence of an element that passes is kept, and no other. */
  lemma {:induction false} FilterMultiplicity<T>(s: seq<T>, p: T -> bool, x: T)
    ensures multiset(Filter(s, p))[x] == if p(x) then multiset(s)[x] else 0
  {
    if s != [] {
      FilterMultiplicity(s[1..], p, x);
      assert s == [s[0]] + s[1..];
    }
  }

  /** Filtering by two tests that agree everywhere gives the same result. */
  lemma {:induction false} FilterEquivalent<T>(s: seq<T>, p: T -> bool, q: T -> bool)
    requires forall x :: p(x) == q(x)
    ensures Filter(s, p) == Filter(s, q)
  {
    if s != [] {
      FilterEquivalent(s[1..], p, q);
    }
  }

  /** `r` is obtained from `s` by deleting elements, keeping the order of the rest. */
  ghost predicate IsSubsequence<T>(r: seq<T>, s: seq<T>)
    decreases |s|
  {
    if r == [] then true
    else if s == [] then false
    else (r[0] == s[0] && IsSubsequence(r[1..], s[1..])) || IsSubsequence(r, s[1..])
  }

  lemma {:induction false} FilterIsSubsequence<T>(s: seq<T>, p: T -> bool)
    ensures IsSubsequence(Filter(s, p), s)
    decreases |s|
  {
    if s != [] {
      FilterIsSubsequence(s[1..], p);
      var rest := Filter(s[1..], p);
      if p(s[0]) {
        assert Filter(s, p) == [s[0]] + rest;
        assert ([s[0]] + rest)[1..] == rest;
      } else {
        assert Filter(s, p) == rest;
      }
    }
  }

  /** No element occurs twice. */
  predicate NoDuplicates<T(==)>(s: seq<T>) {
    forall i, j :: 0 <= i < j < |s| ==> s[i] != s[j]
  }

  /** The elements of `s` not in `seen`, each at its first occurrence, in order. */
  function DedupAfter<T(==)>(s: seq<T>, seen: set<T>): seq<T>
  {
    if s == [] then []
    else if s[0] in seen then DedupAfter(s[1..], seen)
    else [s[0]] + DedupAfter(s[1..], seen + {s[0]})
  }

  /** `DedupAfter` yields each element of `s` outside `seen` exactly once, and nothing else. */
  lemma {:induction false} DedupAfterCorrect<T>(s: seq<T>, seen: set<T>)
    ensures NoDuplicates(DedupAfter(s, seen))
    ensures forall i :: 0 <= i < |DedupAfter(s, seen)| ==>
      DedupAfter(s, seen)[i] in s && DedupAfter(s, seen)[i] !in seen
    ensures forall i :: 0 <= i < |s| && s[i] !in seen ==> s[i] in DedupAfter(s, seen)
  {
    if s != [] {
      var t := s[1..];
      if s[0] in seen {
        DedupAfterCorrect(t, seen);
        forall i | 0 <= i < |s| && s[i] !in seen ensures s[i] in DedupAfter(s, seen) {
          assert i > 0 && s[i] == t[i - 1];
        }
      } else {
        DedupAfterCorrect(t, seen + {s[0]});
        var rest := DedupAfter(t, seen + {s[0]});
        assert DedupAfter(s, seen) == [s[0]] + rest;
        forall i | 0 <= i < |s| && s[i] !in seen ensures s[i] in DedupAfter(s, seen) {
          if i > 0 && s[i] != s[0] {
            assert s[i] == t[i - 1];
          }
        }
      }
    }
  }

  /** `Array.from(new Set(s))`: first occurrences, in order. */
  function Dedup<T(==)>(s: seq<T>): (r: seq<T>)
    ensures NoDuplicates(r)
    ensures forall i :: 0 <= i < |r| ==> r[i] in s
    ensures forall i :: 0 <= i < |s| ==> s[i] in r
  {
    DedupAfterCorrect(s, {});
    DedupAfter(s, {})
  }

  /** The set of elements of a sequence. */
  function Elements<T>(s: seq<T>): set<T> {
    set x | x in s
  }

  /** A duplicate-free prefix of fresh elements survives deduplication unchanged. */
  lemma {:induction false} DedupKeepsDistinctPrefix<T>(a: seq<T>, b: seq<T>, seen: set<T>)
    requires NoDuplicates(a)
    requires forall i :: 0 <= i < |a| ==> a[i] !in seen
    ensures DedupAfter(a + b, seen) == a + DedupAfter(b, seen + Elements(a))
  {
    if a == [] {
      assert a + b == b;
      assert Elements(a) == {};
      assert seen + Elements(a) == seen;
    } else {
      var t := a[1..];
      assert a == [a[0]] + t;
      assert (a + b)[0] == a[0];
      assert (a + b)[1..] == t + b;
      assert NoDuplicates(t);
      assert forall i :: 0 <= i < |t| ==> t[i] !in seen + {a[0]} by {
        forall i | 0 <= i < |t| ensures t[i] !in seen + {a[0]} {
          assert t[i] == a[i + 1];
        }
      }
      DedupKeepsDistinctPrefix(t, b, seen + {a[0]});
      assert Elements(a) == {a[0]} + Elements(t);
      assert seen + {a[0]} + Elements(t) == seen + Elements(a);
      assert DedupAfter(a + b, seen) == [a[0]] + DedupAfter(t + b, seen + {a[0]});
    }
  }

  /** Appending one element adds it to the deduplicated sequence exactly when it
      is new. */
  lemma {:induction false} DedupAfterAppend<T>(s: seq<T>, x: T, seen: set<T>)
    ensures DedupAfter(s + [x], seen) ==
      DedupAfter(s, seen) + (if x in seen || x in s then [] else [x])
  {
    if s == [] {
      assert s + [x] == [x];
    } else {
      assert (s + [x])[0] == s[0];
      assert (s + [x])[1..] == s[1..] + [x];
      assert x in s <==> x == s[0] || x in s[1..];
      if s[0] in seen {
        DedupAfterAppend(s[1..], x, seen);
      } else {
        DedupAfterAppend(s[1..], x, seen + {s[0]});
      }
    }
  }

  /** `Array.from(new Set(s))` keeps first-occurrence order: a later element is
      appended exactly when it has not been seen before. */
  lemma {:induction false} DedupSnoc<T>(s: seq<T>, x: T)
    ensures Dedup(s + [x]) == Dedup(s) + (if x in s then [] else [x])
  {
    DedupAfterAppend(s, x, {});
  }
}
