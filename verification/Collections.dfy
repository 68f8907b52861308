/** Small shared vocabulary: optional values, total map lookup, and the few facts
about finite sets and sequences that several components need. */
module Collections {

  datatype Option<+T> = None | Some(value: T)

  datatype Result<+T, +E> = Success(value: T) | Failure(error: E)

  /** Lookup with a default, as Python's `d.get(k, default)`. */
  function Get<K, V>(m: map<K, V>, k: K, default: V): V {
    if k in m then m[k] else default
  }

  ghost predicate Distinct<T>(s: seq<T>) {
    forall i, j :: 0 <= i < j < |s| ==> s[i] != s[j]
  }

  ghost function Elements<T>(s: seq<T>): set<T> {
    set x | x in s
  }

  lemma ElementsOfLast<T>(s: seq<T>)
    requires s != []
    ensures var front, last := s[..|s| - 1], s[|s| - 1];
      |Elements(s)| == |Elements(front)| + (if last in front then 0 else 1)
  {
    var front, last := s[..|s| - 1], s[|s| - 1];
    assert s == front + [last];
    assert Elements(s) == Elements(front) + {last};
  }

  lemma SubsetCardinality<T>(a: set<T>, b: set<T>)
    requires a <= b
    ensures |a| <= |b|
    ensures |a| == |b| ==> a == b
  {
    assert b == a + (b - a);
  }

  /** The integers `0 .. n-1` as a set. */
  function Range(n: nat): (r: set<int>)
    ensures forall i :: i in r <==> 0 <= i < n
    ensures |r| == n
  {
    if n == 0 then {} else Range(n - 1) + {n - 1}
  }

  /** The elements of a sequence, keeping only the first occurrence of each. */
  function Dedup<T(==)>(s: seq<T>): seq<T> {
    if s == [] then []
    else
      var d := Dedup(s[..|s| - 1]);
      if s[|s| - 1] in d then d else d + [s[|s| - 1]]
  }

  lemma {:induction false} DedupKeepsElements<T>(s: seq<T>)
    ensures Distinct(Dedup(s))
    ensures forall x :: x in Dedup(s) <==> x in s
  {
    if s != [] {
      var front := s[..|s| - 1];
      DedupKeepsElements(front);
      assert s == front + [s[|s| - 1]];
    }
  }

  /** The elements of `d` stand in the order in which they first occur in `s`. */
  ghost predicate InOrderOf<T>(d: seq<T>, s: seq<T>) {
    forall i, j, b :: 0 <= i < j < |d| && 0 <= b < |s| && s[b] == d[j] ==> d[i] in s[..b]
  }

  lemma {:induction false} DedupInOrder<T>(s: seq<T>)
    ensures InOrderOf(Dedup(s), s)
  {
    if s != [] {
      DedupInOrder(s[..|s| - 1]);
      DedupKeepsElements(s[..|s| - 1]);
      InOrderMore(Dedup(s[..|s| - 1]), s[..|s| - 1], s[|s| - 1]);
      assert s == s[..|s| - 1] + [s[|s| - 1]];
    }
  }

  lemma InOrderMore<T>(d: seq<T>, s: seq<T>, x: T)
    requires InOrderOf(d, s) && forall y :: y in d <==> y in s
    ensures x in d ==> InOrderOf(d, s + [x])
    ensures x !in d ==> InOrderOf(d + [x], s + [x])
  {
    var t, e := s + [x], if x in d then d else d + [x];
    forall i, j, b | 0 <= i < j < |e| && 0 <= b < |t| && t[b] == e[j]
      ensures e[i] in t[..b]
    {
      assert e[i] == d[i];
      assert d[i] in d;
      if b == |s| {
        assert t[..b] == s;
      } else {
        assert t[..b] == s[..b] && s[b] in s;
      }
    }
  }

  lemma DedupMore<T>(s: seq<T>, x: T)
    ensures Dedup(s + [x]) == if x in Dedup(s) then Dedup(s) else Dedup(s) + [x]
  {
    assert (s + [x])[..|s|] == s;
  }

  function FlatMap<A, B>(f: A -> seq<B>, s: seq<A>): seq<B> {
    if s == [] then [] else FlatMap(f, s[..|s| - 1]) + f(s[|s| - 1])
  }

  /** Mapping a joined sequence joins the mapped ones, and one element maps to its own. */
  lemma {:induction false} FlatMapAppend<A, B>(f: A -> seq<B>, s: seq<A>, t: seq<A>)
    ensures FlatMap(f, s + t) == FlatMap(f, s) + FlatMap(f, t)
    ensures forall a :: FlatMap(f, [a]) == f(a)
  {
    forall a
      ensures FlatMap(f, [a]) == f(a)
    {
      assert [a][..0] == [];
    }
    if t == [] {
      assert s + t == s;
    } else {
      FlatMapAppend(f, s, t[..|t| - 1]);
      assert (s + t)[..|s + t| - 1] == s + t[..|t| - 1];
    }
  }

  /** The members are those that some element maps to. */
  lemma {:induction false} FlatMapMember<A, B>(f: A -> seq<B>, s: seq<A>, b: B)
    ensures b in FlatMap(f, s) <==> exists a :: a in s && b in f(a)
  {
    if s != [] {
      var front, last := s[..|s| - 1], s[|s| - 1];
      FlatMapMember(f, front, b);
      assert s == front + [last];
    }
  }

  lemma {:induction false} FlatMapIncludes<A, B>(f: A -> seq<B>, s: seq<A>, t: seq<A>)
    requires forall a :: a in s ==> a in t
    ensures forall b :: b in FlatMap(f, s) ==> b in FlatMap(f, t)
  {
    if s != [] {
      var front, last := s[..|s| - 1], s[|s| - 1];
      assert s == front + [last];
      FlatMapIncludes(f, front, t);
      FlatMapHolds(f, t, last);
    }
  }

  lemma {:induction false} FlatMapHolds<A, B>(f: A -> seq<B>, s: seq<A>, a: A)
    requires a in s
    ensures forall b :: b in f(a) ==> b in FlatMap(f, s)
  {
    var front, last := s[..|s| - 1], s[|s| - 1];
    assert s == front + [last];
    if a in front {
      FlatMapHolds(f, front, a);
    }
  }

  /** Mapping over the same elements gives the same elements. */
  lemma FlatMapMembers<A, B>(f: A -> seq<B>, s: seq<A>, t: seq<A>)
    requires forall a :: a in s <==> a in t
    ensures forall b :: b in FlatMap(f, s) <==> b in FlatMap(f, t)
  {
    FlatMapIncludes(f, s, t);
    FlatMapIncludes(f, t, s);
  }
}
