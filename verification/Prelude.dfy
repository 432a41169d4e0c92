/** Small shared vocabulary: optional values and results, filtered sequences, first matches, distinct sequences. */
module Prelude {

  datatype Option<+T> = None | Some(value: T)

  datatype Result<+T, +E> = Ok(value: T) | Err(error: E)

  function Min(a: int, b: int): int { if a <= b then a else b }

  function Max(a: int, b: int): int { if a >= b then a else b }

  /** JavaScript's Number.isSafeInteger for an integral value. */
  predicate SafeInt(x: int) { -9007199254740991 <= x <= 9007199254740991 }

  // ── Filter and map in one pass ─────────────────────────────────────────────

  /** Keeps f's values, in order, for the elements f accepts. */
  function Collect<A, B>(f: A -> Option<B>, s: seq<A>): seq<B>
  {
    if s == [] then []
    else Collect(f, s[..|s| - 1]) + (if f(s[|s| - 1]).Some? then [f(s[|s| - 1]).value] else [])
  }

  lemma CollectStep<A, B>(f: A -> Option<B>, s: seq<A>, i: nat)
    requires i < |s|
    ensures Collect(f, s[..i + 1]) == Collect(f, s[..i]) + (if f(s[i]).Some? then [f(s[i]).value] else [])
  {
    assert s[..i + 1][..i] == s[..i];
  }

  lemma {:induction false} CollectMembers<A, B>(f: A -> Option<B>, s: seq<A>)
    ensures forall b :: b in Collect(f, s) <==> exists a :: a in s && f(a) == Some(b)
  {
    if s != [] {
      var n := |s| - 1;
      CollectMembers(f, s[..n]);
      assert s == s[..n] + [s[n]];
      forall b
        ensures b in Collect(f, s) <==> exists a :: a in s && f(a) == Some(b)
      {
        if b in Collect(f, s[..n]) {
          var a :| a in s[..n] && f(a) == Some(b);
          assert a in s;
        }
        if a :| a in s && f(a) == Some(b) {
          assert a in s[..n] || a == s[n];
        }
      }
    }
  }

  // ── First match ────────────────────────────────────────────────────────────

  /** The index of the first element p accepts, or the length when there is none. */
  function First<A>(p: A -> bool, s: seq<A>): nat
  {
    if s == [] || p(s[0]) then 0 else 1 + First(p, s[1..])
  }

  lemma {:induction false} FirstSpec<A>(p: A -> bool, s: seq<A>)
    ensures First(p, s) <= |s| && (First(p, s) < |s| ==> p(s[First(p, s)]))
    ensures forall j :: 0 <= j < First(p, s) ==> !p(s[j])
  {
    if s != [] && !p(s[0]) {
      FirstSpec(p, s[1..]);
      forall j | 0 <= j < First(p, s)
        ensures !p(s[j])
      {
        if j > 0 {
          assert s[j] == s[1..][j - 1];
        }
      }
    }
  }

  // ── Distinct sequences ─────────────────────────────────────────────────────

  predicate Distinct<T(==)>(s: seq<T>)
  {
    forall i, j :: 0 <= i < j < |s| ==> s[i] != s[j]
  }

  function Elements<T>(s: seq<T>): set<T> { set x | x in s }

  lemma DistinctAppend<T>(s: seq<T>, x: T)
    ensures Distinct(s + [x]) <==> Distinct(s) && x !in s
  {
    var t := s + [x];
    if Distinct(t) {
      forall i, j | 0 <= i < j < |s|
        ensures s[i] != s[j]
      {
        assert t[i] == s[i] && t[j] == s[j];
      }
      forall i | 0 <= i < |s|
        ensures s[i] != x
      {
        assert t[i] != t[|s|];
      }
    }
  }

  lemma {:induction false} DistinctCount<T>(s: seq<T>)
    requires Distinct(s)
    ensures |Elements(s)| == |s|
  {
    if s != [] {
      var n := |s| - 1;
      DistinctCount(s[..n]);
      assert s == s[..n] + [s[n]];
      assert Elements(s) == Elements(s[..n]) + {s[n]};
    }
  }

  lemma {:induction false} ElementsBound<T>(s: seq<T>)
    ensures |Elements(s)| <= |s|
  {
    if s != [] {
      var n := |s| - 1;
      ElementsBound(s[..n]);
      assert s == s[..n] + [s[n]];
      assert Elements(s) == Elements(s[..n]) + {s[n]};
    }
  }

  /** A distinct sequence inside a set, of the set's size, lists exactly that set. */
  lemma Pigeonhole<T>(s: seq<T>, u: set<T>)
    requires Distinct(s) && Elements(s) <= u
    ensures |s| <= |u|
    ensures |s| == |u| ==> Elements(s) == u
  {
    DistinctCount(s);
    SubsetSize(Elements(s), u);
  }

  lemma {:induction false} SubsetSize<T>(a: set<T>, b: set<T>)
    requires a <= b
    ensures |a| <= |b|
    ensures |a| == |b| ==> a == b
    decreases a
  {
    if a != {} {
      var x :| x in a;
      SubsetSize(a - {x}, b - {x});
    }
  }
}
