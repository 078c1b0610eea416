/**
 * Stand-ins for the sources of nondeterminism the request planners use: the
 * iteration order of a Python set (`list(s)`), `random.sample` and
 * `random.shuffle`. Each is a method whose result is any value allowed by
 * its postcondition, picked with Dafny's nondeterministic `:|`.
 * (`random.choice` is a `:|` pick where it is used; the upload-side sample
 * and `randint` are explicit inputs.)
 */
module Draws {
  import opened Messages

  /** `list(s)`: the elements of `s`, each once, in an unspecified order. */
  method ListOfSet<T>(s: set<T>) returns (l: seq<T>)
    ensures |l| == |s| && Distinct(l)
    ensures forall x :: x in l <==> x in s
  {
    l := Sample(s, |s|);
  }

  /** `random.sample(s, k)`: `k` distinct elements of `s` in random order. */
  method Sample<T>(s: set<T>, k: nat) returns (l: seq<T>)
    requires k <= |s|
    ensures |l| == k && Distinct(l)
    ensures forall x :: x in l ==> x in s
    ensures k == |s| ==> forall x :: x in s ==> x in l
  {
    l := [];
    var rest := s;
    while |l| < k
      invariant |l| <= k
      invariant |l| + |rest| == |s|
      invariant Distinct(l)
      invariant forall x :: x in s <==> x in l || x in rest
      invariant forall x :: x in l ==> x !in rest
    {
      var x :| x in rest;
      l := l + [x];
      rest := rest - {x};
    }
  }

  /** `random.shuffle(l)`: a rearrangement of `l`. */
  method Shuffle<T>(l: seq<T>) returns (r: seq<T>)
    ensures multiset(r) == multiset(l) && |r| == |l|
    ensures Distinct(l) ==> Distinct(r)
  {
    r := [];
    var rest := l;
    while rest != []
      invariant multiset(r) + multiset(rest) == multiset(l)
      invariant |r| + |rest| == |l|
      invariant Distinct(l) ==> Distinct(r) && Distinct(rest) && forall x :: x in r ==> x !in rest
      decreases |rest|
    {
      var j :| 0 <= j < |rest|;
      var left := rest[..j] + rest[j + 1..];
      RemoveAt(rest, j);
      if Distinct(l) {
        DistinctSnoc(r, rest[j]);
      }
      r := r + [rest[j]];
      rest := left;
    }
  }

  /** Cutting out element `j` keeps the rest and, without duplicates, drops that element. */
  lemma RemoveAt<T>(s: seq<T>, j: nat)
    requires j < |s|
    ensures multiset(s) == multiset(s[..j] + s[j + 1..]) + multiset{s[j]}
    ensures forall x :: x in s[..j] + s[j + 1..] ==> x in s
    ensures Distinct(s) ==> Distinct(s[..j] + s[j + 1..]) && s[j] !in s[..j] + s[j + 1..]
  {
    var left := s[..j] + s[j + 1..];
    assert s == s[..j] + [s[j]] + s[j + 1..];
    if Distinct(s) {
      forall a, b | 0 <= a < b < |left| ensures left[a] != left[b] {
        var a' := if a < j then a else a + 1;
        var b' := if b < j then b else b + 1;
        assert left[a] == s[a'] && left[b] == s[b'];
      }
      forall a | 0 <= a < |left| ensures left[a] != s[j] {
        var a' := if a < j then a else a + 1;
        assert left[a] == s[a'];
      }
    }
  }

  /** Appending an element not yet present keeps a list duplicate-free. */
  lemma DistinctSnoc<T>(s: seq<T>, x: T)
    requires Distinct(s) && x !in s
    ensures Distinct(s + [x])
  {
    var t := s + [x];
    forall a, b | 0 <= a < b < |t| ensures t[a] != t[b] {
      assert t[a] == s[a] && s[a] in s;
      if b < |s| {
        assert t[b] == s[b];
      }
    }
  }
}
