/** The naming ledger the generator threads through every emission
    (`Scope.getName(key, preferredName)`). The implementation of `Scope` is
    not part of this model; this one keeps a map from key to identifier and
    satisfies the two facts the generator relies on: a key keeps its first
    identifier, and distinct keys never share one. */
module Naming {
  import opened TextUtil

  /** Key -> emitted identifier. */
  type Names = map<string, string>

  /** A piece of generated text together with the ledger after producing it. */
  datatype Out = Out(text: string, names: Names)

  ghost predicate Injective(names: Names)
  {
    forall k1, k2 :: k1 in names && k2 in names && k1 != k2 ==> names[k1] != names[k2]
  }

  /** `later` keeps every identifier `earlier` had assigned. */
  ghost predicate Extends(earlier: Names, later: Names)
  {
    forall k :: k in earlier ==> k in later && later[k] == earlier[k]
  }

  lemma ExtendsTransitive(a: Names, b: Names, c: Names)
    requires Extends(a, b) && Extends(b, c)
    ensures Extends(a, c)
  {
  }

  /** The n-th identifier tried for a preferred name: `name`, `name_1`, `name_2`, ... */
  function Candidate(preferred: string, n: nat): string
  {
    if n == 0 then preferred else preferred + "_" + Digits(n)
  }

  lemma CandidateInjective(preferred: string, a: nat, b: nat)
    requires Candidate(preferred, a) == Candidate(preferred, b)
    ensures a == b
  {
    var ca, cb := Candidate(preferred, a), Candidate(preferred, b);
    if a != 0 && b != 0 {
      assert ca[|preferred| + 1..] == Digits(a);
      assert cb[|preferred| + 1..] == Digits(b);
      DigitsInjective(a, b);
    }
  }

  function CandidatesBelow(preferred: string, n: nat): (s: set<string>)
    ensures forall j :: 0 <= j < n ==> Candidate(preferred, j) in s
  {
    if n == 0 then {} else CandidatesBelow(preferred, n - 1) + {Candidate(preferred, n - 1)}
  }

  lemma {:induction false} CandidatesBelowSize(preferred: string, n: nat)
    ensures |CandidatesBelow(preferred, n)| == n
    ensures forall m :: m >= n ==> Candidate(preferred, m) !in CandidatesBelow(preferred, n)
  {
    if n > 0 {
      CandidatesBelowSize(preferred, n - 1);
      forall m | m >= n - 1 && Candidate(preferred, m) == Candidate(preferred, n - 1)
        ensures m == n - 1
      {
        CandidateInjective(preferred, m, n - 1);
      }
    }
  }

  lemma SubsetSize<T>(a: set<T>, b: set<T>)
    requires a <= b
    ensures |a| <= |b|
  {
    assert b == a + (b - a);
  }

  /** The first candidate index at or after `n` that is not yet used. */
  function FreeIndex(used: set<string>, preferred: string, n: nat): (k: nat)
    requires CandidatesBelow(preferred, n) <= used
    ensures k >= n && Candidate(preferred, k) !in used
    ensures forall j :: n <= j < k ==> Candidate(preferred, j) in used
    decreases |used| - n
  {
    if Candidate(preferred, n) !in used then n
    else
      CandidatesBelowSize(preferred, n + 1);
      SubsetSize(CandidatesBelow(preferred, n + 1), used);
      FreeIndex(used, preferred, n + 1)
  }

  /** What `getName(key, preferred)` returns and the ledger afterwards. */
  function NameFor(names: Names, key: string, preferred: string): (r: Out)
    ensures key in names ==> r == Out(names[key], names)
    ensures key in r.names && r.names[key] == r.text
    ensures key !in names ==> r.names == names[key := r.text] && r.text !in names.Values
    ensures key !in names && preferred !in names.Values ==> r.text == preferred
    ensures Extends(names, r.names)
    ensures Injective(names) ==> Injective(r.names)
  {
    if key in names then Out(names[key], names)
    else
      var name := Candidate(preferred, FreeIndex(names.Values, preferred, 0));
      Out(name, names[key := name])
  }

  /** Asking again for a key already named never changes the answer, whatever
      preferred name is passed. */
  lemma NameStable(names: Names, key: string, p1: string, p2: string)
    ensures NameFor(NameFor(names, key, p1).names, key, p2) == NameFor(names, key, p1)
  {
  }

  /** Two distinct keys named one after the other get distinct identifiers. */
  lemma NamesDistinct(names: Names, k1: string, p1: string, k2: string, p2: string)
    requires Injective(names)
    requires k1 != k2
    ensures NameFor(NameFor(names, k1, p1).names, k2, p2).text != NameFor(names, k1, p1).text
  {
    var first := NameFor(names, k1, p1);
    var second := NameFor(first.names, k2, p2);
    assert second.names[k1] == first.text;
  }

  class Scope {
    var names: Names

    ghost predicate Valid()
      reads this
    {
      Injective(names)
    }

    constructor ()
      ensures Valid() && names == map[]
    {
      names := map[];
    }

    method GetName(key: string, preferred: string) returns (name: string)
      requires Valid()
      modifies this
      ensures Valid()
      ensures Out(name, names) == NameFor(old(names), key, preferred)
    {
      if key in names {
        return names[key];
      }
      var used := names.Values;
      var n := 0;
      while Candidate(preferred, n) in used
        invariant names == old(names)
        invariant CandidatesBelow(preferred, n) <= used
        invariant FreeIndex(used, preferred, n) == FreeIndex(used, preferred, 0)
        decreases |used| - n
      {
        CandidatesBelowSize(preferred, n + 1);
        SubsetSize(CandidatesBelow(preferred, n + 1), used);
        n := n + 1;
      }
      assert FreeIndex(used, preferred, n) == n;
      name := Candidate(preferred, n);
      names := names[key := name];
    }
  }
}
