/** The check of `applyKeyRotation` that an operatorship transfer matches the next key. */
module KeyRotation {
  type Address = string

  datatype Verdict = Accepted | Rejected | Panicked

  /** `operators` lists every key of `expected` once, with its weight beside it. */
  ghost predicate Enumerates(operators: seq<Address>, weights: seq<nat>, expected: map<Address, nat>) {
    && (forall i, j :: 0 <= i < j < |operators| ==> operators[i] != operators[j])
    && (forall a :: a in operators <==> a in expected)
    && (forall i :: 0 <= i < |operators| ==> i < |weights| && operators[i] in expected && weights[i] == expected[operators[i]])
  }

  /** The loop passes its first `n` operators. */
  ghost predicate Matches(operators: seq<Address>, weights: seq<nat>, expected: map<Address, nat>, n: nat)
    requires n <= |operators|
  {
    && n <= |weights|
    && (forall i, j :: 0 <= i < j < n ==> operators[i] != operators[j])
    && (forall i :: 0 <= i < n ==> operators[i] in expected && weights[i] == expected[operators[i]])
  }

  ghost function Elements(s: seq<Address>): set<Address> {
    set a | a in s
  }

  /** A list without repetition has as many elements as positions. */
  lemma {:induction false} DistinctCount(s: seq<Address>)
    requires forall i, j :: 0 <= i < j < |s| ==> s[i] != s[j]
    ensures |Elements(s)| == |s|
  {
    if s != [] {
      var front := s[..|s| - 1];
      DistinctCount(front);
      assert Elements(s) == Elements(front) + {s[|s| - 1]};
    }
  }

  /** Same size and no repetition: a list inside a set covers it. */
  lemma CoversBySize(s: seq<Address>, whole: set<Address>)
    requires (forall i, j :: 0 <= i < j < |s| ==> s[i] != s[j]) && |s| == |whole|
    requires forall i :: 0 <= i < |s| ==> s[i] in whole
    ensures forall a :: a in whole ==> a in s
  {
    DistinctCount(s);
    SubsetOfSameSize(Elements(s), whole);
  }

  lemma {:induction false} SubsetOfSameSize(x: set<Address>, y: set<Address>)
    requires x <= y && |x| == |y|
    ensures x == y
  {
    if x != {} {
      var a :| a in x;
      SubsetOfSameSize(x - {a}, y - {a});
    }
  }

  lemma CountOfEnumeration(s: seq<Address>, whole: set<Address>)
    requires (forall i, j :: 0 <= i < j < |s| ==> s[i] != s[j]) && (forall a :: a in s <==> a in whole)
    ensures |s| == |whole|
  {
    DistinctCount(s);
    assert Elements(s) == whole;
  }

  /**
    Accepted exactly for an enumeration of the whole key, in any order, with the
    same threshold; a weight list that is too short panics only when the loop
    reaches it.
   */
  method CheckRotation(operators: seq<Address>, weights: seq<nat>, threshold: nat,
                       expected: map<Address, nat>, expectedThreshold: nat) returns (v: Verdict)
    ensures v == Accepted <==> Enumerates(operators, weights, expected) && threshold == expectedThreshold
    ensures v == Panicked <==>
      var n := |weights|;
      && n < |operators| == |expected| && Matches(operators, weights, expected, n)
      && operators[n] in expected && operators[n] !in operators[..n]
  {
    if |operators| != |expected| {
      if Enumerates(operators, weights, expected) {
        CountOfEnumeration(operators, expected.Keys);
      }
      return Rejected;
    }
    var seen: set<Address> := {};
    var i := 0;
    while i < |operators|
      invariant i <= |operators| && seen == Elements(operators[..i]) && Matches(operators, weights, expected, i)
    {
      var a := operators[i];
      if a in seen {
        var j :| 0 <= j < i && operators[..i][j] == a;
        assert operators[j] == operators[i];
        return Rejected;
      }
      seen := seen + {a};
      if a !in expected {
        assert a in operators;
        return Rejected;
      }
      if i >= |weights| {
        return Panicked;
      }
      if weights[i] != expected[a] {
        return Rejected;
      }
      assert operators[..i + 1] == operators[..i] + [a];
      i := i + 1;
    }
    CoversBySize(operators, expected.Keys);
    if threshold != expectedThreshold {
      return Rejected;
    }
    return Accepted;
  }
}
