/** Small failure-aware datatypes shared by every component. */
module Common {
  datatype Option<+T> = None | Some(value: T)

  datatype Result<+T, +E> = Ok(value: T) | Err(error: E)

  // One element out of a sequence, which leaves the others.
  lemma TakeOut<T>(s: seq<T>, i: nat) returns (rest: seq<T>)
    requires i < |s|
    ensures multiset(s) == multiset{s[i]} + multiset(rest)
    ensures forall j :: 0 <= j < |s| && j != i ==> s[j] in rest
  {
    rest := s[..i] + s[i + 1..];
    assert s == s[..i] + [s[i]] + s[i + 1..];
    forall j | 0 <= j < |s| && j != i ensures s[j] in rest {
      assert s[j] == rest[if j < i then j else j - 1];
    }
  }

  lemma SameMap<K, V>(a: map<K, V>, b: map<K, V>)
    requires a.Keys == b.Keys && forall k :: k in a ==> a[k] == b[k]
    ensures a == b
  {
  }

  /******* Facts about products that the solver should not have to find twice *******/

  lemma NonNegative(x: real, y: real)
    requires x >= 0.0 && y >= 0.0
    ensures x * y >= 0.0
  {
  }

  lemma ProductPositive(x: real, y: real)
    requires x > 0.0 && y > 0.0
    ensures x * y > 0.0
  {
  }

  lemma PositiveQuotient(x: real, y: real)
    requires x > 0.0 && y > 0.0
    ensures x / y > 0.0 && (x / y) * y == x
  {
  }

  lemma Scaled(k: nat, m: nat)
    ensures k * m >= 0
  {
  }
}
