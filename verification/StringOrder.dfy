/** Sorting a set of strings, as the program sorts argument keys and tool result ids. */
module StringOrder {

  /** Strings ordered by code points. */
  predicate Leq(a: string, b: string) {
    a == "" || (b != "" && (a[0] < b[0] || (a[0] == b[0] && Leq(a[1..], b[1..]))))
  }

  lemma {:induction false} LeqTotal(a: string, b: string)
    ensures Leq(a, b) || Leq(b, a)
  {
    if a != "" && b != "" && a[0] == b[0] {
      LeqTotal(a[1..], b[1..]);
    }
  }

  lemma {:induction false} LeqAntisymmetric(a: string, b: string)
    requires Leq(a, b) && Leq(b, a)
    ensures a == b
  {
    if a != "" && b != "" {
      LeqAntisymmetric(a[1..], b[1..]);
      assert a == [a[0]] + a[1..] && b == [b[0]] + b[1..];
    }
  }

  lemma {:induction false} LeqTransitive(a: string, b: string, c: string)
    requires Leq(a, b) && Leq(b, c)
    ensures Leq(a, c)
  {
    if a != "" && b != "" && c != "" && a[0] == b[0] == c[0] {
      LeqTransitive(a[1..], b[1..], c[1..]);
    }
  }

  /** `b` has the larger character at the first place where the two differ. */
  predicate DifferAt(a: string, b: string, k: nat) {
    k < |a| && k < |b| && a[..k] == b[..k] && a[k] < b[k]
  }

  /** It is the order by the first difference, a text coming before what it begins. */
  lemma {:induction false} LeqIff(a: string, b: string)
    ensures Leq(a, b) <==> a <= b || exists k: nat :: DifferAt(a, b, k)
  {
    if a != "" && b != "" {
      if a[0] == b[0] {
        LeqIff(a[1..], b[1..]);
        PrefixRest(a, b);
        if k: nat :| DifferAt(a[1..], b[1..], k) {
          DifferRest(a, b, k);
        }
        if k: nat :| DifferAt(a, b, k) {
          DifferRest(a, b, k - 1);
        }
      } else if a[0] < b[0] {
        assert DifferAt(a, b, 0);
      } else {
        assert forall k: nat :: DifferAt(a, b, k) ==> k == 0 || a[..k][0] == b[..k][0];
      }
    }
  }

  lemma PrefixRest(a: string, b: string)
    requires a != "" && b != "" && a[0] == b[0]
    ensures a <= b <==> a[1..] <= b[1..]
  {
    assert a == [a[0]] + a[1..] && b == [b[0]] + b[1..];
    if a[1..] <= b[1..] {
      assert b[..|a|] == [b[0]] + b[1..][..|a| - 1];
    }
  }

  lemma DifferRest(a: string, b: string, k: nat)
    requires a != "" && b != "" && a[0] == b[0]
    ensures DifferAt(a, b, k + 1) <==> DifferAt(a[1..], b[1..], k)
  {
    if k + 1 <= |a| && k + 1 <= |b| {
      assert a[..k + 1] == [a[0]] + a[1..][..k] && b[..k + 1] == [b[0]] + b[1..][..k];
    }
  }

  predicate IsLeast(keys: set<string>, k: string) {
    k in keys && forall j :: j in keys ==> Leq(k, j)
  }

  lemma {:induction false} LeastExists(keys: set<string>) returns (least: string)
    requires keys != {}
    ensures IsLeast(keys, least)
    decreases |keys|
  {
    var k :| k in keys;
    LeqTotal(k, k);
    if keys == {k} {
      least := k;
    } else {
      var others := keys - {k};
      var other := LeastExists(others);
      LeqTotal(k, other);
      least := if Leq(k, other) then k else other;
      forall j | j in keys ensures Leq(least, j) {
        if j != k {
          LeqTransitive(least, other, j);
        }
      }
    }
  }

  function Least(keys: set<string>): (k: string)
    requires keys != {}
    ensures IsLeast(keys, k)
  {
    assert exists k :: IsLeast(keys, k) by {
      var k := LeastExists(keys);
    }
    assert forall k, j :: IsLeast(keys, k) && IsLeast(keys, j) ==> k == j by {
      forall k, j | IsLeast(keys, k) && IsLeast(keys, j) ensures k == j {
        LeqAntisymmetric(k, j);
      }
    }
    var k :| k in keys && IsLeast(keys, k);
    k
  }

  /** The keys in ascending order. */
  function Sorted(keys: set<string>): seq<string> {
    if keys == {} then [] else [Least(keys)] + Sorted(keys - {Least(keys)})
  }

  lemma {:induction false} SortedHas(keys: set<string>, k: string)
    ensures k in Sorted(keys) <==> k in keys
  {
    if keys != {} {
      SortedHas(keys - {Least(keys)}, k);
    }
  }

  /** Sorted keys ascend, each at most once. */
  lemma {:induction false} SortedAscends(keys: set<string>, i: nat, j: nat)
    requires i < j < |Sorted(keys)|
    ensures Leq(Sorted(keys)[i], Sorted(keys)[j]) && Sorted(keys)[i] != Sorted(keys)[j]
  {
    var rest := keys - {Least(keys)};
    if i > 0 {
      SortedAscends(rest, i - 1, j - 1);
    } else {
      SortedHas(rest, Sorted(keys)[j]);
    }
  }
}
