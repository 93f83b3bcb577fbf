/**
 * The `test_collation` collating function of tests/test_collation.rs: two
 * texts compare as their byte strings read backwards, so text is ordered by
 * its last byte first.
 */
module Collation {
  import opened Wrappers

  /** The bytes of `s` in reverse order. */
  function Reversed(s: seq<Byte>): (r: seq<Byte>)
    ensures |r| == |s|
    ensures forall k :: 0 <= k < |s| ==> r[k] == s[|s| - 1 - k]
  {
    if |s| == 0 then [] else [s[|s| - 1]] + Reversed(s[..|s| - 1])
  }

  /** Reversing twice gives the bytes back, so distinct texts have distinct reversals. */
  lemma ReversedTwice(s: seq<Byte>)
    ensures Reversed(Reversed(s)) == s
  {
  }

  /**
   * `Ord::cmp` on byte slices, as -1, 0 or 1: the first differing byte
   * decides, and a proper prefix comes first.
   */
  function LexCompare(a: seq<Byte>, b: seq<Byte>): (c: int)
    ensures c in {-1, 0, 1}
  {
    if |a| == 0 && |b| == 0 then 0
    else if |a| == 0 then -1
    else if |b| == 0 then 1
    else if a[0] < b[0] then -1
    else if a[0] > b[0] then 1
    else LexCompare(a[1..], b[1..])
  }

  /** `compare`: the byte-wise comparison of the reversed texts. */
  function Compare(a: seq<Byte>, b: seq<Byte>): (c: int)
    ensures c in {-1, 0, 1}
  {
    LexCompare(Reversed(a), Reversed(b))
  }

  /** `a` comes before `b` at position `k`: equal up to `k`, then `a` ends or has the smaller byte. */
  predicate PrecedesAt(a: seq<Byte>, b: seq<Byte>, k: nat)
  {
    && k <= |a| && k <= |b| && a[..k] == b[..k]
    && ((k == |a| && k < |b|) || (k < |a| && k < |b| && a[k] < b[k]))
  }

  /** Past a common first byte, preceding at `k` is preceding the tails at `k - 1`. */
  lemma PrecedesShift(a: seq<Byte>, b: seq<Byte>, k: nat)
    requires |a| > 0 && |b| > 0 && a[0] == b[0] && k >= 1
    ensures PrecedesAt(a, b, k) <==> PrecedesAt(a[1..], b[1..], k - 1)
  {
    if k <= |a| && k <= |b| {
      assert a[..k] == [a[0]] + a[1..][..k - 1];
      assert b[..k] == [b[0]] + b[1..][..k - 1];
    }
  }

  /** The comparison says "less" exactly when the textbook definition of lexicographic order does. */
  lemma {:induction false} LessIff(a: seq<Byte>, b: seq<Byte>)
    ensures LexCompare(a, b) == -1 <==> exists k: nat :: PrecedesAt(a, b, k)
  {
    if |a| > 0 && |b| > 0 && a[0] == b[0] {
      LessIff(a[1..], b[1..]);
      forall k: nat | k >= 1
        ensures PrecedesAt(a, b, k) <==> PrecedesAt(a[1..], b[1..], k - 1)
      {
        PrecedesShift(a, b, k);
      }
      assert !PrecedesAt(a, b, 0);
      if exists k: nat :: PrecedesAt(a[1..], b[1..], k) {
        var k: nat :| PrecedesAt(a[1..], b[1..], k);
        assert PrecedesAt(a, b, k + 1);
      }
    } else if |a| > 0 && |b| > 0 {
      if a[0] < b[0] {
        assert PrecedesAt(a, b, 0);
      } else {
        forall k: nat
          ensures !PrecedesAt(a, b, k)
        {
          if 0 < k <= |a| && k <= |b| {
            assert a[..k][0] == a[0] && b[..k][0] == b[0];
          }
        }
      }
    } else if |a| == 0 && |b| > 0 {
      assert PrecedesAt(a, b, 0);
    }
  }

  /** The comparison is 0 exactly for equal byte strings. */
  lemma {:induction false} LexEqualIff(a: seq<Byte>, b: seq<Byte>)
    ensures LexCompare(a, b) == 0 <==> a == b
  {
    if |a| > 0 && |b| > 0 && a[0] == b[0] {
      LexEqualIff(a[1..], b[1..]);
      assert a == [a[0]] + a[1..] && b == [b[0]] + b[1..];
    } else if |a| > 0 && |b| > 0 {
      assert a[0] != b[0];
    }
  }

  /** Swapping the arguments negates the comparison. */
  lemma {:induction false} LexAntisymmetric(a: seq<Byte>, b: seq<Byte>)
    ensures LexCompare(a, b) == -LexCompare(b, a)
  {
    if |a| > 0 && |b| > 0 && a[0] == b[0] {
      LexAntisymmetric(a[1..], b[1..]);
    }
  }

  /** "Less than" is transitive. */
  lemma {:induction false} LexTransitive(a: seq<Byte>, b: seq<Byte>, c: seq<Byte>)
    requires LexCompare(a, b) == -1 && LexCompare(b, c) == -1
    ensures LexCompare(a, c) == -1
  {
    if |a| > 0 && |b| > 0 && |c| > 0 && a[0] == b[0] && b[0] == c[0] {
      LexTransitive(a[1..], b[1..], c[1..]);
    }
  }

  /** `compare` is 0 exactly for equal texts. */
  lemma CompareEqualIff(a: seq<Byte>, b: seq<Byte>)
    ensures Compare(a, b) == 0 <==> a == b
  {
    LexEqualIff(Reversed(a), Reversed(b));
    ReversedTwice(a);
    ReversedTwice(b);
  }

  /** `compare` is antisymmetric. */
  lemma CompareAntisymmetric(a: seq<Byte>, b: seq<Byte>)
    ensures Compare(a, b) == -Compare(b, a)
  {
    LexAntisymmetric(Reversed(a), Reversed(b));
  }

  /** `compare` is transitive, so with the two lemmas above it is a total order. */
  lemma CompareTransitive(a: seq<Byte>, b: seq<Byte>, c: seq<Byte>)
    requires Compare(a, b) == -1 && Compare(b, c) == -1
    ensures Compare(a, c) == -1
  {
    LexTransitive(Reversed(a), Reversed(b), Reversed(c));
  }

  /** Of two texts of equal length, the one with the smaller last byte comes first. */
  lemma LastByteDecides(a: seq<Byte>, b: seq<Byte>)
    requires |a| == |b| > 0 && a[|a| - 1] < b[|b| - 1]
    ensures Compare(a, b) == -1
  {
    assert Reversed(a)[0] == a[|a| - 1];
    assert Reversed(b)[0] == b[|b| - 1];
  }

  /** The test's order: "zzza" before "yyyb" before "xxxc", by their last bytes a < b < c. */
  lemma TestOrder(zzza: seq<Byte>, yyyb: seq<Byte>, xxxc: seq<Byte>)
    requires zzza == [122, 122, 122, 97] && yyyb == [121, 121, 121, 98] && xxxc == [120, 120, 120, 99]
    ensures Compare(zzza, yyyb) == -1 && Compare(yyyb, xxxc) == -1 && Compare(zzza, xxxc) == -1
  {
    LastByteDecides(zzza, yyyb);
    LastByteDecides(yyyb, xxxc);
    CompareTransitive(zzza, yyyb, xxxc);
  }
}
