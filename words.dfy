/**
 * Lists of words: occurrence counts, first occurrence, and the distinct words
 * in first-seen order that `Array.from(new Set(list))` produces.
 */
module Words {

  /** The number of positions of `s` holding `w`. */
  function Count(s: seq<string>, w: string): nat
  {
    if |s| == 0 then 0
    else Count(s[..|s| - 1], w) + (if s[|s| - 1] == w then 1 else 0)
  }

  lemma {:induction false} CountPositive(s: seq<string>, w: string)
    ensures Count(s, w) > 0 <==> w in s
  {
    if |s| > 0 {
      CountPositive(s[..|s| - 1], w);
      assert s == s[..|s| - 1] + [s[|s| - 1]];
    }
  }

  /** The position of the first occurrence of `x` in `s`. */
  function FirstIndex(s: seq<string>, x: string): (k: nat)
    requires x in s
    ensures k < |s| && s[k] == x && x !in s[..k]
  {
    if s[0] == x then 0
    else
      assert x in s[1..];
      var k := 1 + FirstIndex(s[1..], x);
      assert s[..k] == [s[0]] + s[1..][..k - 1];
      k
  }

  /** The first occurrence of `x` does not move when `s` is extended at the end. */
  lemma {:induction false} FirstIndexOfPrefix(s: seq<string>, m: nat, x: string)
    requires m <= |s| && x in s[..m]
    ensures FirstIndex(s, x) == FirstIndex(s[..m], x)
  {
    var j := FirstIndex(s[..m], x);
    assert s[..m][j] == s[j];
  }

  ghost predicate NoDuplicates(s: seq<string>)
  {
    forall i, j :: 0 <= i < j < |s| ==> s[i] != s[j]
  }

  /**
   * The distinct words of `s`, each kept at its first occurrence, as a JavaScript
   * `Set` built from `s` enumerates them (insertion order).
   */
  function Distinct(s: seq<string>): (r: seq<string>)
    ensures forall x :: x in r <==> x in s
    ensures NoDuplicates(r)
    ensures |r| <= |s|
  {
    if |s| == 0 then []
    else
      var d := Distinct(s[..|s| - 1]);
      assert s == s[..|s| - 1] + [s[|s| - 1]];
      if s[|s| - 1] in d then d else d + [s[|s| - 1]]
  }

  /** `Distinct` lists the words in the order of their first occurrence in `s`. */
  lemma {:induction false} DistinctInFirstSeenOrder(s: seq<string>)
    ensures forall i, j :: 0 <= i < j < |Distinct(s)| ==>
      FirstIndex(s, Distinct(s)[i]) < FirstIndex(s, Distinct(s)[j])
  {
    if |s| > 0 {
      var n := |s| - 1;
      var p := s[..n];
      var d, r := Distinct(p), Distinct(s);
      DistinctInFirstSeenOrder(p);
      forall x | x in d ensures FirstIndex(s, x) == FirstIndex(p, x) {
        FirstIndexOfPrefix(s, n, x);
      }
      if s[n] in d {
        assert r == d;
        forall i, j | 0 <= i < j < |r| ensures FirstIndex(s, r[i]) < FirstIndex(s, r[j]) {
          assert r[i] in d && r[j] in d;
        }
      } else {
        assert r == d + [s[n]];
        assert s[n] !in s[..n];
        assert FirstIndex(s, s[n]) == n;
        forall i, j | 0 <= i < j < |r| ensures FirstIndex(s, r[i]) < FirstIndex(s, r[j]) {
          assert r[i] == d[i] && r[i] in d;
          if j < |d| {
            assert r[j] == d[j] && r[j] in d;
          } else {
            assert r[j] == s[n];
            assert FirstIndex(p, d[i]) < |p|;
          }
        }
      }
    }
  }
}
