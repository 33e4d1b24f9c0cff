/** Small facts about sequences of indices and of numbers, shared by the
    components. */
module Sequences {

  /** Ascending without repetition: the order of a Python list of frame
      numbers or of the keys of a dictionary filled in id order. */
  predicate StrictlyIncreasing(s: seq<int>) {
    forall i, j :: 0 <= i < j < |s| ==> s[i] < s[j]
  }

  /** `s` without `x`, keeping the order of the rest: a dictionary key
      deleted, or `list.remove(x)` on a list without repeats. */
  function Without(s: seq<int>, x: int): (r: seq<int>)
    ensures forall y :: y in r <==> y in s && y != x
    ensures StrictlyIncreasing(s) ==> StrictlyIncreasing(r)
  {
    if s == [] then []
    else
      var rest := Without(s[1..], x);
      assert StrictlyIncreasing(s) ==> StrictlyIncreasing(s[1..]);
      if s[0] == x then rest
      else
        var r := [s[0]] + rest;
        assert StrictlyIncreasing(s) ==> forall j :: 0 < j < |r| ==> r[0] < r[j] by {
          if StrictlyIncreasing(s) {
            forall j | 0 < j < |r| ensures r[0] < r[j] {
              assert r[j] == rest[j - 1] && rest[j - 1] in rest;
            }
          }
        }
        r
  }

  /** A strictly increasing sequence is fixed by its elements: the key
      order of a dictionary filled in ascending id order depends only on
      which keys it holds. */
  lemma {:induction false} IncreasingUnique(a: seq<int>, b: seq<int>)
    requires StrictlyIncreasing(a) && StrictlyIncreasing(b)
    requires forall x :: x in a <==> x in b
    ensures a == b
  {
    assert |a| > 0 ==> a[0] in a && a[0] in b;
    assert |b| > 0 ==> b[0] in b && b[0] in a;
    if a != [] && b != [] {
      assert a[0] == b[0] by {
        assert a[0] in b && b[0] in a;
      }
      forall x ensures x in a[1..] <==> x in b[1..] {
        if x in a[1..] {
          var i :| 1 <= i < |a| && a[i] == x;
          assert a[i] in a;
          var j :| 0 <= j < |b| && b[j] == x;
          assert j != 0;
          assert b[1..][j - 1] == x;
        }
        if x in b[1..] {
          var j :| 1 <= j < |b| && b[j] == x;
          assert b[j] in b;
          var i :| 0 <= i < |a| && a[i] == x;
          assert i != 0;
          assert a[1..][i - 1] == x;
        }
      }
      IncreasingUnique(a[1..], b[1..]);
      assert a == [a[0]] + a[1..] && b == [b[0]] + b[1..];
    }
  }

  /** The sum of a sequence of reals, from the left. */
  function Sum(s: seq<real>): real {
    if s == [] then 0.0 else Sum(s[..|s| - 1]) + s[|s| - 1]
  }
}
