/** The clockwise rotation of a 3x3 matrix that the autotiler applies to its
    pattern window between search passes. Matrices are sequences of three
    rows of three elements, indexed `m[x][y]`. */
module Rotation {

  predicate IsSquare3<T>(m: seq<seq<T>>) {
    |m| == 3 && |m[0]| == 3 && |m[1]| == 3 && |m[2]| == 3
  }

  /** The clockwise quarter turn: the element at row `x`, column `y` of the
      result is the one at row `2 - y`, column `x` of the input. */
  function Rotated<T>(m: seq<seq<T>>): (r: seq<seq<T>>)
    requires IsSquare3(m)
    ensures IsSquare3(r)
  {
    [[m[2][0], m[1][0], m[0][0]],
     [m[2][1], m[1][1], m[0][1]],
     [m[2][2], m[1][2], m[0][2]]]
  }

  /** `n` successive quarter turns. */
  function RotatedTimes<T>(m: seq<seq<T>>, n: nat): (r: seq<seq<T>>)
    requires IsSquare3(m)
    ensures IsSquare3(r)
  {
    if n == 0 then m else Rotated(RotatedTimes(m, n - 1))
  }

  /** The nine elements in row-major order. */
  function Flatten<T>(m: seq<seq<T>>): (r: seq<T>)
    requires IsSquare3(m)
    ensures |r| == 9
  {
    m[0] + m[1] + m[2]
  }

  /** Position `k` of the flattened matrix is row `k / 3`, column `k % 3`. */
  lemma FlattenIndex<T>(m: seq<seq<T>>, k: int)
    requires IsSquare3(m) && 0 <= k < 9
    ensures Flatten(m)[k] == m[k / 3][k % 3]
  {
  }

  /** `rotate_3x3`: clones the input and overwrites every element of the
      copy, row by row, with the element the clockwise turn brings there. */
  method Rotate3x3<T>(input: seq<seq<T>>) returns (result: seq<seq<T>>)
    requires IsSquare3(input)
    ensures IsSquare3(result)
    ensures forall x, y :: 0 <= x < 3 && 0 <= y < 3 ==> result[x][y] == input[2 - y][x]
    ensures result == Rotated(input)
  {
    result := input;
    for x := 0 to 3
      invariant IsSquare3(result)
      invariant forall i, j :: 0 <= i < x && 0 <= j < 3 ==> result[i][j] == input[2 - j][i]
      invariant forall i, j :: x <= i < 3 && 0 <= j < 3 ==> result[i][j] == input[i][j]
    {
      for y := 0 to 3
        invariant IsSquare3(result)
        invariant forall i, j :: 0 <= i < x && 0 <= j < 3 ==> result[i][j] == input[2 - j][i]
        invariant forall j :: 0 <= j < y ==> result[x][j] == input[2 - j][x]
        invariant forall j :: y <= j < 3 ==> result[x][j] == input[x][j]
        invariant forall i, j :: x < i < 3 && 0 <= j < 3 ==> result[i][j] == input[i][j]
      {
        result := result[x := result[x][y := input[2 - y][x]]];
      }
    }
    var r := Rotated(input);
    assert result[0] == r[0] && result[1] == r[1] && result[2] == r[2];
  }

  /** Two quarter turns make a half turn: `m[x][y]` moves to `[2 - x][2 - y]`. */
  lemma RotatedTwice<T>(m: seq<seq<T>>)
    requires IsSquare3(m)
    ensures forall x, y :: 0 <= x < 3 && 0 <= y < 3 ==>
      Rotated(Rotated(m))[x][y] == m[2 - x][2 - y]
  {
  }

  /** The centre stays in place. */
  lemma CentreFixed<T>(m: seq<seq<T>>)
    requires IsSquare3(m)
    ensures Rotated(m)[1][1] == m[1][1]
  {
  }

  /** Two square matrices with the same elements are equal. */
  lemma SameElements<T>(a: seq<seq<T>>, b: seq<seq<T>>)
    requires IsSquare3(a) && IsSquare3(b)
    requires forall x, y :: 0 <= x < 3 && 0 <= y < 3 ==> a[x][y] == b[x][y]
    ensures a == b
  {
    assert a[0] == b[0] && a[1] == b[1] && a[2] == b[2];
  }

  /** Closure: four quarter turns give back the original matrix. */
  lemma FourTurnsIdentity<T>(m: seq<seq<T>>)
    requires IsSquare3(m)
    ensures RotatedTimes(m, 4) == m
  {
    var h := Rotated(Rotated(m));
    RotatedTwice(m);
    RotatedTwice(h);
    assert RotatedTimes(m, 1) == Rotated(m);
    assert RotatedTimes(m, 2) == h;
    assert RotatedTimes(m, 3) == Rotated(h);
    assert RotatedTimes(m, 4) == Rotated(Rotated(h));
    SameElements(Rotated(Rotated(h)), m);
  }

  /** A turn only moves elements: the nine outputs are the nine inputs. */
  lemma RotatedPermutes<T>(m: seq<seq<T>>)
    requires IsSquare3(m)
    ensures multiset(Flatten(Rotated(m))) == multiset(Flatten(m))
  {
    var r := Rotated(m);
    assert multiset(Flatten(r)) == multiset(r[0]) + multiset(r[1]) + multiset(r[2]);
    assert multiset(Flatten(m)) == multiset(m[0]) + multiset(m[1]) + multiset(m[2]);
    ThreeSingletons(r[0]); ThreeSingletons(r[1]); ThreeSingletons(r[2]);
    ThreeSingletons(m[0]); ThreeSingletons(m[1]); ThreeSingletons(m[2]);
  }

  /** The multiset of a three-element sequence as a sum of singletons. */
  lemma ThreeSingletons<T>(s: seq<T>)
    requires |s| == 3
    ensures multiset(s) == multiset{s[0]} + multiset{s[1]} + multiset{s[2]}
  {
    assert s == [s[0]] + [s[1]] + [s[2]];
  }
}
