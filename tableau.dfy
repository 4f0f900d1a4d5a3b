/** Butcher tableaux and the stage loop shared by both integrators: the
    stage matrix `a`, the weight rows `b` and the nodes `c`, and the loop that
    fills the stage matrix `k` row by row. */
module Tableaux {
  import opened Vectors

  /** A Runge-Kutta coefficient set. `b` holds one weight row for the fixed-step
      method and two (fifth order, then fourth order) for the embedded pair. */
  datatype Tableau = Tableau(a: seq<seq<real>>, b: seq<seq<real>>, c: seq<real>)

  /** The sum of the entries of a row. */
  function Sum(s: seq<real>): real
  {
    if |s| == 0 then 0.0 else s[0] + Sum(s[1..])
  }

  /** `a` is an s-by-s matrix. */
  ghost predicate Square(a: seq<seq<real>>)
  {
    forall i :: 0 <= i < |a| ==> |a[i]| == |a|
  }

  /** Stage i depends only on the stages before it: `a[i][j] == 0` for `j >= i`. */
  ghost predicate StrictlyLowerTriangular(a: seq<seq<real>>)
  {
    Square(a) && forall i, j :: 0 <= i <= j < |a| ==> a[i][j] == 0.0
  }

  /** The shape of an explicit method: a strictly lower-triangular stage
      matrix, and a node vector and weight rows of length s. */
  ghost predicate Explicit(t: Tableau)
  {
    && StrictlyLowerTriangular(t.a)
    && |t.c| == |t.a|
    && |t.b| > 0
    && forall r :: 0 <= r < |t.b| ==> |t.b[r]| == |t.a|
  }

  /** The consistency conditions: every weight row sums to 1 and every row of
      `a` sums to its node. */
  ghost predicate Consistent(t: Tableau)
  {
    && Explicit(t)
    && (forall r :: 0 <= r < |t.b| ==> Sum(t.b[r]) == 1.0)
    && (forall i :: 0 <= i < |t.a| ==> Sum(t.a[i]) == t.c[i])
  }

  /** The derivative returns a vector of the dimension it is given. */
  ghost predicate PreservesDim(g: seq<real> -> seq<real>)
  {
    forall v :: |g(v)| == |v|
  }

  /** The next stage after the stages prev, read from those stages only:
      `h * g(y + a[i][0] * prev[0] + ... + a[i][i-1] * prev[i-1])` with i = |prev|. */
  function NextStage(a: seq<seq<real>>, g: seq<real> -> seq<real>, y: seq<real>, h: real,
                     prev: seq<seq<real>>): (row: seq<real>)
    requires Square(a) && |prev| < |a| && Rows(prev, |y|)
    requires PreservesDim(g)
    ensures |row| == |y|
  {
    var i := |prev|;
    Scale(h, g(Add(y, Dot(a[i][..i], prev, |y|))))
  }

  /** The first i stages of an explicit method. */
  function Stages(a: seq<seq<real>>, g: seq<real> -> seq<real>, y: seq<real>, h: real, i: nat)
    : (ks: seq<seq<real>>)
    requires Square(a) && i <= |a|
    requires PreservesDim(g)
    ensures |ks| == i && Rows(ks, |y|)
    decreases i
  {
    if i == 0 then []
    else
      var prev := Stages(a, g, y, h, i - 1);
      prev + [NextStage(a, g, y, h, prev)]
  }

  /** Computing more stages leaves the earlier ones as they were. */
  lemma {:induction false} StagesPrefix(a: seq<seq<real>>, g: seq<real> -> seq<real>, y: seq<real>, h: real,
                                        i: nat, j: nat)
    requires Square(a) && j <= i <= |a|
    requires PreservesDim(g)
    ensures Stages(a, g, y, h, i)[..j] == Stages(a, g, y, h, j)
    decreases i
  {
    if j < i {
      var prev := Stages(a, g, y, h, i - 1);
      assert Stages(a, g, y, h, i)[..i - 1] == prev;
      StagesPrefix(a, g, y, h, i - 1, j);
      assert Stages(a, g, y, h, i)[..j] == prev[..j];
    } else {
      assert Stages(a, g, y, h, i)[..j] == Stages(a, g, y, h, i);
    }
  }

  /** Stage j of an explicit method is computed from the j stages before it
      and from nothing else. */
  lemma StageIsExplicit(a: seq<seq<real>>, g: seq<real> -> seq<real>, y: seq<real>, h: real,
                        i: nat, j: nat)
    requires Square(a) && j < i <= |a|
    requires PreservesDim(g)
    ensures Stages(a, g, y, h, i)[j] == NextStage(a, g, y, h, Stages(a, g, y, h, i)[..j])
  {
    StagesPrefix(a, g, y, h, i, j + 1);
    StagesPrefix(a, g, y, h, i, j);
    assert Stages(a, g, y, h, i)[j] == Stages(a, g, y, h, i)[..j + 1][j];
  }

  /** Stage row i as the in-place loop computes it from the current, whole stage
      matrix k: `h * g(y + np.dot(a[i], k))`. */
  function StageFrom(a: seq<seq<real>>, g: seq<real> -> seq<real>, y: seq<real>, h: real,
                     i: nat, k: seq<seq<real>>): (row: seq<real>)
    requires Square(a) && i < |a| && |k| == |a| && Rows(k, |y|)
    requires PreservesDim(g)
    ensures |row| == |y|
  {
    Scale(h, g(Add(y, Dot(a[i], k, |y|))))
  }

  /** With a strictly lower-triangular `a`, a row computed from the whole stage
      matrix depends only on the rows before it: rows left over from an earlier
      trial never reach it. */
  lemma StageReadsOnlyEarlierRows(a: seq<seq<real>>, g: seq<real> -> seq<real>, y: seq<real>, h: real,
                                  i: nat, k: seq<seq<real>>)
    requires StrictlyLowerTriangular(a) && i < |a| && |k| == |a| && Rows(k, |y|)
    requires PreservesDim(g)
    ensures StageFrom(a, g, y, h, i, k) == NextStage(a, g, y, h, k[..i])
  {
    DotIgnoresZeroTail(a[i], k, |y|, i);
  }

  /** One turn of the stage loop: writing stage i into a matrix whose first i
      rows are the first i stages yields the first i + 1 stages. */
  lemma FillOne(a: seq<seq<real>>, g: seq<real> -> seq<real>, y: seq<real>, h: real,
                i: nat, k: seq<seq<real>>)
    requires StrictlyLowerTriangular(a) && i < |a| && |k| == |a| && Rows(k, |y|)
    requires PreservesDim(g)
    requires k[..i] == Stages(a, g, y, h, i)
    ensures Rows(k[i := StageFrom(a, g, y, h, i, k)], |y|)
    ensures k[i := StageFrom(a, g, y, h, i, k)][..i + 1] == Stages(a, g, y, h, i + 1)
  {
    StageReadsOnlyEarlierRows(a, g, y, h, i, k);
    var k' := k[i := StageFrom(a, g, y, h, i, k)];
    assert k'[..i + 1] == k[..i] + [k'[i]];
  }

  /** The stage loop `for i in range(s): k[i,:] = h*f(y + np.dot(a[i], k))`,
      run in place on a stage matrix that may hold rows of an earlier trial.
      Whatever k held before, it ends holding exactly the explicit stages. */
  method FillStages(k: array<seq<real>>, a: seq<seq<real>>, g: seq<real> -> seq<real>,
                    y: seq<real>, h: real)
    requires StrictlyLowerTriangular(a) && k.Length == |a| && Rows(k[..], |y|)
    requires PreservesDim(g)
    modifies k
    ensures Rows(k[..], |y|)
    ensures k[..] == Stages(a, g, y, h, |a|)
  {
    for i := 0 to k.Length
      invariant Rows(k[..], |y|)
      invariant k[..i] == Stages(a, g, y, h, i)
    {
      FillOne(a, g, y, h, i, k[..]);
      k[i] := StageFrom(a, g, y, h, i, k[..]);
    }
    assert k[..] == k[..k.Length];
  }
}
