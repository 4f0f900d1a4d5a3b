/** Real vectors as `seq<real>` and matrices as sequences of rows: the numpy
    arithmetic that both integrators use (elementwise add, subtract, scale,
    and the row-vector times matrix product `np.dot(w, k)`). */
module Vectors {

  /** Python's `abs` on a scalar. */
  function Abs(x: real): (r: real)
    ensures r >= 0.0 && (r == x || r == -x)
  {
    if x < 0.0 then -x else x
  }

  /** Python's `min` on two scalars. */
  function Min(a: real, b: real): (r: real)
    ensures r <= a && r <= b && (r == a || r == b)
  {
    if b < a then b else a
  }

  /** Python's `max` on two scalars. */
  function Max(a: real, b: real): (r: real)
    ensures r >= a && r >= b && (r == a || r == b)
  {
    if b > a then b else a
  }

  /** The zero vector of dimension n (a row of `np.zeros`). */
  function Zeros(n: nat): (z: seq<real>)
    ensures |z| == n
    ensures forall c :: 0 <= c < n ==> z[c] == 0.0
  {
    seq(n, _ => 0.0)
  }

  function Add(u: seq<real>, v: seq<real>): (w: seq<real>)
    requires |u| == |v|
    ensures |w| == |u|
    ensures forall c :: 0 <= c < |w| ==> w[c] == u[c] + v[c]
  {
    seq(|u|, c requires 0 <= c < |u| => u[c] + v[c])
  }

  function Sub(u: seq<real>, v: seq<real>): (w: seq<real>)
    requires |u| == |v|
    ensures |w| == |u|
    ensures forall c :: 0 <= c < |w| ==> w[c] == u[c] - v[c]
  {
    seq(|u|, c requires 0 <= c < |u| => u[c] - v[c])
  }

  function Scale(h: real, v: seq<real>): (w: seq<real>)
    ensures |w| == |v|
    ensures forall c :: 0 <= c < |w| ==> w[c] == h * v[c]
  {
    seq(|v|, c requires 0 <= c < |v| => h * v[c])
  }

  /** Every row of k has dimension n. */
  ghost predicate Rows(k: seq<seq<real>>, n: nat)
  {
    forall j :: 0 <= j < |k| ==> |k[j]| == n
  }

  /** Component c of the weighted row sum w[0]*k[0] + ... + w[m-1]*k[m-1]. */
  function Component(w: seq<real>, k: seq<seq<real>>, c: nat): real
    requires |w| == |k|
    requires forall j :: 0 <= j < |k| ==> c < |k[j]|
    decreases |w|
  {
    if |w| == 0 then 0.0
    else
      var m := |w| - 1;
      Component(w[..m], k[..m], c) + w[m] * k[m][c]
  }

  /** `np.dot(w, k)`: the weighted sum of the rows of k, a vector of dimension n. */
  function Dot(w: seq<real>, k: seq<seq<real>>, n: nat): (r: seq<real>)
    requires |w| == |k|
    requires Rows(k, n)
    ensures |r| == n
  {
    seq(n, c requires 0 <= c < n => Component(w, k, c))
  }

  /** Peeling off the last of the first m + 1 rows. */
  lemma ComponentStep(w: seq<real>, k: seq<seq<real>>, c: nat, m: nat)
    requires |w| == |k| && m < |w|
    requires forall j :: 0 <= j < |k| ==> c < |k[j]|
    ensures Component(w[..m + 1], k[..m + 1], c) == Component(w[..m], k[..m], c) + w[m] * k[m][c]
  {
    assert w[..m + 1][..m] == w[..m];
    assert k[..m + 1][..m] == k[..m];
  }

  /** With all weights zero every component is zero. */
  lemma {:induction false} ComponentOfZeroWeights(w: seq<real>, k: seq<seq<real>>, c: nat)
    requires |w| == |k|
    requires forall j :: 0 <= j < |k| ==> c < |k[j]|
    requires forall j :: 0 <= j < |w| ==> w[j] == 0.0
    ensures Component(w, k, c) == 0.0
  {
    if |w| > 0 {
      ComponentOfZeroWeights(w[..|w| - 1], k[..|k| - 1], c);
    }
  }

  /** A weight vector that is zero except in its last entry picks out the last
      row, scaled. */
  lemma DotOfLastWeight(w: seq<real>, k: seq<seq<real>>, n: nat)
    requires |w| == |k| > 0 && Rows(k, n)
    requires forall j :: 0 <= j < |w| - 1 ==> w[j] == 0.0
    ensures Dot(w, k, n) == Scale(w[|w| - 1], k[|k| - 1])
  {
    forall c | 0 <= c < n
      ensures Dot(w, k, n)[c] == w[|w| - 1] * k[|k| - 1][c]
    {
      ComponentOfZeroWeights(w[..|w| - 1], k[..|k| - 1], c);
    }
  }

  /** `np.dot` of a four-entry weight vector, component by component. */
  lemma DotOfFour(w: seq<real>, k: seq<seq<real>>, n: nat)
    requires |w| == |k| == 4 && Rows(k, n)
    ensures forall c :: 0 <= c < n ==>
              Dot(w, k, n)[c] == w[0] * k[0][c] + w[1] * k[1][c] + w[2] * k[2][c] + w[3] * k[3][c]
  {
    forall c | 0 <= c < n
      ensures Dot(w, k, n)[c] == w[0] * k[0][c] + w[1] * k[1][c] + w[2] * k[2][c] + w[3] * k[3][c]
    {
      ComponentStep(w, k, c, 0);
      ComponentStep(w, k, c, 1);
      ComponentStep(w, k, c, 2);
      ComponentStep(w, k, c, 3);
      assert w[..4] == w && k[..4] == k;
    }
  }

  lemma ScaleByOne(v: seq<real>)
    ensures Scale(1.0, v) == v
  {
  }

  /** Rows whose weight is zero contribute nothing: a component only reads the
      rows before the first of a run of trailing zero weights. */
  lemma {:induction false} ComponentIgnoresZeroTail(w: seq<real>, k: seq<seq<real>>, c: nat, i: nat)
    requires |w| == |k| && i <= |w|
    requires forall j :: 0 <= j < |k| ==> c < |k[j]|
    requires forall j :: i <= j < |w| ==> w[j] == 0.0
    ensures Component(w, k, c) == Component(w[..i], k[..i], c)
  {
    if i < |w| {
      var m := |w| - 1;
      assert w[..m][..i] == w[..i];
      assert k[..m][..i] == k[..i];
      ComponentIgnoresZeroTail(w[..m], k[..m], c, i);
    } else {
      assert w[..i] == w;
      assert k[..i] == k;
    }
  }

  /** `np.dot(w, k)` equals the product of the leading part of w with the
      leading rows of k when the remaining weights are zero. */
  lemma DotIgnoresZeroTail(w: seq<real>, k: seq<seq<real>>, n: nat, i: nat)
    requires |w| == |k| && i <= |w|
    requires Rows(k, n)
    requires forall j :: i <= j < |w| ==> w[j] == 0.0
    ensures Dot(w, k, n) == Dot(w[..i], k[..i], n)
  {
    forall c | 0 <= c < n
      ensures Dot(w, k, n)[c] == Dot(w[..i], k[..i], n)[c]
    {
      ComponentIgnoresZeroTail(w, k, c, i);
    }
  }

  /** Consequently two matrices that agree on their first i rows give the same
      product with a weight vector that is zero from index i on, whatever their
      later rows hold. */
  lemma DotReadsOnlyLeadingRows(w: seq<real>, k: seq<seq<real>>, k': seq<seq<real>>, n: nat, i: nat)
    requires |w| == |k| == |k'| && i <= |w|
    requires Rows(k, n) && Rows(k', n)
    requires forall j :: i <= j < |w| ==> w[j] == 0.0
    requires k[..i] == k'[..i]
    ensures Dot(w, k, n) == Dot(w, k', n)
  {
    DotIgnoresZeroTail(w, k, n, i);
    DotIgnoresZeroTail(w, k', n, i);
  }
}
