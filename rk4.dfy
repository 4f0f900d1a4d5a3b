/** The fixed-step classical fourth-order Runge-Kutta integrator (class
    `RungeKutta4`): its tableau, one step, and the driver that builds the
    trajectory. */
module RungeKutta4 {
  import opened Vectors
  import opened Tableaux

  /** The classical tableau set up by the constructor. */
  const Rk4: Tableau := Tableau(
    [ [0.0, 0.0, 0.0, 0.0],
      [0.5, 0.0, 0.0, 0.0],
      [0.0, 0.5, 0.0, 0.0],
      [0.0, 0.0, 1.0, 0.0] ],
    [ [1.0 / 6.0, 1.0 / 3.0, 1.0 / 3.0, 1.0 / 6.0] ],
    [0.0, 0.5, 0.5, 1.0])

  /** The integrator's configuration: the derivative f, the constant step and
      the stopping criterion, which is asked before every step whether to go on. */
  datatype Solver = Solver(f: seq<real> -> seq<real>, step: real, stoppingCriterion: seq<real> -> bool)

  /** The classical tableau is explicit and consistent: `a` strictly lower
      triangular, the weights summing to 1, each row of `a` summing to its node. */
  lemma Rk4TableauConsistent()
    ensures Consistent(Rk4)
  {
    SumOfFour(Rk4.b[0]);
    forall i | 0 <= i < |Rk4.a|
      ensures Sum(Rk4.a[i]) == Rk4.c[i]
    {
      SumOfFour(Rk4.a[i]);
    }
  }

  /** The sum of a four-entry row, written out. */
  lemma SumOfFour(s: seq<real>)
    requires |s| == 4
    ensures Sum(s) == s[0] + s[1] + s[2] + s[3]
  {
    assert Sum(s[3..]) == s[3] by { assert s[3..][1..] == []; }
    assert Sum(s[2..]) == s[2] + Sum(s[3..]) by { assert s[2..][1..] == s[3..]; }
    assert Sum(s[1..]) == s[1] + Sum(s[2..]) by { assert s[1..][1..] == s[2..]; }
  }

  /** The new state of one step from y with step h: `y + np.dot(b, k)` over the
      four explicit stages. */
  function Update(f: seq<real> -> seq<real>, y: seq<real>, h: real): (y1: seq<real>)
    requires PreservesDim(f)
    ensures |y1| == |y|
  {
    assert Explicit(Rk4) by { Rk4TableauConsistent(); }
    Add(y, Dot(Rk4.b[0], Stages(Rk4.a, f, y, h, 4), |y|))
  }

  /** The textbook stages k1..k4 of the classical method, written without a tableau. */
  function ClassicalStages(f: seq<real> -> seq<real>, y: seq<real>, h: real): (ks: seq<seq<real>>)
    requires PreservesDim(f)
    ensures |ks| == 4 && Rows(ks, |y|)
  {
    var k1 := Scale(h, f(y));
    var k2 := Scale(h, f(Add(y, Scale(0.5, k1))));
    var k3 := Scale(h, f(Add(y, Scale(0.5, k2))));
    var k4 := Scale(h, f(Add(y, k3)));
    [k1, k2, k3, k4]
  }

  /** The textbook step y + (k1 + 2 k2 + 2 k3 + k4) / 6. */
  function Classical(f: seq<real> -> seq<real>, y: seq<real>, h: real): (y1: seq<real>)
    requires PreservesDim(f)
    ensures |y1| == |y|
  {
    var ks := ClassicalStages(f, y, h);
    Add(y, Scale(1.0 / 6.0, Add(Add(ks[0], Scale(2.0, Add(ks[1], ks[2]))), ks[3])))
  }

  /** The four stages of the tableau are the textbook k1..k4. */
  lemma StagesAreClassical(f: seq<real> -> seq<real>, y: seq<real>, h: real)
    requires PreservesDim(f)
    ensures Stages(Rk4.a, f, y, h, 4) == ClassicalStages(f, y, h)
  {
    assert Square(Rk4.a);
    var n := |y|;
    var a := Rk4.a;
    var cs := ClassicalStages(f, y, h);
    var s1 := Stages(a, f, y, h, 1);
    var s2 := Stages(a, f, y, h, 2);
    var s3 := Stages(a, f, y, h, 3);
    assert Stages(a, f, y, h, 0) == [];
    assert Add(y, Dot(a[0][..0], [], n)) == y;
    assert s1 == [cs[0]];
    DotOfLastWeight(a[1][..1], s1, n);
    assert s2 == [cs[0], cs[1]];
    DotOfLastWeight(a[2][..2], s2, n);
    assert s3 == [cs[0], cs[1], cs[2]];
    DotOfLastWeight(a[3][..3], s3, n);
    ScaleByOne(cs[2]);
  }

  /** The tableau-driven step is the classical formula
      y + (k1 + 2 k2 + 2 k3 + k4) / 6. */
  lemma UpdateIsClassical(f: seq<real> -> seq<real>, y: seq<real>, h: real)
    requires PreservesDim(f)
    ensures Update(f, y, h) == Classical(f, y, h)
  {
    StagesAreClassical(f, y, h);
    DotOfFour(Rk4.b[0], ClassicalStages(f, y, h), |y|);
  }

  /** `next_step`: the stage matrix is allocated as zeros and filled in place,
      then combined with the weights; x advances by h. */
  method NextStep(s: Solver, x: real, y: seq<real>, h: real) returns (x1: real, y1: seq<real>)
    requires PreservesDim(s.f)
    ensures x1 == x + h
    ensures y1 == Update(s.f, y, h)
  {
    Rk4TableauConsistent();
    var k := new seq<real>[4](_ => Zeros(|y|));
    FillStages(k, Rk4.a, s.f, y, h);
    y1 := Add(y, Dot(Rk4.b[0], k[..], |y|));
    x1 := x + h;
  }

  /** Each point of xs, ys but the last passed the loop guard and the stopping
      criterion, and was followed by one step of the solver. */
  ghost predicate Stepped(s: Solver, xEnd: real, xs: seq<real>, ys: seq<seq<real>>)
    requires |xs| == |ys| && PreservesDim(s.f)
  {
    forall i :: 0 <= i < |xs| - 1 ==>
      && Abs(xs[i]) <= Abs(xEnd) && s.stoppingCriterion(ys[i])
      && xs[i + 1] == xs[i] + s.step && ys[i + 1] == Update(s.f, ys[i], s.step)
  }

  lemma SteppedExtend(s: Solver, xEnd: real, xs: seq<real>, ys: seq<seq<real>>, x1: real, y1: seq<real>)
    requires |xs| == |ys| > 0 && PreservesDim(s.f) && Stepped(s, xEnd, xs, ys)
    requires Abs(xs[|xs| - 1]) <= Abs(xEnd) && s.stoppingCriterion(ys[|ys| - 1])
    requires x1 == xs[|xs| - 1] + s.step && y1 == Update(s.f, ys[|ys| - 1], s.step)
    ensures Stepped(s, xEnd, xs + [x1], ys + [y1])
  {
    var xs', ys' := xs + [x1], ys + [y1];
    forall i | 0 <= i < |xs'| - 1
      ensures Abs(xs'[i]) <= Abs(xEnd) && s.stoppingCriterion(ys'[i])
      ensures xs'[i + 1] == xs'[i] + s.step && ys'[i + 1] == Update(s.f, ys'[i], s.step)
    {
      if i < |xs| - 1 {
        assert xs'[i] == xs[i] && xs'[i + 1] == xs[i + 1];
        assert ys'[i] == ys[i] && ys'[i + 1] == ys[i + 1];
      }
    }
  }

  /** `integrate`: while |x| has not passed |x_end| and the stopping criterion
      still holds on the latest state, take a step of `s.step` and append it.
      `maxSteps` bounds the number of steps; the source has no such bound. */
  method Integrate(s: Solver, xStart: real, xEnd: real, yStart: seq<real>, maxSteps: nat)
    returns (xs: seq<real>, ys: seq<seq<real>>)
    requires PreservesDim(s.f)
    ensures |xs| == |ys| && 1 <= |xs| <= maxSteps + 1
    ensures xs[0] == xStart && ys[0] == yStart
    ensures forall i :: 0 <= i < |ys| ==> |ys[i]| == |yStart|
    ensures Stepped(s, xEnd, xs, ys)
    ensures |xs| <= maxSteps ==> Abs(xs[|xs| - 1]) > Abs(xEnd) || !s.stoppingCriterion(ys[|ys| - 1])
    ensures Abs(xStart) > Abs(xEnd) || !s.stoppingCriterion(yStart) ==> xs == [xStart] && ys == [yStart]
  {
    xs, ys := [xStart], [yStart];
    while |xs| <= maxSteps && Abs(xs[|xs| - 1]) <= Abs(xEnd)
      invariant |xs| == |ys| && 1 <= |xs| <= maxSteps + 1
      invariant xs[0] == xStart && ys[0] == yStart
      invariant forall i :: 0 <= i < |ys| ==> |ys[i]| == |yStart|
      invariant Stepped(s, xEnd, xs, ys)
      decreases maxSteps + 1 - |xs|
    {
      var x, y := xs[|xs| - 1], ys[|ys| - 1];
      if s.stoppingCriterion(y) {
        var x1, y1 := NextStep(s, x, y, s.step);
        ghost var xs0, ys0 := xs, ys;
        xs, ys := xs + [x1], ys + [y1];
        SteppedExtend(s, xEnd, xs0, ys0, x1, y1);
      } else {
        break;
      }
    }
  }
}
