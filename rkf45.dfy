/** The adaptive Runge-Kutta-Fehlberg 4(5) integrator (class
    `RungeKuttaFehlberg45`): its embedded tableau, the step-size controller of
    `next_step` with its accept/reject retry loop, and the driver. */
module RungeKuttaFehlberg45 {
  import opened Vectors
  import opened Tableaux

  /** Fehlberg's embedded tableau as set up by the constructor. `b[0]` are the
      fifth-order weights, `b[1]` the fourth-order weights. */
  const Fehlberg45: Tableau := Tableau(
    [ [0.0, 0.0, 0.0, 0.0, 0.0, 0.0],
      [1.0 / 4.0, 0.0, 0.0, 0.0, 0.0, 0.0],
      [3.0 / 32.0, 9.0 / 32.0, 0.0, 0.0, 0.0, 0.0],
      [1932.0 / 2197.0, -7200.0 / 2197.0, 7296.0 / 2197.0, 0.0, 0.0, 0.0],
      [439.0 / 216.0, -8.0, 3680.0 / 513.0, -845.0 / 4104.0, 0.0, 0.0],
      [-8.0 / 27.0, 2.0, -3544.0 / 2565.0, 1859.0 / 4104.0, -11.0 / 40.0, 0.0] ],
    [ [16.0 / 135.0, 0.0, 6656.0 / 12825.0, 28561.0 / 56430.0, -9.0 / 50.0, 2.0 / 55.0],
      [25.0 / 216.0, 0.0, 1408.0 / 2565.0, 2197.0 / 4104.0, -1.0 / 5.0, 0.0] ],
    [0.0, 1.0 / 4.0, 3.0 / 8.0, 12.0 / 13.0, 1.0, 1.0 / 2.0])

  /** The sum of a six-entry row, written out. */
  lemma SumOfSix(s: seq<real>)
    requires |s| == 6
    ensures Sum(s) == s[0] + s[1] + s[2] + s[3] + s[4] + s[5]
  {
    assert Sum(s[5..]) == s[5] by { assert s[5..][1..] == []; }
    assert Sum(s[4..]) == s[4] + Sum(s[5..]) by { assert s[4..][1..] == s[5..]; }
    assert Sum(s[3..]) == s[3] + Sum(s[4..]) by { assert s[3..][1..] == s[4..]; }
    assert Sum(s[2..]) == s[2] + Sum(s[3..]) by { assert s[2..][1..] == s[3..]; }
    assert Sum(s[1..]) == s[1] + Sum(s[2..]) by { assert s[1..][1..] == s[2..]; }
  }

  /** Fehlberg's tableau has the shape of an explicit method. */
  lemma FehlbergExplicit()
    ensures Explicit(Fehlberg45)
  {
  }

  /** Both weight rows of Fehlberg's tableau sum to 1, exactly. */
  lemma FehlbergWeightsSumToOne()
    ensures Sum(Fehlberg45.b[0]) == 1.0 && Sum(Fehlberg45.b[1]) == 1.0
  {
    SumOfSix(Fehlberg45.b[0]);
    SumOfSix(Fehlberg45.b[1]);
  }

  /** Each row of Fehlberg's `a` sums to its node, exactly. */
  lemma FehlbergRowSumsAreNodes(i: nat)
    requires i < 6
    ensures Sum(Fehlberg45.a[i]) == Fehlberg45.c[i]
  {
    SumOfSix(Fehlberg45.a[i]);
  }

  /** Fehlberg's tableau is explicit and consistent: `a` strictly lower
      triangular, both weight rows summing to 1, each row of `a` summing to its
      node, all in exact rational arithmetic. */
  lemma FehlbergTableauConsistent()
    ensures Consistent(Fehlberg45)
  {
    FehlbergExplicit();
    FehlbergWeightsSumToOne();
    forall i | 0 <= i < |Fehlberg45.a|
      ensures Sum(Fehlberg45.a[i]) == Fehlberg45.c[i]
    {
      FehlbergRowSumsAreNodes(i);
    }
  }

  /** `np.linalg.norm` and the power `e ** (-0.2)`, which the model does not
      compute, with the properties the controller relies on. */
  datatype Numerics = Numerics(norm: seq<real> -> real, negFifthPower: real -> real)
  {
    ghost predicate Valid()
    {
      NormValid() && PowerValid()
    }

    /** A norm: non-negative, and zero exactly on the zero vector. */
    ghost predicate NormValid()
    {
      && (forall v :: norm(v) >= 0.0)
      && (forall v :: norm(v) == 0.0 <==> forall c :: 0 <= c < |v| ==> v[c] == 0.0)
    }

    /** `e ** (-0.2)`: positive for positive e, below 1 for e above 1. */
    ghost predicate PowerValid()
    {
      && (forall e :: e > 0.0 ==> negFifthPower(e) > 0.0)
      && (forall e :: e > 1.0 ==> negFifthPower(e) < 1.0)
    }
  }

  /** The integrator's configuration: the derivative f, which also receives the
      caller's extra arguments, `AccuracyGoal`, the safety factor `SF` and the
      signed step bound `hmax`. */
  datatype Solver<-C> = Solver(f: (seq<real>, C) -> seq<real>, accuracyGoal: int, sf: real, hmax: real)
  {
    /** `Atol = 10 ** (-AccuracyGoal)`. */
    function Atol(): (r: real)
      ensures r > 0.0
    {
      TenToThe(-accuracyGoal)
    }
  }

  /** 10 raised to an integer power. */
  function TenToThe(e: int): (r: real)
    ensures r > 0.0
    ensures e >= 0 ==> r >= 1.0
    ensures e < 0 ==> r < 1.0
    decreases if e < 0 then -e else e
  {
    if e == 0 then 1.0
    else if e > 0 then 10.0 * TenToThe(e - 1)
    else TenToThe(e + 1) / 10.0
  }

  /** With the extra arguments args, the derivative keeps the dimension of the state. */
  ghost predicate PreservesDimWith<C>(f: (seq<real>, C) -> seq<real>, args: C)
  {
    forall v :: |f(v, args)| == |v|
  }

  /** The derivative with the extra arguments fixed: `f(*v, args)`. */
  function WithArgs<C>(f: (seq<real>, C) -> seq<real>, args: C): (g: seq<real> -> seq<real>)
    ensures PreservesDimWith(f, args) ==> PreservesDim(g)
  {
    v => f(v, args)
  }

  /** What one trial step of size h1 computes: the fourth- and fifth-order
      solutions and the scaled error estimate `err`. */
  datatype Trial = Trial(y4: seq<real>, y5: seq<real>, err: real)

  /** One trial from y with step h1: the six stages, `y4 = y + np.dot(b[1], k)`,
      `y5 = y + np.dot(b[0], k)` and `err = norm(y4 - y5) / h1 / Atol`. */
  function TrialAt<C>(s: Solver<C>, num: Numerics, y: seq<real>, h1: real, args: C): (t: Trial)
    requires h1 > 0.0 && PreservesDimWith(s.f, args)
    ensures |t.y4| == |y| && |t.y5| == |y|
    ensures num.NormValid() ==> t.err >= 0.0 && (t.err == 0.0 <==> t.y4 == t.y5)
  {
    assert Square(Fehlberg45.a);
    var k := Stages(Fehlberg45.a, WithArgs(s.f, args), y, h1, |Fehlberg45.a|);
    var y4 := Add(y, Dot(Fehlberg45.b[1], k, |y|));
    var y5 := Add(y, Dot(Fehlberg45.b[0], k, |y|));
    var err := num.norm(Sub(y4, y5)) / h1 / s.Atol();
    assert num.NormValid() ==> err >= 0.0 && (err == 0.0 <==> y4 == y5) by {
      if num.NormValid() {
        SubIsZeroIff(y4, y5);
        ScaledNorm(num.norm(Sub(y4, y5)), h1, s.Atol());
      }
    }
    Trial(y4, y5, err)
  }

  lemma SubIsZeroIff(u: seq<real>, v: seq<real>)
    requires |u| == |v|
    ensures (forall c :: 0 <= c < |u| ==> Sub(u, v)[c] == 0.0) <==> u == v
  {
    if forall c :: 0 <= c < |u| ==> Sub(u, v)[c] == 0.0 {
      forall c | 0 <= c < |u| ensures u[c] == v[c] {
        assert Sub(u, v)[c] == 0.0;
      }
    }
  }

  /** A non-negative norm divided by a positive step and a positive tolerance is
      non-negative, and zero exactly when the norm is. */
  lemma ScaledNorm(norm: real, h1: real, atol: real)
    requires norm >= 0.0 && h1 > 0.0 && atol > 0.0
    ensures norm / h1 / atol >= 0.0
    ensures norm / h1 / atol == 0.0 <==> norm == 0.0
  {
    var q := norm / h1;
    assert q * h1 == norm;
    assert (q / atol) * atol == q;
  }

  /** The trial of `next_step` from state y with step h1. Steps that are not
      positive are never tried; they get a placeholder. */
  ghost function TrialOf<C>(s: Solver<C>, num: Numerics, y: seq<real>, args: C, h1: real): Trial
  {
    if h1 > 0.0 && PreservesDimWith(s.f, args) then TrialAt(s, num, y, h1, args) else Trial(y, y, 0.0)
  }

  /** The factor applied to a rejected step: `delta` clamped to [0.1, 4]. */
  function RejectFactor(delta: real): (r: real)
    ensures 0.1 <= r <= 4.0
  {
    if delta <= 0.1 then 0.1 else if delta >= 4.0 then 4.0 else delta
  }

  /** The clamp picks the point of [0.1, 4] nearest to delta. */
  lemma RejectFactorIsNearest(delta: real, z: real)
    requires 0.1 <= z <= 4.0
    ensures Abs(RejectFactor(delta) - delta) <= Abs(z - delta)
  {
  }

  /** After a rejection (err > 1) with a safety factor of at most 1, the step
      strictly shrinks, by a factor of at least 0.1: the x4 branch is never taken. */
  lemma RejectionShrinks<C>(s: Solver<C>, num: Numerics, err: real)
    requires num.PowerValid() && s.sf <= 1.0 && err > 1.0
    ensures 0.1 <= RejectFactor(s.sf * num.negFifthPower(err)) < 1.0
  {
    var p := num.negFifthPower(err);
    assert 0.0 < p < 1.0;
    if s.sf > 0.0 {
      assert s.sf * p < s.sf * 1.0;
    }
  }

  /** The next trial step after rejecting h1 with error estimate err:
      `h1 * clamp(SF * err ** (-0.2))`. */
  function Retry<C>(s: Solver<C>, num: Numerics, h1: real, err: real): real
  {
    Rescale(h1, s.sf * num.negFifthPower(err))
  }

  /** A step h scaled by `delta` clamped to [0.1, 4]. */
  function Rescale(h: real, delta: real): real
  {
    h * RejectFactor(delta)
  }

  /** Rescaling never shrinks a positive step below a tenth nor grows it
      beyond four times, so it stays positive. */
  lemma RescaleWithin(h: real, delta: real)
    requires h > 0.0
    ensures 0.0 < 0.1 * h <= Rescale(h, delta) <= 4.0 * h
  {
    var factor := RejectFactor(delta);
    assert Rescale(h, delta) == h * factor;
    ScaleLow(h, factor);
    ScaleHigh(h, factor);
  }

  /** A clamped factor below 1 shrinks a positive step. */
  lemma RescaleBelow(h: real, delta: real)
    requires h > 0.0 && RejectFactor(delta) < 1.0
    ensures Rescale(h, delta) < h
  {
    var factor := RejectFactor(delta);
    assert Rescale(h, delta) == h * factor;
    ScaleBelow(h, factor);
  }

  /** A rejection never scales a positive step by less than 0.1 or more than
      4, so the retried step stays positive. */
  lemma RetryWithin<C>(s: Solver<C>, num: Numerics, h1: real, err: real)
    requires h1 > 0.0
    ensures 0.0 < 0.1 * h1 <= Retry(s, num, h1, err) <= 4.0 * h1
  {
    RescaleWithin(h1, s.sf * num.negFifthPower(err));
  }

  /** After a rejection with a safety factor of at most 1 the retried step is
      strictly shorter, and at least a tenth of the rejected one. */
  lemma RetryShrinks<C>(s: Solver<C>, num: Numerics, h1: real, err: real)
    requires h1 > 0.0 && num.PowerValid() && s.sf <= 1.0 && err > 1.0
    ensures 0.1 * h1 <= Retry(s, num, h1, err) < h1
  {
    RejectionShrinks(s, num, err);
    RescaleWithin(h1, s.sf * num.negFifthPower(err));
    RescaleBelow(h1, s.sf * num.negFifthPower(err));
  }

  lemma ScaleLow(h: real, factor: real)
    requires h > 0.0 && 0.1 <= factor
    ensures 0.1 * h <= h * factor
  {
  }

  lemma ScaleHigh(h: real, factor: real)
    requires h > 0.0 && factor <= 4.0
    ensures h * factor <= 4.0 * h
  {
  }

  lemma ScaleBelow(h: real, factor: real)
    requires h > 0.0 && factor < 1.0
    ensures h * factor < h
  {
  }

  /** `hmax` as a ceiling when positive and as a floor otherwise:
      `min(hmax, v)` or `max(hmax, v)`. */
  function CapByHmax(hmax: real, v: real): (r: real)
    ensures hmax > 0.0 ==> r <= hmax && r <= v && (r == hmax || r == v)
    ensures hmax <= 0.0 ==> r >= hmax && r >= v && (r == hmax || r == v)
  {
    if hmax > 0.0 then Min(hmax, v) else Max(hmax, v)
  }

  /** The step an accepted trial of size h1 with error estimate err asks for
      before hmax is applied: twice h1 when err is 0, else `h1 * SF * err ** (-0.2)`. */
  function Proposal<C>(s: Solver<C>, num: Numerics, h1: real, err: real): real
  {
    if err == 0.0 then 2.0 * h1 else h1 * s.sf * num.negFifthPower(err)
  }

  /** The next trial step h2 after accepting a step of size h1: the proposal
      bounded by hmax, `min(hmax, proposal)` when hmax is positive and
      `max(hmax, proposal)` otherwise. */
  function ProposeNext<C>(s: Solver<C>, num: Numerics, h1: real, err: real): (h2: real)
    ensures h2 == s.hmax || h2 == Proposal(s, num, h1, err)
    ensures s.hmax > 0.0 ==> h2 <= s.hmax && h2 <= Proposal(s, num, h1, err)
    ensures s.hmax <= 0.0 ==> h2 >= s.hmax && h2 >= Proposal(s, num, h1, err)
  {
    CapByHmax(s.hmax, Proposal(s, num, h1, err))
  }

  /** An exact step (err = 0) asks for twice the step: h2 is at least h1
      unless hmax caps it below, and then it is hmax. */
  lemma ExactStepGrows<C>(s: Solver<C>, num: Numerics, h1: real)
    requires h1 > 0.0
    ensures s.hmax <= 0.0 || 2.0 * h1 <= s.hmax ==> ProposeNext(s, num, h1, 0.0) == 2.0 * h1
    ensures ProposeNext(s, num, h1, 0.0) >= h1 || ProposeNext(s, num, h1, 0.0) == s.hmax
  {
  }

  /** With a positive safety factor, a positive accepted step proposes a
      positive next step, whatever the sign of hmax. */
  lemma ProposalPositive<C>(s: Solver<C>, num: Numerics, h1: real, err: real)
    requires num.PowerValid() && s.sf > 0.0 && h1 > 0.0 && err >= 0.0
    ensures ProposeNext(s, num, h1, err) > 0.0
  {
    if err != 0.0 {
      var p := num.negFifthPower(err);
      assert p > 0.0;
      assert h1 * s.sf > 0.0;
      assert h1 * s.sf * p > 0.0;
    }
  }

  datatype Option<T> = None | Some(value: T)

  /** The result of `next_step`: the new x, the accepted (fourth-order) state
      and the proposed next step. */
  datatype Step = Step(x: real, y: seq<real>, h: real)

  /** The retry loop of `next_step` from state y and trial step h1, with at
      most `fuel` trials: None when every one of them is rejected (the source
      then keeps retrying). */
  ghost function Search<C>(s: Solver<C>, num: Numerics, y: seq<real>, args: C, x: real, h1: real, fuel: nat)
    : (r: Option<Step>)
    requires h1 > 0.0
    ensures r.Some? ==> r.value.x > x
    ensures r.Some? && PreservesDimWith(s.f, args) ==> |r.value.y| == |y|
    ensures r.Some? && PreservesDimWith(s.f, args) && num.Valid() && s.sf > 0.0 ==> r.value.h > 0.0
    decreases fuel
  {
    if fuel == 0 then None
    else
      var t := TrialOf(s, num, y, args, h1);
      if t.err > 1.0 then
        RetryWithin(s, num, h1, t.err);
        Search(s, num, y, args, x, Retry(s, num, h1, t.err), fuel - 1)
      else
        assert PreservesDimWith(s.f, args) && num.Valid() && s.sf > 0.0 ==> ProposeNext(s, num, h1, t.err) > 0.0 by {
          if PreservesDimWith(s.f, args) && num.Valid() && s.sf > 0.0 {
            ProposalPositive(s, num, h1, t.err);
          }
        }
        Some(Step(x + h1, t.y4, ProposeNext(s, num, h1, t.err)))
  }

  /** The accepted step is never longer than the first trial, and strictly
      shorter when the first trial is rejected (safety factor at most 1). */
  lemma {:induction false} SearchNeverGrows<C>(s: Solver<C>, num: Numerics, y: seq<real>, args: C,
                                               x: real, h1: real, fuel: nat)
    requires h1 > 0.0 && num.PowerValid() && s.sf <= 1.0
    ensures var r := Search(s, num, y, args, x, h1, fuel);
            r.Some? ==> r.value.x - x <= h1 && (TrialOf(s, num, y, args, h1).err > 1.0 ==> r.value.x - x < h1)
    decreases fuel
  {
    var t := TrialOf(s, num, y, args, h1);
    if fuel > 0 && t.err > 1.0 {
      var h1' := Retry(s, num, h1, t.err);
      RetryShrinks(s, num, h1, t.err);
      SearchNeverGrows(s, num, y, args, x, h1', fuel - 1);
      assert Search(s, num, y, args, x, h1, fuel) == Search(s, num, y, args, x, h1', fuel - 1);
    }
  }

  /** An accepted step is the trial at the accepted step size: that trial's
      error estimate is at most 1, the new state is its fourth-order solution,
      and the returned h2 is the step proposed from it. */
  lemma {:induction false} SearchAccepts<C>(s: Solver<C>, num: Numerics, y: seq<real>, args: C,
                                            x: real, h1: real, fuel: nat)
    requires h1 > 0.0
    ensures var r := Search(s, num, y, args, x, h1, fuel);
            r.Some? ==>
              var h := r.value.x - x;
              var t := TrialOf(s, num, y, args, h);
              && t.err <= 1.0
              && r.value.y == t.y4
              && r.value.h == ProposeNext(s, num, h, t.err)
    decreases fuel
  {
    var t := TrialOf(s, num, y, args, h1);
    if fuel > 0 && t.err > 1.0 {
      RetryWithin(s, num, h1, t.err);
      SearchAccepts(s, num, y, args, x, Retry(s, num, h1, t.err), fuel - 1);
    } else if fuel > 0 {
      assert (x + h1) - x == h1;
    }
  }

  /** More trials never change an outcome already reached: the trial bound
      only cuts the loop short, it does not alter the accepted step. */
  lemma {:induction false} SearchFuelMonotone<C>(s: Solver<C>, num: Numerics, y: seq<real>, args: C,
                                                 x: real, h1: real, fuel: nat, more: nat)
    requires h1 > 0.0 && fuel <= more
    requires Search(s, num, y, args, x, h1, fuel).Some?
    ensures Search(s, num, y, args, x, h1, more) == Search(s, num, y, args, x, h1, fuel)
    decreases fuel
  {
    var t := TrialOf(s, num, y, args, h1);
    if t.err > 1.0 {
      RetryWithin(s, num, h1, t.err);
      SearchFuelMonotone(s, num, y, args, x, Retry(s, num, h1, t.err), fuel - 1, more - 1);
    }
  }

  /** One trial of `next_step` on the caller's stage matrix k: refill k in
      place for step h1 and combine it with both weight rows. Whatever k held
      from an earlier trial, the result is the trial of h1. */
  method RunTrial<C>(s: Solver<C>, num: Numerics, k: array<seq<real>>, y: seq<real>, h1: real, args: C)
    returns (y4: seq<real>, y5: seq<real>, err: real)
    requires h1 > 0.0 && PreservesDimWith(s.f, args)
    requires k.Length == 6 && Rows(k[..], |y|)
    modifies k
    ensures Rows(k[..], |y|)
    ensures k[..] == Stages(Fehlberg45.a, WithArgs(s.f, args), y, h1, |Fehlberg45.a|)
    ensures Trial(y4, y5, err) == TrialAt(s, num, y, h1, args)
  {
    FehlbergExplicit();
    FillStages(k, Fehlberg45.a, WithArgs(s.f, args), y, h1);
    y4 := Add(y, Dot(Fehlberg45.b[1], k[..], |y|));
    y5 := Add(y, Dot(Fehlberg45.b[0], k[..], |y|));
    err := num.norm(Sub(y4, y5)) / h1 / s.Atol();
  }

  /** One turn of the retry loop: a rejected trial hands the search on to the
      rescaled step with one trial fewer, an accepted one ends it. */
  lemma SearchTurn<C>(s: Solver<C>, num: Numerics, y: seq<real>, args: C, x: real, h1: real, fuel: nat,
                      t: Trial)
    requires h1 > 0.0 && fuel > 0 && PreservesDimWith(s.f, args)
    requires t == TrialAt(s, num, y, h1, args)
    ensures t.err > 1.0 ==>
              && Retry(s, num, h1, t.err) > 0.0
              && Search(s, num, y, args, x, h1, fuel) == Search(s, num, y, args, x, Retry(s, num, h1, t.err), fuel - 1)
    ensures t.err <= 1.0 ==>
              Search(s, num, y, args, x, h1, fuel) == Some(Step(x + h1, t.y4, ProposeNext(s, num, h1, t.err)))
  {
    RetryWithin(s, num, h1, t.err);
  }

  /** `next_step`: the stage matrix k is allocated once, before the retry loop,
      and refilled in place by every trial without being cleared. A rejected
      trial rescales h1 by the clamped factor; an accepted one returns
      `(x + h1, y4, h2)`. `maxTrials` bounds the retries; the source has no
      such bound. */
  method NextStep<C>(s: Solver<C>, num: Numerics, x: real, y: seq<real>, h: real, args: C,
                     maxTrials: nat) returns (r: Option<Step>)
    requires h > 0.0 && PreservesDimWith(s.f, args)
    ensures r == Search(s, num, y, args, x, h, maxTrials)
  {
    var k := new seq<real>[6](_ => Zeros(|y|));
    var h1 := h;
    var trials := 0;
    while trials < maxTrials
      invariant 0 <= trials <= maxTrials && h1 > 0.0
      invariant Rows(k[..], |y|)
      invariant Search(s, num, y, args, x, h, maxTrials) == Search(s, num, y, args, x, h1, maxTrials - trials)
    {
      var y4, y5, err := RunTrial(s, num, k, y, h1, args);
      SearchTurn(s, num, y, args, x, h1, maxTrials - trials, Trial(y4, y5, err));
      if err > 1.0 {
        h1 := Retry(s, num, h1, err);
        trials := trials + 1;
      } else {
        return Some(Step(x + h1, y4, ProposeNext(s, num, h1, err)));
      }
    }
    return None;
  }

  /** When the first trial is accepted, `next_step` returns it: x advances by
      the step it was given. */
  lemma FirstTrialAccepted<C>(s: Solver<C>, num: Numerics, x: real, y: seq<real>, h: real, args: C,
                              maxTrials: nat)
    requires h > 0.0 && PreservesDimWith(s.f, args) && maxTrials > 0
    requires TrialAt(s, num, y, h, args).err <= 1.0
    ensures Search(s, num, y, args, x, h, maxTrials)
            == Some(Step(x + h, TrialAt(s, num, y, h, args).y4, ProposeNext(s, num, h, TrialAt(s, num, y, h, args).err)))
  {
    SearchTurn(s, num, y, args, x, h, maxTrials, TrialAt(s, num, y, h, args));
  }

  /** Each point of xs, ys but the last passed the loop guard, and `next_step`
      from it with trial step hs[i] returned the next point and hs[i + 1]. */
  ghost predicate Stepped<C>(s: Solver<C>, num: Numerics, xEnd: real, args: C, maxTrials: nat,
                             xs: seq<real>, ys: seq<seq<real>>, hs: seq<real>)
    requires |xs| == |ys| == |hs|
    requires forall i :: 0 <= i < |hs| ==> hs[i] > 0.0
  {
    forall i :: 0 <= i < |xs| - 1 ==> StepAt(s, num, xEnd, args, maxTrials, xs, ys, hs, i)
  }

  /** Point i passed the loop guard and `next_step` from it returned point
      i + 1 and the trial step hs[i + 1]. */
  ghost predicate StepAt<C>(s: Solver<C>, num: Numerics, xEnd: real, args: C, maxTrials: nat,
                            xs: seq<real>, ys: seq<seq<real>>, hs: seq<real>, i: nat)
    requires |xs| == |ys| == |hs| && i < |xs| - 1 && hs[i] > 0.0
  {
    && Abs(xs[i]) <= Abs(xEnd)
    && Search(s, num, ys[i], args, xs[i], hs[i], maxTrials) == Some(Step(xs[i + 1], ys[i + 1], hs[i + 1]))
  }

  /** What the driver keeps while it runs: the three lists have one entry per
      point, every trial step is positive, every state has dimension n, and
      each point but the last was stepped from. */
  ghost predicate Trajectory<C>(s: Solver<C>, num: Numerics, xEnd: real, args: C, maxTrials: nat, n: nat,
                                xs: seq<real>, ys: seq<seq<real>>, hs: seq<real>)
  {
    && |xs| == |ys| == |hs| > 0
    && (forall i :: 0 <= i < |hs| ==> hs[i] > 0.0)
    && (forall i :: 0 <= i < |ys| ==> |ys[i]| == n)
    && Stepped(s, num, xEnd, args, maxTrials, xs, ys, hs)
  }

  /** Appending the step accepted from the last point keeps a trajectory one. */
  lemma TrajectoryExtend<C>(s: Solver<C>, num: Numerics, xEnd: real, args: C, maxTrials: nat, n: nat,
                            xs: seq<real>, ys: seq<seq<real>>, hs: seq<real>, next: Step)
    requires Trajectory(s, num, xEnd, args, maxTrials, n, xs, ys, hs)
    requires next.h > 0.0 && |next.y| == n
    requires Abs(xs[|xs| - 1]) <= Abs(xEnd)
    requires Search(s, num, ys[|ys| - 1], args, xs[|xs| - 1], hs[|hs| - 1], maxTrials) == Some(next)
    ensures Trajectory(s, num, xEnd, args, maxTrials, n, xs + [next.x], ys + [next.y], hs + [next.h])
  {
    SteppedExtend(s, num, xEnd, args, maxTrials, xs, ys, hs, next);
  }

  lemma SteppedExtend<C>(s: Solver<C>, num: Numerics, xEnd: real, args: C, maxTrials: nat,
                         xs: seq<real>, ys: seq<seq<real>>, hs: seq<real>, next: Step)
    requires |xs| == |ys| == |hs| > 0 && next.h > 0.0
    requires forall i :: 0 <= i < |hs| ==> hs[i] > 0.0
    requires Stepped(s, num, xEnd, args, maxTrials, xs, ys, hs)
    requires Abs(xs[|xs| - 1]) <= Abs(xEnd)
    requires Search(s, num, ys[|ys| - 1], args, xs[|xs| - 1], hs[|hs| - 1], maxTrials) == Some(next)
    ensures forall i :: 0 <= i < |hs| + 1 ==> (hs + [next.h])[i] > 0.0
    ensures Stepped(s, num, xEnd, args, maxTrials, xs + [next.x], ys + [next.y], hs + [next.h])
  {
    var xs', ys', hs' := xs + [next.x], ys + [next.y], hs + [next.h];
    assert forall i :: 0 <= i < |hs'| ==> hs'[i] > 0.0;
    forall i | 0 <= i < |xs'| - 1
      ensures StepAt(s, num, xEnd, args, maxTrials, xs', ys', hs', i)
    {
      if i < |xs| - 1 {
        assert StepAt(s, num, xEnd, args, maxTrials, xs, ys, hs, i);
        assert xs'[i] == xs[i] && xs'[i + 1] == xs[i + 1];
        assert ys'[i] == ys[i] && ys'[i + 1] == ys[i + 1];
        assert hs'[i] == hs[i] && hs'[i + 1] == hs[i + 1];
      }
    }
  }

  /** Along a run of accepted steps, x strictly increases. */
  lemma SteppedAdvances<C>(s: Solver<C>, num: Numerics, xEnd: real, args: C, maxTrials: nat,
                           xs: seq<real>, ys: seq<seq<real>>, hs: seq<real>)
    requires |xs| == |ys| == |hs|
    requires forall i :: 0 <= i < |hs| ==> hs[i] > 0.0
    requires Stepped(s, num, xEnd, args, maxTrials, xs, ys, hs)
    ensures forall i, j :: 0 <= i < j < |xs| ==> xs[i] < xs[j]
  {
    forall i, j | 0 <= i < j < |xs|
      ensures xs[i] < xs[j]
    {
      IncreasingUpTo(s, num, xEnd, args, maxTrials, xs, ys, hs, i, j);
    }
  }

  lemma {:induction false} IncreasingUpTo<C>(s: Solver<C>, num: Numerics, xEnd: real, args: C, maxTrials: nat,
                                             xs: seq<real>, ys: seq<seq<real>>, hs: seq<real>, i: nat, j: nat)
    requires |xs| == |ys| == |hs|
    requires forall i :: 0 <= i < |hs| ==> hs[i] > 0.0
    requires Stepped(s, num, xEnd, args, maxTrials, xs, ys, hs)
    requires i < j < |xs|
    ensures xs[i] < xs[j]
    decreases j
  {
    assert StepAt(s, num, xEnd, args, maxTrials, xs, ys, hs, j - 1);
    if i < j - 1 {
      IncreasingUpTo(s, num, xEnd, args, maxTrials, xs, ys, hs, i, j - 1);
    }
  }

  /** Every trial of `next_step` from the last point was rejected. */
  ghost predicate Exhausted<C>(s: Solver<C>, num: Numerics, args: C, maxTrials: nat,
                               xs: seq<real>, ys: seq<seq<real>>, hs: seq<real>)
    requires |xs| == |ys| == |hs| > 0 && hs[|hs| - 1] > 0.0
  {
    Search(s, num, ys[|ys| - 1], args, xs[|xs| - 1], hs[|hs| - 1], maxTrials).None?
  }

  /** One turn of `integrate`'s loop: call `next_step` from the last point with
      the current trial step h and append what it returns. `stopped` reports
      that the retries ran out. */
  method Advance<C>(s: Solver<C>, num: Numerics, xEnd: real, args: C, maxTrials: nat, n: nat,
                    xs: seq<real>, ys: seq<seq<real>>, ghost hs: seq<real>, h: real)
    returns (stopped: bool, xs': seq<real>, ys': seq<seq<real>>, ghost hs': seq<real>, h': real)
    requires Trajectory(s, num, xEnd, args, maxTrials, n, xs, ys, hs) && h == hs[|hs| - 1]
    requires num.Valid() && s.sf > 0.0 && PreservesDimWith(s.f, args)
    requires Abs(xs[|xs| - 1]) <= Abs(xEnd)
    ensures Trajectory(s, num, xEnd, args, maxTrials, n, xs', ys', hs') && h' == hs'[|hs'| - 1]
    ensures stopped ==> Exhausted(s, num, args, maxTrials, xs, ys, hs)
    ensures stopped ==> xs' == xs && ys' == ys && hs' == hs && h' == h
    ensures !stopped ==> |xs'| == |xs| + 1 && xs'[..|xs|] == xs && ys'[..|ys|] == ys && hs'[..|hs|] == hs
  {
    var next := NextStep(s, num, xs[|xs| - 1], ys[|ys| - 1], h, args, maxTrials);
    if next.None? {
      return true, xs, ys, hs, h;
    }
    var step := next.value;
    TrajectoryExtend(s, num, xEnd, args, maxTrials, n, xs, ys, hs, step);
    stopped, xs', ys', hs', h' := false, xs + [step.x], ys + [step.y], hs + [step.h], step.h;
    assert xs'[..|xs|] == xs && ys'[..|ys|] == ys && hs'[..|hs|] == hs;
  }

  /** `integrate`: while |x| has not passed |x_end|, call `next_step` with the
      current trial step, append the returned point and adopt the returned h2.
      `maxSteps` bounds the number of steps and `maxTrials` the retries of each;
      the source has neither bound. The ghost hs records the trial step handed
      to each call. */
  method Integrate<C>(s: Solver<C>, num: Numerics, xStart: real, xEnd: real, yStart: seq<real>,
                      initialStep: real, args: C, maxSteps: nat, maxTrials: nat)
    returns (xs: seq<real>, ys: seq<seq<real>>, ghost hs: seq<real>)
    requires num.Valid() && s.sf > 0.0 && initialStep > 0.0 && PreservesDimWith(s.f, args)
    ensures Trajectory(s, num, xEnd, args, maxTrials, |yStart|, xs, ys, hs)
    ensures |xs| <= maxSteps + 1
    ensures xs[0] == xStart && ys[0] == yStart && hs[0] == initialStep
    ensures forall i, j :: 0 <= i < j < |xs| ==> xs[i] < xs[j]
    ensures |xs| <= maxSteps ==> Abs(xs[|xs| - 1]) > Abs(xEnd) || Exhausted(s, num, args, maxTrials, xs, ys, hs)
  {
    xs, ys, hs := [xStart], [yStart], [initialStep];
    var h := initialStep;
    var stopped := false;
    while !stopped && |xs| <= maxSteps && Abs(xs[|xs| - 1]) <= Abs(xEnd)
      invariant Trajectory(s, num, xEnd, args, maxTrials, |yStart|, xs, ys, hs)
      invariant |xs| <= maxSteps + 1
      invariant xs[0] == xStart && ys[0] == yStart && hs[0] == initialStep
      invariant h == hs[|hs| - 1]
      invariant stopped ==> Exhausted(s, num, args, maxTrials, xs, ys, hs)
      decreases maxSteps + 1 - |xs|, if stopped then 0 else 1
    {
      ghost var xs0, ys0, hs0 := xs, ys, hs;
      stopped, xs, ys, hs, h := Advance(s, num, xEnd, args, maxTrials, |yStart|, xs, ys, hs, h);
      assert xs[0] == xs0[0] && ys[0] == ys0[0] && hs[0] == hs0[0];
    }
    SteppedAdvances(s, num, xEnd, args, maxTrials, xs, ys, hs);
  }
}
