/** The simulator (Simulator.cpp:8-31): an ordered collection of bodies advanced one
    tick at a time by an all-pairs force phase followed by an integration phase.

    `Tick` says on values what one call of `Simulator.Update` does; the lemmas below it
    show that the net forces of a tick cancel and that a tick conserves momentum. */
module Simulation {
  import opened Vectors
  import opened Bodies
  import opened Gravity

  // ---------------------------------------------------------------------------
  // One tick, on values

  /** The indices below k other than i, in increasing order. */
  function Others(i: nat, k: nat): (r: seq<nat>)
    ensures forall n :: 0 <= n < |r| ==> r[n] < k && r[n] != i
    ensures forall j: nat :: j < k && j != i ==> j in r
    ensures forall a, b :: 0 <= a < b < |r| ==> r[a] < r[b]
  {
    if k == 0 then []
    else if k - 1 == i then Others(i, k - 1)
    else Others(i, k - 1) + [k - 1]
  }

  /** The sum of the pulls on body i from the bodies listed in `js`, in list order. */
  function SumOfPulls(s: seq<BodyState>, i: nat, js: seq<nat>, norm: Vec3 -> real): Vec3
    requires i < |s| && forall n :: 0 <= n < |js| ==> js[n] < |s|
  {
    if js == [] then Zero
    else Add(SumOfPulls(s, i, js[..|js| - 1], norm), Force(s[i], s[js[|js| - 1]], norm))
  }

  /** The force accumulated on body i after the inner loop has visited bodies
      0 .. k-1, the self-pair skipped. */
  function PartialForce(s: seq<BodyState>, i: nat, k: nat, norm: Vec3 -> real): Vec3
    requires i < |s| && k <= |s|
  {
    if k == 0 then Zero
    else if k - 1 == i then PartialForce(s, i, k - 1, norm)
    else Add(PartialForce(s, i, k - 1, norm), Force(s[i], s[k - 1], norm))
  }

  /** The inner loop after k steps holds the sum of the pulls from exactly the bodies
      j < k with j != i, in index order. */
  lemma {:induction false} PartialForceSumsOthers(s: seq<BodyState>, i: nat, k: nat, norm: Vec3 -> real)
    requires i < |s| && k <= |s|
    ensures PartialForce(s, i, k, norm) == SumOfPulls(s, i, Others(i, k), norm)
  {
    if k > 0 {
      PartialForceSumsOthers(s, i, k - 1, norm);
      if k - 1 == i {
        SkipStep(s, i, k, norm);
      } else {
        PullStep(s, i, k, norm);
      }
    }
  }

  lemma SkipStep(s: seq<BodyState>, i: nat, k: nat, norm: Vec3 -> real)
    requires 0 < k <= |s| && k - 1 == i
    ensures Others(i, k) == Others(i, k - 1)
    ensures PartialForce(s, i, k, norm) == PartialForce(s, i, k - 1, norm)
  {
  }

  lemma PullStep(s: seq<BodyState>, i: nat, k: nat, norm: Vec3 -> real)
    requires i < |s| && 0 < k <= |s| && k - 1 != i
    ensures PartialForce(s, i, k, norm) == Add(PartialForce(s, i, k - 1, norm), Force(s[i], s[k - 1], norm))
    ensures SumOfPulls(s, i, Others(i, k), norm)
         == Add(SumOfPulls(s, i, Others(i, k - 1), norm), Force(s[i], s[k - 1], norm))
  {
    assert Others(i, k) == Others(i, k - 1) + [k - 1];
    SumOfPullsAppend(s, i, Others(i, k - 1), k - 1, norm);
  }

  lemma SumOfPullsAppend(s: seq<BodyState>, i: nat, js: seq<nat>, j: nat, norm: Vec3 -> real)
    requires i < |s| && j < |s| && forall n :: 0 <= n < |js| ==> js[n] < |s|
    ensures SumOfPulls(s, i, js + [j], norm) == Add(SumOfPulls(s, i, js, norm), Force(s[i], s[j], norm))
  {
    assert (js + [j])[..|js|] == js;
  }

  /** The total force on body i from every other body. */
  function NetForce(s: seq<BodyState>, i: nat, norm: Vec3 -> real): Vec3
    requires i < |s|
  {
    PartialForce(s, i, |s|, norm)
  }

  /** The net force on body i is the sum of the pulls from exactly the bodies j != i,
      in index order: the self-pair never contributes. */
  lemma NetForceSumsOthers(s: seq<BodyState>, i: nat, norm: Vec3 -> real)
    requires i < |s|
    ensures NetForce(s, i, norm) == SumOfPulls(s, i, Others(i, |s|), norm)
    ensures forall j: nat :: j in Others(i, |s|) <==> j < |s| && j != i
  {
    PartialForceSumsOthers(s, i, |s|, norm);
  }

  ghost predicate AllMassive(s: seq<BodyState>) {
    forall k :: 0 <= k < |s| ==> 0.0 < s[k].mass
  }

  ghost predicate AtRest(s: seq<BodyState>) {
    forall k :: 0 <= k < |s| ==> s[k].acceleration == Zero
  }

  /** The force phase: every body's accumulator receives its net force, all computed
      from the start-of-tick state; only the accumulators change. */
  function ForcePhase(s: seq<BodyState>, norm: Vec3 -> real): (r: seq<BodyState>)
    requires AllMassive(s)
    ensures |r| == |s| && AllMassive(r)
    ensures forall k :: 0 <= k < |s| ==>
      r[k].mass == s[k].mass && r[k].position == s[k].position &&
      r[k].velocity == s[k].velocity && r[k].trajectory == s[k].trajectory
  {
    seq(|s|, k requires 0 <= k < |s| => Accelerated(s[k], NetForce(s, k, norm)))
  }

  /** The integration phase: every body, index 0 included, takes one Euler step. */
  function IntegratePhase(s: seq<BodyState>, dt: real): (r: seq<BodyState>)
    ensures |r| == |s| && AtRest(r)
    ensures forall k :: 0 <= k < |s| ==> r[k].mass == s[k].mass && r[k].trajectory == s[k].trajectory
  {
    seq(|s|, k requires 0 <= k < |s| => Stepped(s[k], dt))
  }

  /** One call of Simulator::update. */
  function Tick(s: seq<BodyState>, dt: real, norm: Vec3 -> real): (r: seq<BodyState>)
    requires AllMassive(s)
    ensures |r| == |s| && AllMassive(r) && AtRest(r)
    ensures forall k :: 0 <= k < |s| ==> r[k].mass == s[k].mass && r[k].trajectory == s[k].trajectory
  {
    IntegratePhase(ForcePhase(s, norm), dt)
  }

  /** What a tick does to one body: its velocity gains (old acceleration + net force /
      mass) * dt and its position moves by the new velocity * dt. */
  lemma TickOfBody(s: seq<BodyState>, dt: real, norm: Vec3 -> real, k: nat)
    requires AllMassive(s) && k < |s|
    ensures var a := Add(s[k].acceleration, Div(NetForce(s, k, norm), s[k].mass));
            var v := Add(s[k].velocity, Scale(a, dt));
            Tick(s, dt, norm)[k].velocity == v &&
            Tick(s, dt, norm)[k].position == Add(s[k].position, Scale(v, dt))
  {
  }

  /** n ticks in a row. */
  function Run(s: seq<BodyState>, dt: real, norm: Vec3 -> real, n: nat): (r: seq<BodyState>)
    requires AllMassive(s)
    ensures |r| == |s| && AllMassive(r)
    ensures forall k :: 0 <= k < |s| ==> r[k].mass == s[k].mass && r[k].trajectory == s[k].trajectory
    decreases n
  {
    if n == 0 then s else Run(Tick(s, dt, norm), dt, norm, n - 1)
  }

  // ---------------------------------------------------------------------------
  // Which bodies pull on which

  /** The forces depend only on masses and positions: velocities and accumulators have
      no say, so applying forces to earlier bodies does not change later ones. */
  lemma {:induction false} ForcesFromPositions(s: seq<BodyState>, t: seq<BodyState>, i: nat, k: nat, norm: Vec3 -> real)
    requires |s| == |t| && i < |s| && k <= |s|
    requires forall j :: 0 <= j < |s| ==> s[j].mass == t[j].mass && s[j].position == t[j].position
    ensures PartialForce(s, i, k, norm) == PartialForce(t, i, k, norm)
  {
    if k > 0 {
      ForcesFromPositions(s, t, i, k - 1, norm);
    }
  }

  /** A body alone feels no force. */
  lemma LoneBody(b: BodyState, norm: Vec3 -> real)
    ensures NetForce([b], 0, norm) == Zero
  {
    assert PartialForce([b], 0, 1, norm) == PartialForce([b], 0, 0, norm);
  }

  /** With two bodies, each feels exactly the pull of the other. */
  lemma TwoBodies(b0: BodyState, b1: BodyState, norm: Vec3 -> real)
    ensures NetForce([b0, b1], 0, norm) == Force(b0, b1, norm)
    ensures NetForce([b0, b1], 1, norm) == Force(b1, b0, norm)
  {
    var s := [b0, b1];
    var f01 := Force(b0, b1, norm);
    var f10 := Force(b1, b0, norm);
    assert PartialForce(s, 0, 2, norm) == Add(PartialForce(s, 0, 1, norm), f01);
    assert PartialForce(s, 0, 1, norm) == PartialForce(s, 0, 0, norm);
    AddZeroLeft(f01);
    assert PartialForce(s, 1, 2, norm) == PartialForce(s, 1, 1, norm);
    assert PartialForce(s, 1, 1, norm) == Add(PartialForce(s, 1, 0, norm), f10);
    AddZeroLeft(f10);
  }

  lemma AddZeroLeft(a: Vec3)
    ensures Add(Zero, a) == a
  {
  }

  /** Adding a body adds exactly its pull to every earlier body's net force. */
  lemma {:induction false} AddedBodyPull(s: seq<BodyState>, b: BodyState, i: nat, norm: Vec3 -> real)
    requires i < |s|
    ensures NetForce(s + [b], i, norm) == Add(NetForce(s, i, norm), Force(s[i], b, norm))
  {
    PrefixForces(s, [b], i, |s|, norm);
  }

  lemma {:induction false} PrefixForces(s: seq<BodyState>, extra: seq<BodyState>, i: nat, k: nat, norm: Vec3 -> real)
    requires i < |s| && k <= |s|
    ensures PartialForce(s + extra, i, k, norm) == PartialForce(s, i, k, norm)
  {
    if k > 0 {
      PrefixForces(s, extra, i, k - 1, norm);
      assert (s + extra)[k - 1] == s[k - 1] && (s + extra)[i] == s[i];
    }
  }

  // ---------------------------------------------------------------------------
  // The net forces of a tick cancel

  /** Sum over bodies 0 .. m-1 of the force accumulated after the inner loop visited
      bodies 0 .. k-1. */
  function ForceSum(s: seq<BodyState>, k: nat, m: nat, norm: Vec3 -> real): Vec3
    requires k <= |s| && m <= |s|
  {
    if m == 0 then Zero else Add(ForceSum(s, k, m - 1, norm), PartialForce(s, m - 1, k, norm))
  }

  /** Sum over bodies 0 .. m-1 of the force on them due to body k. */
  function PullSum(s: seq<BodyState>, k: nat, m: nat, norm: Vec3 -> real): Vec3
    requires k < |s| && m <= |s|
  {
    if m == 0 then Zero else Add(PullSum(s, k, m - 1, norm), Force(s[m - 1], s[k], norm))
  }

  /** The sum of every body's net force. */
  function TotalForce(s: seq<BodyState>, norm: Vec3 -> real): Vec3 {
    ForceSum(s, |s|, |s|, norm)
  }

  /** What body k feels from bodies 0 .. j-1 is the reverse of what they feel from k. */
  lemma {:induction false} ReactionSum(s: seq<BodyState>, k: nat, j: nat, norm: Vec3 -> real)
    requires Reciprocal(norm) && j <= k < |s|
    ensures PartialForce(s, k, j, norm) == Neg(PullSum(s, k, j, norm))
  {
    if j > 0 {
      ReactionSum(s, k, j - 1, norm);
      var p := PartialForce(s, k, j - 1, norm);
      var c := PullSum(s, k, j - 1, norm);
      assert p == Neg(c);
      var f := Force(s[k], s[j - 1], norm);
      var g := Force(s[j - 1], s[k], norm);
      assert f == Neg(g);
      assert PartialForce(s, k, j, norm) == Add(p, f);
      assert PullSum(s, k, j, norm) == Add(c, g);
      NegAdd(p, c, f, g);
    }
  }

  lemma NegAdd(p: Vec3, c: Vec3, f: Vec3, g: Vec3)
    requires p == Neg(c) && f == Neg(g)
    ensures Add(p, f) == Neg(Add(c, g))
  {
  }

  /** Letting the inner loop visit one more body k adds k's pull on bodies 0 .. m-1. */
  lemma {:induction false} ForceSumStep(s: seq<BodyState>, k: nat, m: nat, norm: Vec3 -> real)
    requires m <= k < |s|
    ensures ForceSum(s, k + 1, m, norm) == Add(ForceSum(s, k, m, norm), PullSum(s, k, m, norm))
  {
    if m > 0 {
      ForceSumStep(s, k, m - 1, norm);
    }
  }

  lemma {:induction false} ForcesCancelUpTo(s: seq<BodyState>, k: nat, norm: Vec3 -> real)
    requires Reciprocal(norm) && k <= |s|
    ensures ForceSum(s, k, k, norm) == Zero
  {
    if k > 0 {
      var j := k - 1;
      ForcesCancelUpTo(s, j, norm);
      ForceSumStep(s, j, j, norm);
      ReactionSum(s, j, j, norm);
      assert PartialForce(s, j, k, norm) == PartialForce(s, j, j, norm);
    }
  }

  /** By Newton's third law the net forces of one tick sum to zero. */
  lemma NetForcesCancel(s: seq<BodyState>, norm: Vec3 -> real)
    requires IsLength(norm)
    ensures TotalForce(s, norm) == Zero
  {
    ThirdLawForAll(norm);
    ForcesCancelUpTo(s, |s|, norm);
  }

  // ---------------------------------------------------------------------------
  // Momentum

  /** Sum of mass * velocity over bodies 0 .. m-1. */
  function MomentumUpTo(s: seq<BodyState>, m: nat): Vec3
    requires m <= |s|
  {
    if m == 0 then Zero else Add(MomentumUpTo(s, m - 1), Scale(s[m - 1].velocity, s[m - 1].mass))
  }

  function Momentum(s: seq<BodyState>): Vec3 {
    MomentumUpTo(s, |s|)
  }

  lemma BodyMomentumStep(v: Vec3, f: Vec3, m: real, dt: real)
    requires m != 0.0
    ensures Scale(Add(v, Scale(Add(Zero, Div(f, m)), dt)), m) == Add(Scale(v, m), Scale(f, dt))
  {
    assert (v.x + (0.0 + f.x / m) * dt) * m == v.x * m + f.x * dt;
    assert (v.y + (0.0 + f.y / m) * dt) * m == v.y * m + f.y * dt;
    assert (v.z + (0.0 + f.z / m) * dt) * m == v.z * m + f.z * dt;
  }

  lemma ScaleAdd(a: Vec3, b: Vec3, k: real)
    ensures Scale(Add(a, b), k) == Add(Scale(a, k), Scale(b, k))
  {
    assert (a.x + b.x) * k == a.x * k + b.x * k;
    assert (a.y + b.y) * k == a.y * k + b.y * k;
    assert (a.z + b.z) * k == a.z * k + b.z * k;
  }

  /** Over a tick that starts at rest, the momentum of bodies 0 .. m-1 grows by
      dt times the sum of their net forces. */
  lemma {:induction false} MomentumStep(s: seq<BodyState>, dt: real, norm: Vec3 -> real, m: nat)
    requires AllMassive(s) && AtRest(s) && m <= |s|
    ensures MomentumUpTo(Tick(s, dt, norm), m)
         == Add(MomentumUpTo(s, m), Scale(ForceSum(s, |s|, m, norm), dt))
  {
    if m > 0 {
      var i := m - 1;
      MomentumStep(s, dt, norm, i);
      var f := NetForce(s, i, norm);
      var r := Tick(s, dt, norm);
      assert r[i].velocity == Add(s[i].velocity, Scale(Add(Zero, Div(f, s[i].mass)), dt));
      BodyMomentumStep(s[i].velocity, f, s[i].mass, dt);
      ScaleAdd(ForceSum(s, |s|, i, norm), f, dt);
    } else {
      assert Scale(Zero, dt) == Zero;
    }
  }

  /** A tick that starts with every accumulator at zero conserves total momentum. */
  lemma MomentumConserved(s: seq<BodyState>, dt: real, norm: Vec3 -> real)
    requires IsLength(norm) && AllMassive(s) && AtRest(s)
    ensures Momentum(Tick(s, dt, norm)) == Momentum(s)
  {
    MomentumStep(s, dt, norm, |s|);
    NetForcesCancel(s, norm);
    ImpulseOfZero(MomentumUpTo(s, |s|), ForceSum(s, |s|, |s|, norm), dt);
  }

  lemma ImpulseOfZero(p: Vec3, f: Vec3, dt: real)
    requires f == Zero
    ensures Add(p, Scale(f, dt)) == p
  {
  }

  /** Every tick leaves the accumulators at zero, so momentum is conserved over any
      number of ticks from a state at rest. */
  lemma {:induction false} MomentumConservedOverRun(s: seq<BodyState>, dt: real, norm: Vec3 -> real, n: nat)
    requires IsLength(norm) && AllMassive(s) && AtRest(s)
    ensures Momentum(Run(s, dt, norm, n)) == Momentum(s)
    decreases n
  {
    if n > 0 {
      var t := Tick(s, dt, norm);
      assert Run(s, dt, norm, n) == Run(t, dt, norm, n - 1);
      MomentumConserved(s, dt, norm);
      MomentumConservedOverRun(t, dt, norm, n - 1);
    }
  }

  /** Midway through the force loop, bodies before i have received their force and
      the rest are as at the start: body i's net force is still the start-of-tick one. */
  lemma StartOfTickForce(now: seq<BodyState>, s0: seq<BodyState>, i: nat, norm: Vec3 -> real)
    requires AllMassive(s0) && |now| == |s0| && i < |s0|
    requires forall k :: 0 <= k < i ==> now[k] == ForcePhase(s0, norm)[k]
    requires forall k :: i <= k < |s0| ==> now[k] == s0[k]
    ensures NetForce(now, i, norm) == NetForce(s0, i, norm)
  {
    ForcesFromPositions(now, s0, i, |s0|, norm);
  }

  // ---------------------------------------------------------------------------
  // The simulator object

  class Simulator {
    var bodies: seq<CelestialBody>

    ghost predicate Valid()
      reads this, bodies
    {
      (forall k :: 0 <= k < |bodies| ==> bodies[k].Valid()) &&
      (forall k, l :: 0 <= k < l < |bodies| ==> bodies[k] != bodies[l])
    }

    /** getBodies: the values of the bodies, in order. */
    function States(): seq<BodyState>
      reads this, bodies
    {
      seq(|bodies|, k reads this, bodies requires 0 <= k < |bodies| => bodies[k].State())
    }

    lemma ValidIsMassive()
      requires Valid()
      ensures AllMassive(States())
    {
    }

    constructor ()
      ensures Valid() && bodies == []
    {
      bodies := [];
    }

    /** addBody: a copy of `body` is appended; earlier bodies are untouched. */
    method AddBody(body: CelestialBody)
      requires Valid() && body.Valid()
      modifies this
      ensures Valid()
      ensures |bodies| == |old(bodies)| + 1 && bodies[..|old(bodies)|] == old(bodies)
      ensures fresh(bodies[|old(bodies)|])
      ensures bodies[|old(bodies)|].maxTrajectoryPoints == body.maxTrajectoryPoints
      ensures States() == old(States()) + [body.State()]
    {
      var copy := new CelestialBody.Copy(body);
      bodies := bodies + [copy];
    }

    /** The inner loop of update for body i: the sum of the forces on it from every
        other body, in index order. */
    method NetForceOn(i: nat, norm: Vec3 -> real) returns (total: Vec3)
      requires i < |bodies|
      ensures total == NetForce(States(), i, norm)
    {
      total := Zero;
      var j := 0;
      while j < |bodies|
        invariant j <= |bodies|
        invariant total == PartialForce(States(), i, j, norm)
      {
        if i != j {
          var force := Force(bodies[i].State(), bodies[j].State(), norm);
          total := Add(total, force);
        }
        j := j + 1;
      }
    }

    /** update(dt): the force phase for every body, then the integration phase. */
    method Update(dt: real, norm: Vec3 -> real)
      requires Valid()
      modifies bodies
      ensures Valid() && bodies == old(bodies)
      ensures AllMassive(old(States())) && States() == Tick(old(States()), dt, norm)
    {
      ValidIsMassive();
      ApplyNetForces(norm);
      Integrate(dt);
    }

    /** The first loop of update: every body receives its net force, each computed
        from the positions at the start of the loop. */
    method ApplyNetForces(norm: Vec3 -> real)
      requires Valid()
      modifies bodies
      ensures Valid() && bodies == old(bodies)
      ensures AllMassive(old(States())) && States() == ForcePhase(old(States()), norm)
    {
      ValidIsMassive();
      ghost var s0 := States();
      ghost var forced := ForcePhase(s0, norm);
      var i := 0;
      while i < |bodies|
        invariant 0 <= i <= |bodies| && Valid()
        invariant forall k :: 0 <= k < i ==> bodies[k].State() == forced[k]
        invariant forall k :: i <= k < |bodies| ==> bodies[k].State() == s0[k]
      {
        var total := NetForceOn(i, norm);
        StartOfTickForce(States(), s0, i, norm);
        bodies[i].ApplyForce(total);
        i := i + 1;
      }
    }

    /** The second loop of update: every body takes one Euler step. */
    method Integrate(dt: real)
      requires Valid()
      modifies bodies
      ensures Valid() && bodies == old(bodies)
      ensures States() == IntegratePhase(old(States()), dt)
    {
      ghost var s0 := States();
      var i := 0;
      while i < |bodies|
        invariant 0 <= i <= |bodies| && Valid()
        invariant forall k :: 0 <= k < |bodies| ==>
          bodies[k].State() == if k < i then Stepped(s0[k], dt) else s0[k]
      {
        bodies[i].Update(dt);
        i := i + 1;
      }
    }
  }
}
