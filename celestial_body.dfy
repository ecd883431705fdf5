/** One celestial body: mass, kinematic state, a force accumulator and a bounded trail
    of past positions (CelestialBody.cpp). The class `CelestialBody` holds the state the
    original updates in place; `BodyState` is its value, on which the operations are
    specified. */
module Bodies {
  import opened Vectors

  /** The value of a body at one instant. */
  datatype BodyState = BodyState(
    mass: real,
    position: Vec3,
    velocity: Vec3,
    acceleration: Vec3,
    trajectory: seq<Vec3>)

  /** `applyForce`: the accumulator grows by force / mass; nothing else changes. */
  function Accelerated(b: BodyState, force: Vec3): BodyState
    requires b.mass != 0.0
  {
    b.(acceleration := Add(b.acceleration, Div(force, b.mass)))
  }

  /** `update`: one semi-implicit Euler step (velocity first, then position from the
      new velocity), after which the accumulator is reset. */
  function Stepped(b: BodyState, dt: real): BodyState {
    var v := Add(b.velocity, Scale(b.acceleration, dt));
    b.(velocity := v, position := Add(b.position, Scale(v, dt)), acceleration := Zero)
  }

  /** `addToTrajectory`: append, then drop the oldest point when over capacity. */
  function Pushed(trail: seq<Vec3>, p: Vec3, capacity: nat): (r: seq<Vec3>)
    requires 0 < capacity
    ensures |trail| <= capacity ==> |r| <= capacity
    ensures 0 < |r| && r[|r| - 1] == p
    ensures |trail| < capacity ==> |r| == |trail| + 1 && r[..|trail|] == trail
    ensures |trail| == capacity ==> r == trail[1..] + [p]
  {
    var grown := trail + [p];
    if |grown| > capacity then grown[1..] else grown
  }

  /** Reference definition of a bounded trail: the newest `capacity` points of `s`. */
  function Newest(s: seq<Vec3>, capacity: nat): seq<Vec3> {
    if |s| <= capacity then s else s[|s| - capacity..]
  }

  /** The trail after pushing every point of `ps`, first to last. */
  function PushedAll(trail: seq<Vec3>, ps: seq<Vec3>, capacity: nat): seq<Vec3>
    requires 0 < capacity
  {
    if ps == [] then trail
    else Pushed(PushedAll(trail, ps[..|ps| - 1], capacity), ps[|ps| - 1], capacity)
  }

  lemma NewestOfNewest(s: seq<Vec3>, p: Vec3, capacity: nat)
    requires 0 < capacity
    ensures Newest(Newest(s, capacity) + [p], capacity) == Newest(s + [p], capacity)
  {
    if |s| > capacity {
      var n := s[|s| - capacity..];
      assert (n + [p])[1..] == s[|s| - capacity + 1..] + [p];
      assert (s + [p])[|s| + 1 - capacity..] == s[|s| + 1 - capacity..] + [p];
    }
  }

  lemma PushedIsNewest(trail: seq<Vec3>, p: Vec3, capacity: nat)
    requires 0 < capacity && |trail| <= capacity
    ensures Pushed(trail, p, capacity) == Newest(trail + [p], capacity)
  {
  }

  /** A trail that starts within capacity always holds exactly the newest `capacity`
      points of everything it has been given, oldest first: strict FIFO eviction. */
  lemma {:induction false} PushedAllKeepsNewest(trail: seq<Vec3>, ps: seq<Vec3>, capacity: nat)
    requires 0 < capacity && |trail| <= capacity
    ensures PushedAll(trail, ps, capacity) == Newest(trail + ps, capacity)
  {
    if ps != [] {
      var init := ps[..|ps| - 1];
      var p := ps[|ps| - 1];
      PushedAllKeepsNewest(trail, init, capacity);
      var before := Newest(trail + init, capacity);
      assert |before| <= capacity;
      calc {
        PushedAll(trail, ps, capacity);
        Pushed(before, p, capacity);
        { PushedIsNewest(before, p, capacity); }
        Newest(before + [p], capacity);
        { NewestOfNewest(trail + init, p, capacity); }
        Newest(trail + init + [p], capacity);
        { assert trail + init + [p] == trail + ps; }
        Newest(trail + ps, capacity);
      }
    }
  }

  /** Counting from an empty trail: after n >= capacity pushes the oldest retained
      point is the (n - capacity + 1)-th one pushed, and the newest is the last. */
  lemma OldestRetained(ps: seq<Vec3>, capacity: nat)
    requires 0 < capacity <= |ps|
    ensures |PushedAll([], ps, capacity)| == capacity
    ensures PushedAll([], ps, capacity)[0] == ps[|ps| - capacity]
    ensures PushedAll([], ps, capacity)[capacity - 1] == ps[|ps| - 1]
  {
    PushedAllKeepsNewest([], ps, capacity);
    assert [] + ps == ps;
  }

  /** Two `applyForce` calls commute, and together add (f1 + f2) / mass. */
  lemma AccumulationCommutes(b: BodyState, f1: Vec3, f2: Vec3)
    requires b.mass != 0.0
    ensures Accelerated(Accelerated(b, f1), f2) == Accelerated(Accelerated(b, f2), f1)
    ensures Accelerated(Accelerated(b, f1), f2) == Accelerated(b, Add(f1, f2))
  {
    var m := b.mass;
    DivAdd(f1.x, f2.x, m);
    DivAdd(f1.y, f2.y, m);
    DivAdd(f1.z, f2.z, m);
  }

  lemma DivAdd(a: real, b: real, m: real)
    requires m != 0.0
    ensures a / m + b / m == (a + b) / m
  {
    assert a / m == a * (1.0 / m) && b / m == b * (1.0 / m) && (a + b) / m == (a + b) * (1.0 / m);
  }

  /** The position update uses the new velocity: the displacement over one step is
      v*dt + a*dt*dt, not the explicit-Euler v*dt. */
  lemma SteppedDisplacement(b: BodyState, dt: real)
    ensures Stepped(b, dt).position
         == Add(b.position, Add(Scale(b.velocity, dt), Scale(b.acceleration, dt * dt)))
    ensures Stepped(b, dt).velocity == Add(b.velocity, Scale(b.acceleration, dt))
    ensures Stepped(b, dt).acceleration == Zero
    ensures Stepped(b, dt).mass == b.mass && Stepped(b, dt).trajectory == b.trajectory
  {
    var a := b.acceleration;
    var v := b.velocity;
    assert (v.x + a.x * dt) * dt == v.x * dt + a.x * (dt * dt);
    assert (v.y + a.y * dt) * dt == v.y * dt + a.y * (dt * dt);
    assert (v.z + a.z * dt) * dt == v.z * dt + a.z * (dt * dt);
  }

  class CelestialBody {
    var mass: real
    var position: Vec3
    var velocity: Vec3
    var acceleration: Vec3
    var trajectory: seq<Vec3>
    /** MAX_TRAJECTORY_POINTS. */
    const maxTrajectoryPoints: nat

    ghost predicate Valid()
      reads this
    {
      0.0 < mass && 0 < maxTrajectoryPoints && |trajectory| <= maxTrajectoryPoints
    }

    function State(): BodyState
      reads this
    {
      BodyState(mass, position, velocity, acceleration, trajectory)
    }

    constructor (mass: real, position: Vec3, velocity: Vec3, maxTrajectoryPoints: nat)
      requires 0.0 < mass && 0 < maxTrajectoryPoints
      ensures Valid() && this.maxTrajectoryPoints == maxTrajectoryPoints
      ensures State() == BodyState(mass, position, velocity, Zero, [])
    {
      this.mass := mass;
      this.position := position;
      this.velocity := velocity;
      this.acceleration := Zero;
      this.trajectory := [];
      this.maxTrajectoryPoints := maxTrajectoryPoints;
    }

    /** The implicit copy constructor, used when a body is stored by value. */
    constructor Copy(other: CelestialBody)
      requires other.Valid()
      ensures Valid() && maxTrajectoryPoints == other.maxTrajectoryPoints
      ensures State() == other.State()
    {
      mass := other.mass;
      position := other.position;
      velocity := other.velocity;
      acceleration := other.acceleration;
      trajectory := other.trajectory;
      maxTrajectoryPoints := other.maxTrajectoryPoints;
    }

    method Update(dt: real)
      requires Valid()
      modifies this
      ensures Valid()
      ensures State() == Stepped(old(State()), dt)
    {
      velocity := Add(velocity, Scale(acceleration, dt));
      position := Add(position, Scale(velocity, dt));
      acceleration := Zero;
    }

    method ApplyForce(force: Vec3)
      requires Valid()
      modifies this
      ensures Valid()
      ensures State() == Accelerated(old(State()), force)
    {
      acceleration := Add(acceleration, Div(force, mass));
    }

    method AddToTrajectory(p: Vec3)
      requires Valid()
      modifies this
      ensures Valid()
      ensures State() == old(State()).(trajectory := Pushed(old(trajectory), p, maxTrajectoryPoints))
    {
      trajectory := trajectory + [p];
      if |trajectory| > maxTrajectoryPoints {
        trajectory := trajectory[1..];
      }
    }
  }
}
