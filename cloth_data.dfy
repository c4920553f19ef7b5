/**
 * The cloth's mass-spring data layer: a mesh vertex that carries physics
 * state, a spring between two vertices (Hooke's law with damping along the
 * spring axis) and the vertex/index buffers of the mesh.
 */
module ClothData {
  import opened Vectors

  /** The default vertex normal, +Z. */
  const UpNormal: Vec3 := Vec3(0.0, 0.0, 1.0)

  /** Spring stiffness and damping every new spring starts with. */
  const DefaultKs: real := 17.0
  const DefaultKd: real := 0.5

  /**
   * A mesh vertex. Springs refer to vertices by reference and change their
   * velocity in place; DisablePhys marks a pinned vertex that springs never move.
   */
  class Vertex {
    var Position: Vec3
    var Normal: Vec3
    var Color: Rgba
    var Velocity: Vec3
    var DisablePhys: bool

    /** The default vertex: at the origin, at rest, facing +Z, white and free. */
    constructor Default()
      ensures Position == Zero && Velocity == Zero
      ensures Normal == UpNormal && Color == White
      ensures !DisablePhys
    {
      Position := Zero;
      Normal := UpNormal;
      Color := White;
      Velocity := Zero;
      DisablePhys := false;
    }

    /** A vertex at the given place with the given colour and normal, at rest and free. */
    constructor (inPosition: Vec3, inColor: Rgba, inNormal: Vec3)
      ensures Position == inPosition && Color == inColor && Normal == inNormal
      ensures Velocity == Zero && !DisablePhys
    {
      Position := inPosition;
      Normal := inNormal;
      Color := inColor;
      Velocity := Zero;
      DisablePhys := false;
    }
  }

  /**
   * A spring between vertices A and B. A and B may be the same vertex.
   */
  class MassSpring {
    var Ks: real
    var Kd: real
    var RestLength: real
    var A: Vertex
    var B: Vertex

    constructor (inRestLength: real, a: Vertex, b: Vertex)
      ensures Ks == DefaultKs && Kd == DefaultKd
      ensures RestLength == inRestLength && A == a && B == b
    {
      Ks := DefaultKs;
      Kd := DefaultKd;
      RestLength := inRestLength;
      A := a;
      B := b;
    }

    /** What the force depends on: the parameters and both endpoints' motion. */
    function State(): SpringState
      reads this, A, B
    {
      SpringState(Ks, Kd, RestLength, A.Position, B.Position, A.Velocity, B.Velocity)
    }

    /** Scales the stiffness and the rest length by the given factors. */
    method SetParamPercent(ksPercent: real, restLenPercent: real)
      modifies this`Ks, this`RestLength
      ensures Ks == old(Ks) * ksPercent
      ensures RestLength == old(RestLength) * restLenPercent
      ensures Kd == old(Kd) && A == old(A) && B == old(B)
    {
      Ks := Ks * ksPercent;
      RestLength := RestLength * restLenPercent;
    }

    /**
     * Adds the impulse to A's velocity and subtracts it from B's, skipping a
     * pinned endpoint. Positions and pinning never change. For distinct free
     * endpoints the sum of the two velocities is kept; a spring whose two
     * ends are the same vertex leaves it as it was.
     */
    method ApplyForce(m: VectorMath, deltaTime: real, additionalForce: Vec3)
      modifies A`Velocity, B`Velocity
      ensures A == old(A) && B == old(B)
      ensures A.Position == old(A.Position) && B.Position == old(B.Position)
      ensures A.DisablePhys == old(A.DisablePhys) && B.DisablePhys == old(B.DisablePhys)
      ensures A != B ==>
        A.Velocity == if A.DisablePhys then old(A.Velocity)
                      else Add(old(A.Velocity), Impulse(old(State()), m, deltaTime, additionalForce))
      ensures A != B ==>
        B.Velocity == if B.DisablePhys then old(B.Velocity)
                      else Sub(old(B.Velocity), Impulse(old(State()), m, deltaTime, additionalForce))
      ensures A == B ==> A.Velocity == old(A.Velocity)
      ensures A != B && !A.DisablePhys && !B.DisablePhys ==>
        Add(A.Velocity, B.Velocity) == Add(old(A.Velocity), old(B.Velocity))
    {
      var springForce := Impulse(State(), m, deltaTime, additionalForce);
      if !A.DisablePhys {
        A.Velocity := Add(A.Velocity, springForce);
      }
      if !B.DisablePhys {
        B.Velocity := Sub(B.Velocity, springForce);
      }
    }
  }

  /** A spring's parameters together with its two endpoints' positions and velocities. */
  datatype SpringState = SpringState(
    Ks: real, Kd: real, RestLength: real,
    PosA: Vec3, PosB: Vec3, VelA: Vec3, VelB: Vec3)
  {
    function AToB(): Vec3 { Sub(PosB, PosA) }
  }

  /**
   * FClothMassString::GetForce on a snapshot of the spring: Hooke's law with
   * damping, Ks times the stretch beyond the rest length plus -Kd times the
   * closing speed, both along the unit A-to-B direction. The result always
   * lies along that direction, scaled by the axial force.
   */
  function Force(st: SpringState, m: VectorMath): (f: Vec3)
    ensures f == Scale(AxialForce(st, m), m.SafeNormal(st.AToB()))
  {
    var aToB := st.AToB();
    var distance := m.Length(aToB);
    var dir := m.SafeNormal(aToB);
    var eForceAToB := Scale(distance - st.RestLength, Scale(st.Ks, dir));
    var velAToB := Sub(st.VelA, st.VelB);
    var dampAToB := Scale(Dot(velAToB, dir), Scale(-st.Kd, dir));
    AxialSum(distance - st.RestLength, st.Ks, Dot(velAToB, dir), st.Kd, dir);
    assert Add(eForceAToB, dampAToB) == Scale(st.Ks * (distance - st.RestLength) - st.Kd * Dot(velAToB, dir), dir);
    assert AxialForce(st, m) == st.Ks * (distance - st.RestLength) - st.Kd * Dot(velAToB, dir);
    Add(eForceAToB, dampAToB)
  }

  /**
   * The velocity change ApplyForce hands to A and takes from B: the force
   * scaled by the time step, plus the additional force. Apart from the
   * additional force it lies along the A-to-B direction.
   */
  function Impulse(st: SpringState, m: VectorMath, deltaTime: real, additionalForce: Vec3): (r: Vec3)
    ensures r == Add(Scale(deltaTime * AxialForce(st, m), m.SafeNormal(st.AToB())), additionalForce)
  {
    ScaleScale(deltaTime, AxialForce(st, m), m.SafeNormal(st.AToB()));
    Add(Scale(deltaTime, Force(st, m)), additionalForce)
  }

  /**
   * The signed size of the spring force along the A-to-B direction:
   * stiffness times stretch, less damping times closing speed.
   */
  function AxialForce(st: SpringState, m: VectorMath): real {
    st.Ks * (m.Length(st.AToB()) - st.RestLength)
    - st.Kd * Dot(Sub(st.VelA, st.VelB), m.SafeNormal(st.AToB()))
  }

  /** At its rest length and with no relative motion the spring exerts no force. */
  lemma ForceVanishesAtRest(st: SpringState, m: VectorMath)
    requires m.Length(st.AToB()) == st.RestLength
    requires st.VelA == st.VelB
    ensures Force(st, m) == Zero
  {
  }

  /**
   * When both endpoints sit at the same place the direction is the safe
   * normal of the zero vector, so the force is zero whatever the rest length.
   */
  lemma ForceVanishesWhenCoincident(st: SpringState, m: VectorMath)
    requires Sound(m)
    requires st.PosA == st.PosB
    ensures Force(st, m) == Zero
  {
    assert st.AToB() == Zero;
  }

  /**
   * The impulse handed to A, with no extra force, has the component
   * dt * axial force * distance along A-to-B, given that the component of
   * A-to-B along its own safe normal is its length.
   */
  lemma ImpulseAlongAxis(st: SpringState, m: VectorMath, dt: real)
    requires Dot(m.SafeNormal(st.AToB()), st.AToB()) == m.Length(st.AToB())
    ensures Dot(Impulse(st, m, dt, Zero), st.AToB()) == dt * AxialForce(st, m) * m.Length(st.AToB())
  {
    ScaledDot(dt * AxialForce(st, m), m.SafeNormal(st.AToB()), st.AToB(), m.Length(st.AToB()));
  }

  /** Without relative motion the axial force is stiffness times stretch. */
  lemma AxialForceWithoutDamping(st: SpringState, m: VectorMath)
    requires st.VelA == st.VelB
    ensures AxialForce(st, m) == st.Ks * (m.Length(st.AToB()) - st.RestLength)
  {
    assert Dot(Sub(st.VelA, st.VelB), m.SafeNormal(st.AToB())) == 0.0;
  }

  /**
   * A stretched spring with stiffness, a positive time step, no extra force
   * and no relative motion moves its ends towards each other: ApplyForce
   * changes A's velocity towards B and B's towards A.
   */
  lemma StretchedSpringContracts(st: SpringState, m: VectorMath, dt: real, newVelA: Vec3, newVelB: Vec3)
    requires Sound(m)
    requires st.Ks > 0.0 && st.RestLength >= 0.0
    requires m.Length(st.AToB()) > st.RestLength
    requires st.VelA == st.VelB
    requires dt > 0.0
    requires newVelA == Add(st.VelA, Impulse(st, m, dt, Zero))
    requires newVelB == Sub(st.VelB, Impulse(st, m, dt, Zero))
    ensures Dot(Sub(newVelA, st.VelA), st.AToB()) > 0.0
    ensures Dot(Sub(newVelB, st.VelB), st.AToB()) < 0.0
  {
    var impulse := Impulse(st, m, dt, Zero);
    NormalDotIsLength(m, st.AToB());
    ImpulseAlongAxis(st, m, dt);
    AxialForceWithoutDamping(st, m);
    StretchSign(dt, AxialForce(st, m), st.Ks, m.Length(st.AToB()), st.RestLength);
    assert Sub(newVelA, st.VelA) == impulse;
    assert Sub(newVelB, st.VelB) == Neg(impulse);
    DotNeg(impulse, st.AToB());
  }

  /**
   * A compressed spring (shorter than its rest length, ends apart) under
   * the same conditions pushes its ends away from each other.
   */
  lemma CompressedSpringExpands(st: SpringState, m: VectorMath, dt: real, newVelA: Vec3, newVelB: Vec3)
    requires Sound(m)
    requires st.Ks > 0.0
    requires 0.0 < m.Length(st.AToB()) < st.RestLength
    requires st.VelA == st.VelB
    requires dt > 0.0
    requires newVelA == Add(st.VelA, Impulse(st, m, dt, Zero))
    requires newVelB == Sub(st.VelB, Impulse(st, m, dt, Zero))
    ensures Dot(Sub(newVelA, st.VelA), st.AToB()) < 0.0
    ensures Dot(Sub(newVelB, st.VelB), st.AToB()) > 0.0
  {
    var impulse := Impulse(st, m, dt, Zero);
    NormalDotIsLength(m, st.AToB());
    ImpulseAlongAxis(st, m, dt);
    AxialForceWithoutDamping(st, m);
    StretchSign(dt, AxialForce(st, m), st.Ks, m.Length(st.AToB()), st.RestLength);
    assert Sub(newVelA, st.VelA) == impulse;
    assert Sub(newVelB, st.VelB) == Neg(impulse);
    DotNeg(impulse, st.AToB());
  }

  /** A vertex as the position constructor leaves it: at p, at rest, free, white and facing +Z. */
  ghost predicate IsNewVertexAt(v: Vertex, p: Vec3)
    reads v
  {
    v.Position == p && v.Velocity == Zero && !v.DisablePhys && v.Color == White && v.Normal == UpNormal
  }

  /**
   * The mesh's CPU-side buffers: vertices and the triangle list that
   * indexes them.
   */
  class ClothMeshData {
    var VertexBuffer: seq<Vertex>
    var IndexBuffer: seq<uint32>

    constructor ()
      ensures VertexBuffer == [] && IndexBuffer == []
    {
      VertexBuffer := [];
      IndexBuffer := [];
    }

    /**
     * Whole triangles only, and every index names a vertex of the buffer.
     */
    predicate WellFormed()
      reads this
    {
      && |IndexBuffer| % 3 == 0
      && forall i :: 0 <= i < |IndexBuffer| ==> IndexBuffer[i] as int < |VertexBuffer|
    }

    /**
     * Appends a vertex built by the (position, colour, normal) constructor
     * with the default white colour and +Z normal; returns the new slot.
     */
    method AddVertex(position: Vec3) returns (v: Vertex)
      modifies this
      ensures fresh(v) && IsNewVertexAt(v, position)
      ensures VertexBuffer == old(VertexBuffer) + [v]
      ensures IndexBuffer == old(IndexBuffer)
    {
      v := new Vertex(position, White, UpNormal);
      VertexBuffer := VertexBuffer + [v];
    }

    /** Empties both buffers. */
    method Reset()
      modifies this
      ensures VertexBuffer == [] && IndexBuffer == []
      ensures WellFormed()
    {
      VertexBuffer := [];
      IndexBuffer := [];
    }
  }
}
