/**
 * The small slice of engine maths the cloth code relies on: 3-vectors over
 * the reals (FVector), 2-vectors (FVector2D), 8-bit RGBA colours (FColor),
 * axis-aligned boxes (FBox) and the vector length / safe-normal routines,
 * which are handed in as an oracle whose contract is stated by Sound.
 */
module Vectors {

  newtype byte = x: int | 0 <= x < 0x100
  newtype uint32 = x: int | 0 <= x < 0x1_0000_0000

  datatype Vec3 = Vec3(X: real, Y: real, Z: real)
  datatype Vec2 = Vec2(X: real, Y: real)

  const Zero: Vec3 := Vec3(0.0, 0.0, 0.0)

  function Add(a: Vec3, b: Vec3): Vec3 { Vec3(a.X + b.X, a.Y + b.Y, a.Z + b.Z) }
  function Sub(a: Vec3, b: Vec3): Vec3 { Vec3(a.X - b.X, a.Y - b.Y, a.Z - b.Z) }
  function Neg(a: Vec3): Vec3 { Vec3(-a.X, -a.Y, -a.Z) }
  function Scale(k: real, a: Vec3): Vec3 { Vec3(k * a.X, k * a.Y, k * a.Z) }
  function Dot(a: Vec3, b: Vec3): real { a.X * b.X + a.Y * b.Y + a.Z * b.Z }

  function Min(a: real, b: real): real { if a <= b then a else b }
  function Max(a: real, b: real): real { if a <= b then b else a }

  /** Scaling either argument of a dot product scales the product. */
  lemma DotScaleLeft(k: real, a: Vec3, b: Vec3)
    ensures Dot(Scale(k, a), b) == k * Dot(a, b)
  {
  }

  /** Scaling twice is scaling by the product. */
  lemma ScaleScale(a: real, b: real, v: Vec3)
    ensures Scale(a, Scale(b, v)) == Scale(a * b, v)
  {
  }

  /** Scalings of one vector add up by their factors. */
  lemma AddScales(a: real, b: real, v: Vec3)
    ensures Add(Scale(a, v), Scale(b, v)) == Scale(a + b, v)
  {
  }

  /** A sum of two scalings of one direction is a single scaling of it. */
  lemma AxialSum(e: real, ks: real, c: real, kd: real, dir: Vec3)
    ensures Add(Scale(e, Scale(ks, dir)), Scale(c, Scale(-kd, dir))) == Scale(ks * e - kd * c, dir)
  {
  }

  /** The component along v of a scaling of dir. */
  lemma ScaledDot(k: real, dir: Vec3, v: Vec3, l: real)
    requires Dot(dir, v) == l
    ensures Dot(Add(Scale(k, dir), Zero), v) == k * l
  {
  }

  lemma DotNeg(a: Vec3, b: Vec3)
    ensures Dot(Neg(a), b) == -Dot(a, b)
  {
  }

  lemma ProductIsPositive(a: real, b: real, p: real)
    requires a > 0.0 && b > 0.0 && p == a * b
    ensures p > 0.0
  {
  }

  /** dt * f * d takes the sign of d - r when f = ks * (d - r) and dt, ks and d are positive. */
  lemma StretchSign(dt: real, f: real, ks: real, d: real, r: real)
    requires dt > 0.0 && ks > 0.0 && d > 0.0
    requires f == ks * (d - r)
    ensures d > r ==> dt * f * d > 0.0
    ensures d < r ==> dt * f * d < 0.0
  {
    if d > r {
      ProductIsPositive(ks, d - r, f);
      ProductIsPositive(dt, f, dt * f);
      ProductIsPositive(dt * f, d, dt * f * d);
    } else if d < r {
      ProductIsPositive(ks, r - d, -f);
      ProductIsPositive(dt, -f, -(dt * f));
      ProductIsPositive(-(dt * f), d, -(dt * f * d));
    }
  }

  /** FColor: 8 bits per channel. */
  datatype Rgba = Rgba(R: byte, G: byte, B: byte, A: byte)

  /** FColor(255, 255, 255): the alpha channel defaults to opaque. */
  const White: Rgba := Rgba(255, 255, 255, 255)

  /**
   * FVector::Length and FVector::GetSafeNormal live in the engine. They are
   * parameters of the cloth code here; Sound states what is assumed of them.
   */
  datatype VectorMath = VectorMath(Length: Vec3 -> real, SafeNormal: Vec3 -> Vec3)

  /**
   * Length is the Euclidean norm and SafeNormal the unit vector along its
   * argument, zero for the zero vector: a non-zero v has a positive length l
   * and a unit normal n with l * n == v, so that n . v == l.
   */
  ghost predicate Sound(m: VectorMath) {
    forall v :: if v == Zero then m.Length(v) == 0.0 && m.SafeNormal(v) == Zero
                else && m.Length(v) > 0.0
                     && Scale(m.Length(v), m.SafeNormal(v)) == v
                     && Dot(m.SafeNormal(v), m.SafeNormal(v)) == 1.0
                     && Dot(m.SafeNormal(v), v) == m.Length(v)
  }

  /** The component of any vector along its own safe normal is its length. */
  lemma NormalDotIsLength(m: VectorMath, v: Vec3)
    requires Sound(m)
    ensures Dot(m.SafeNormal(v), v) == m.Length(v)
  {
    if v == Zero {
      assert m.SafeNormal(v) == Zero;
    } else {
      assert !(v == Zero);
    }
  }

  /**
   * FBox: an axis-aligned box with an IsValid flag. FBox(ForceInit) is the
   * all-zero box that is not valid.
   */
  datatype Box = Box(Min: Vec3, Max: Vec3, IsValid: bool)

  const EmptyBox: Box := Box(Zero, Zero, false)

  predicate Contains(b: Box, p: Vec3) {
    && b.Min.X <= p.X <= b.Max.X
    && b.Min.Y <= p.Y <= b.Max.Y
    && b.Min.Z <= p.Z <= b.Max.Z
  }

  predicate Encloses(outer: Box, inner: Box) {
    && outer.Min.X <= inner.Min.X && inner.Max.X <= outer.Max.X
    && outer.Min.Y <= inner.Min.Y && inner.Max.Y <= outer.Max.Y
    && outer.Min.Z <= inner.Min.Z && inner.Max.Z <= outer.Max.Z
  }

  /**
   * FBox::operator+=(FVector): a valid box grows componentwise to take in
   * the point; an invalid box becomes the degenerate box at the point.
   */
  function AddPoint(b: Box, p: Vec3): (r: Box)
    ensures r.IsValid && Contains(r, p)
    ensures b.IsValid ==> Encloses(r, b)
    ensures !b.IsValid ==> r.Min == p && r.Max == p
    ensures b.IsValid && Contains(b, p) ==> r == b
  {
    if b.IsValid then
      Box(Vec3(Min(b.Min.X, p.X), Min(b.Min.Y, p.Y), Min(b.Min.Z, p.Z)),
          Vec3(Max(b.Max.X, p.X), Max(b.Max.Y, p.Y), Max(b.Max.Z, p.Z)),
          true)
    else
      Box(p, p, true)
  }
}
