/**
 * `src/culling.cpp`: axis-aligned boxes kept as centre and half-extents, the six
 * frustum planes read off a combined projection-view matrix, and the cull test that
 * rejects a box as soon as one plane rejects it.
 *
 * Coordinates are `real`; the model makes no claim about float rounding.
 */
module Culling {

  datatype Vec3 = Vec3(x: real, y: real, z: real)

  function Add(a: Vec3, b: Vec3): Vec3 { Vec3(a.x + b.x, a.y + b.y, a.z + b.z) }

  function Sub(a: Vec3, b: Vec3): Vec3 { Vec3(a.x - b.x, a.y - b.y, a.z - b.z) }

  /** Multiplication by `0.5f`. */
  function Half(a: Vec3): Vec3 { Vec3(a.x * 0.5, a.y * 0.5, a.z * 0.5) }

  function AbsR(r: real): real { if r < 0.0 then -r else r }

  /** `glm::abs`, componentwise. */
  function Abs(a: Vec3): Vec3 { Vec3(AbsR(a.x), AbsR(a.y), AbsR(a.z)) }

  function MinR(a: real, b: real): real { if a <= b then a else b }

  function MaxR(a: real, b: real): real { if a <= b then b else a }

  function Min(a: Vec3, b: Vec3): Vec3 { Vec3(MinR(a.x, b.x), MinR(a.y, b.y), MinR(a.z, b.z)) }

  function Max(a: Vec3, b: Vec3): Vec3 { Vec3(MaxR(a.x, b.x), MaxR(a.y, b.y), MaxR(a.z, b.z)) }

  /** `geometry::aabb`. */
  datatype Aabb = Aabb(center: Vec3, extents: Vec3)

  /**
   * `aabb::set_from_corners(a, b)`: the box whose opposite corners are `a` and `b`.
   * The half-extents are never negative, and centre -/+ extents are the componentwise
   * minimum and maximum of the two corners.
   */
  function SetFromCorners(a: Vec3, b: Vec3): (box: Aabb)
    ensures box.extents.x >= 0.0 && box.extents.y >= 0.0 && box.extents.z >= 0.0
    ensures Sub(box.center, box.extents) == Min(a, b)
    ensures Add(box.center, box.extents) == Max(a, b)
  {
    Aabb(Half(Add(a, b)), Half(Abs(Sub(a, b))))
  }

  /** The order of the two corners does not matter. */
  lemma SetFromCornersSymmetric(a: Vec3, b: Vec3)
    ensures SetFromCorners(a, b) == SetFromCorners(b, a)
  {
  }

  /** `p` lies in the closed box. */
  predicate Contains(box: Aabb, p: Vec3) {
    && box.center.x - box.extents.x <= p.x <= box.center.x + box.extents.x
    && box.center.y - box.extents.y <= p.y <= box.center.y + box.extents.y
    && box.center.z - box.extents.z <= p.z <= box.center.z + box.extents.z
  }

  /** A box built from two corners contains exactly the points between them. */
  lemma CornersBoxContains(a: Vec3, b: Vec3, p: Vec3)
    ensures Contains(SetFromCorners(a, b), p) <==>
      && MinR(a.x, b.x) <= p.x <= MaxR(a.x, b.x)
      && MinR(a.y, b.y) <= p.y <= MaxR(a.y, b.y)
      && MinR(a.z, b.z) <= p.z <= MaxR(a.z, b.z)
  {
    var box := SetFromCorners(a, b);
    assert Sub(box.center, box.extents) == Min(a, b);
    assert Add(box.center, box.extents) == Max(a, b);
  }

  /** `geometry::plane`: normal `n` and distance `d`. */
  datatype Plane = Plane(n: Vec3, d: real)

  /** The signed distance `dot(n, p) - d`, positive on the inner side, as the frustum planes use it. */
  function Distance(pl: Plane, p: Vec3): real {
    pl.n.x * p.x + pl.n.y * p.y + pl.n.z * p.z - pl.d
  }

  /** `glm::mat4x4`: `m[i][j]` is row `j` of column `i`. */
  type Mat4 = m: seq<seq<real>> | |m| == 4 && forall i | 0 <= i < 4 :: |m[i]| == 4
    witness [[0.0, 0.0, 0.0, 0.0], [0.0, 0.0, 0.0, 0.0], [0.0, 0.0, 0.0, 0.0], [0.0, 0.0, 0.0, 0.0]]

  /** `geometry::frustum`: exactly six planes. */
  type Frustum = planes: seq<Plane> | |planes| == 6
    witness [Plane(Vec3(0.0, 0.0, 0.0), 0.0), Plane(Vec3(0.0, 0.0, 0.0), 0.0), Plane(Vec3(0.0, 0.0, 0.0), 0.0),
             Plane(Vec3(0.0, 0.0, 0.0), 0.0), Plane(Vec3(0.0, 0.0, 0.0), 0.0), Plane(Vec3(0.0, 0.0, 0.0), 0.0)]

  /** Plane `2k` of `set_from_matrix`: row 3 minus row k (not normalised). */
  function LowerPlane(m: Mat4, k: nat): Plane
    requires k < 3
  {
    Plane(Vec3(m[0][3] - m[0][k], m[1][3] - m[1][k], m[2][3] - m[2][k]), -(m[3][3] - m[3][k]))
  }

  /** Plane `2k + 1` of `set_from_matrix`: row 3 plus row k (not normalised). */
  function UpperPlane(m: Mat4, k: nat): Plane
    requires k < 3
  {
    Plane(Vec3(m[0][3] + m[0][k], m[1][3] + m[1][k], m[2][3] + m[2][k]), -(m[3][3] + m[3][k]))
  }

  /** `frustum::set_from_matrix(m)`. */
  function SetFromMatrix(m: Mat4): (f: Frustum)
    ensures forall k | 0 <= k < 3 :: f[2 * k] == LowerPlane(m, k) && f[2 * k + 1] == UpperPlane(m, k)
  {
    [LowerPlane(m, 0), UpperPlane(m, 0), LowerPlane(m, 1), UpperPlane(m, 1), LowerPlane(m, 2), UpperPlane(m, 2)]
  }

  /** Row `j` of the clip-space image `m * (p, 1)` of a point. */
  function Clip(m: Mat4, p: Vec3, j: nat): real
    requires j < 4
  {
    m[0][j] * p.x + m[1][j] * p.y + m[2][j] * p.z + m[3][j]
  }

  /**
   * The meaning of the extracted planes (the Gribb-Hartmann construction): the signed
   * distance of a point to plane 2k is `w - c_k` and to plane 2k+1 is `w + c_k`,
   * where `(c_0, c_1, c_2, w)` is the point in clip space.
   */
  lemma PlanesBoundClipSpace(m: Mat4, p: Vec3, k: nat)
    requires k < 3
    ensures Distance(SetFromMatrix(m)[2 * k], p) == Clip(m, p, 3) - Clip(m, p, k)
    ensures Distance(SetFromMatrix(m)[2 * k + 1], p) == Clip(m, p, 3) + Clip(m, p, k)
  {
    var f := SetFromMatrix(m);
    assert f[2 * k] == LowerPlane(m, k) && f[2 * k + 1] == UpperPlane(m, k);
  }

  /** A point is on the inner side of all six planes iff it lies in the clip volume `-w <= c_k <= w`. */
  lemma {:induction false} InsideFrustumIffInClipVolume(m: Mat4, p: Vec3)
    ensures (forall i | 0 <= i < 6 :: Distance(SetFromMatrix(m)[i], p) >= 0.0) <==>
            (forall k | 0 <= k < 3 :: -Clip(m, p, 3) <= Clip(m, p, k) <= Clip(m, p, 3))
  {
    var f := SetFromMatrix(m);
    PlanesBoundClipSpace(m, p, 0);
    PlanesBoundClipSpace(m, p, 1);
    PlanesBoundClipSpace(m, p, 2);
    assert forall i | 0 <= i < 6 :: i == 2 * (i / 2) + i % 2;
  }

  /**
   * `culling::cull(frustum, b)`. `geometry::testAabbPlane` is not part of this model, so
   * it is the parameter `test`. The box is culled iff some plane gives a negative test;
   * the planes are tried in array order and the first negative one ends the scan
   * (`tested` counts the planes tried).
   */
  method Cull(f: Frustum, b: Aabb, test: (Aabb, Plane) -> real) returns (culled: bool, ghost tested: nat)
    ensures culled <==> exists i | 0 <= i < 6 :: test(b, f[i]) < 0.0
    ensures tested <= 6 && forall i | 0 <= i < tested - 1 :: test(b, f[i]) >= 0.0
    ensures culled ==> 1 <= tested && test(b, f[tested - 1]) < 0.0
    ensures !culled ==> tested == 6
  {
    for i := 0 to 6
      invariant forall j | 0 <= j < i :: test(b, f[j]) >= 0.0
    {
      if test(b, f[i]) < 0.0 {
        return true, i + 1;
      }
    }
    return false, 6;
  }
}
