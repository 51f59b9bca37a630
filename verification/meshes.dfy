/**
  The mesh `make_taurus` returns: points, quad faces of 1-based indices, and
  texture coordinates parallel to the points.
 */
module Meshes {

  /**
    A mesh vertex, identified by the sample position that generates it:
    ring `sweep` (index1) and position `tube` (index2) on that ring. The
    floating-point coordinates computed there are not modelled.
   */
  datatype Point = Sample(sweep: int, tube: int)

  /** The texture coordinate (uNum / den, vNum / den), kept as exact integers. */
  datatype TexCoord = TexCoord(uNum: int, vNum: int, den: int)

  /**
    A quad of 1-based point indices, in the order the source appends them:
    lower-left, upper-left, the current point, lower-right.
   */
  datatype Face = Face(ll: int, ul: int, here: int, lr: int)

  datatype Mesh = Mesh(points: seq<Point>, faces: seq<Face>, texcoords: seq<TexCoord>)

  /** `k` is a 1-based index of one of `count` points. */
  predicate InRange(k: int, count: nat) {
    1 <= k <= count
  }

  predicate FaceInRange(f: Face, count: nat) {
    InRange(f.ll, count) && InRange(f.ul, count) && InRange(f.here, count) && InRange(f.lr, count)
  }

  /**
    The mesh invariant: every face index names a point, and there is one
    texture coordinate per point (faces reuse each point index as its
    texture-coordinate index).
   */
  predicate ValidMesh(m: Mesh) {
    && |m.texcoords| == |m.points|
    && forall j :: 0 <= j < |m.faces| ==> FaceInRange(m.faces[j], |m.points|)
  }
}
