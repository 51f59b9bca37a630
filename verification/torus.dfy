/**
  The index, texture-coordinate and count logic of `make_taurus`: a sweep of
  `ArcSteps + 1` rings with `grain + 1` sample positions each, visited in
  row-major (ring, position) order, emitting one quad per position whose ring
  and position indices are both non-zero.
 */
module Torus {
  import opened Results
  import opened Meshes

  /** Computing the angle step 2*pi/grain divides by zero when grain is 0. */
  datatype TorusError = ZeroGrain

  /**
    `arc_steps`: Python's `int()` applied to grain * arcDegrees / 360,
    which truncates toward zero.
   */
  function ArcSteps(grain: int, arcDegrees: int): (steps: int)
    ensures 0 <= grain * arcDegrees ==> 0 <= 360 * steps <= grain * arcDegrees < 360 * steps + 360
    ensures grain * arcDegrees < 0 ==> 360 * steps - 360 < grain * arcDegrees <= 360 * steps <= 0
  {
    var p := grain * arcDegrees;
    if 0 <= p then p / 360 else -((-p) / 360)
  }

  /** Number of rings swept: `range(arc_steps + 1)` is empty once arc_steps is negative. */
  function Rings(grain: int, arcDegrees: int): nat {
    var steps := ArcSteps(grain, arcDegrees);
    if steps < 0 then 0 else steps + 1
  }

  /** Number of rows of quads: one between each pair of consecutive rings. */
  function FaceRows(grain: int, arcDegrees: int): nat {
    var rings := Rings(grain, arcDegrees);
    if rings == 0 then 0 else rings - 1
  }

  /** The 1-based index of the point sampled at ring `i1`, position `i2`. */
  function Index(grain: int, i1: int, i2: int): int {
    i1 * (grain + 1) + i2 + 1
  }

  /**
    The quad whose current corner is the sample (i1, i2): it joins the grid
    neighbours (i1-1, i2-1), (i1, i2-1), (i1, i2) and (i1-1, i2).
   */
  function QuadAt(grain: int, i1: int, i2: int): Face {
    Face(Index(grain, i1 - 1, i2 - 1), Index(grain, i1, i2 - 1), Index(grain, i1, i2), Index(grain, i1 - 1, i2))
  }

  /** Reference: the point at 0-based position k is the sample (k div (grain+1), k mod (grain+1)). */
  function GridPoints(grain: int, arcDegrees: int): seq<Point>
    requires 1 <= grain
  {
    var cols := grain + 1;
    seq(Rings(grain, arcDegrees) * cols, k => Sample(k / cols, k % cols))
  }

  /** Reference: the texture coordinate at position k is (k mod (grain+1), k div (grain+1)) over grain. */
  function GridTexcoords(grain: int, arcDegrees: int): seq<TexCoord>
    requires 1 <= grain
  {
    var cols := grain + 1;
    seq(Rings(grain, arcDegrees) * cols, k => TexCoord(k % cols, k / cols, grain))
  }

  /** Reference: the j-th quad is the one at (j div grain + 1, j mod grain + 1). */
  function GridFaces(grain: int, arcDegrees: int): seq<Face>
    requires 1 <= grain
  {
    seq(FaceRows(grain, arcDegrees) * grain, j => QuadAt(grain, j / grain + 1, j % grain + 1))
  }

  /**
    Reference for the whole builder: a zero grain fails, a negative grain
    leaves every inner `range(grain + 1)` empty, any other grain gives the grid.
   */
  function TorusSpec(grain: int, arcDegrees: int): Result<Mesh, TorusError> {
    if grain == 0 then Failure(ZeroGrain)
    else if grain < 0 then Success(Mesh([], [], []))
    else Success(Mesh(GridPoints(grain, arcDegrees), GridFaces(grain, arcDegrees), GridTexcoords(grain, arcDegrees)))
  }

  lemma MulMono(a: int, b: int, c: int)
    requires 0 <= c
    ensures a <= b ==> a * c <= b * c
  {
  }

  /** Euclidean division recovers the row and column of a row-major position. */
  lemma DivModOf(q: int, r: int, c: int)
    requires 0 < c && 0 <= r < c
    ensures (q * c + r) / c == q
    ensures (q * c + r) % c == r
  {
    var n := q * c + r;
    MulMono(n / c + 1, q, c);
    MulMono(q + 1, n / c, c);
  }

  lemma DivMono(a: int, b: int, c: int)
    requires 0 <= a <= b && 0 < c
    ensures a / c <= b / c
  {
    MulMono(b / c + 1, a / c, c);
  }

  /** Quads emitted before the sample (i1, i2) is visited. */
  function Emitted(grain: int, i1: int, i2: int): int {
    if i1 == 0 then 0 else (i1 - 1) * grain + (if i2 == 0 then 0 else i2 - 1)
  }

  /**
    The builder's state once every sample before (i1, i2) has been visited:
    the points, texture coordinates and quads agree with the reference
    definitions, and every quad index names a point already appended.
   */
  ghost predicate Built(grain: int, i1: int, i2: int, points: seq<Point>, texcoords: seq<TexCoord>, faces: seq<Face>)
    requires 1 <= grain
  {
    var cols := grain + 1;
    && 0 <= i1 && 0 <= i2 <= cols
    && |points| == i1 * cols + i2
    && |texcoords| == |points|
    && (forall k :: 0 <= k < |points| ==> points[k] == Sample(k / cols, k % cols))
    && (forall k :: 0 <= k < |texcoords| ==> texcoords[k] == TexCoord(k % cols, k / cols, grain))
    && |faces| == Emitted(grain, i1, i2)
    && (forall j :: 0 <= j < |faces| ==> faces[j] == QuadAt(grain, j / grain + 1, j % grain + 1))
    && (forall j :: 0 <= j < |faces| ==> FaceInRange(faces[j], |points|))
  }

  /**
    Visiting sample (i1, i2) as the source does (append the point and its
    texture coordinate, then the quad (ll, ul, this, lr) when both indices are
    non-zero) keeps the builder's state in step with the reference.
   */
  lemma {:induction false} SampleStep(grain: int, i1: int, i2: int,
                                      points: seq<Point>, texcoords: seq<TexCoord>, faces: seq<Face>,
                                      points': seq<Point>, texcoords': seq<TexCoord>, faces': seq<Face>)
    requires 1 <= grain && i2 < grain + 1
    requires Built(grain, i1, i2, points, texcoords, faces)
    requires points' == points + [Sample(i1, i2)]
    requires texcoords' == texcoords + [TexCoord(i2, i1, grain)]
    requires var here := |points'|;
             faces' == if i1 != 0 && i2 != 0
                       then faces + [Face(here - (grain + 1) - 1, here - 1, here, here - (grain + 1))]
                       else faces
    ensures Built(grain, i1, i2 + 1, points', texcoords', faces')
  {
    var cols := grain + 1;
    DivModOf(i1, i2, cols);
    assert |points'| == i1 * cols + i2 + 1;
    if i1 != 0 && i2 != 0 {
      DivModOf(i1 - 1, i2 - 1, grain);
      var j := |faces|;
      assert j == (i1 - 1) * grain + (i2 - 1);
      assert (i1 - 1) * cols == i1 * cols - cols;
      assert faces'[j] == QuadAt(grain, j / grain + 1, j % grain + 1);
      MulMono(0, i1 - 1, cols);
      assert FaceInRange(faces'[j], |points'|);
    }
  }

  /** Finishing a ring leaves the state the next ring starts from. */
  lemma RingStep(grain: int, i1: int, points: seq<Point>, texcoords: seq<TexCoord>, faces: seq<Face>)
    requires 1 <= grain
    requires Built(grain, i1, grain + 1, points, texcoords, faces)
    ensures Built(grain, i1 + 1, 0, points, texcoords, faces)
  {
  }

  /** After the last ring the builder holds exactly the reference grid. */
  lemma BuiltIsGrid(grain: int, arcDegrees: int, points: seq<Point>, texcoords: seq<TexCoord>, faces: seq<Face>)
    requires 1 <= grain
    requires Built(grain, Rings(grain, arcDegrees), 0, points, texcoords, faces)
    ensures points == GridPoints(grain, arcDegrees)
    ensures texcoords == GridTexcoords(grain, arcDegrees)
    ensures faces == GridFaces(grain, arcDegrees)
  {
  }

  /** The torus builder, following the nested loops of the source. */
  method MakeTorus(grain: int, arcDegrees: int) returns (r: Result<Mesh, TorusError>)
    ensures r == TorusSpec(grain, arcDegrees)
    ensures r.Failure? <==> grain == 0
    ensures r.Success? ==> ValidMesh(r.value)
    ensures 1 <= grain && 0 <= arcDegrees ==>
              && |r.value.points| == (ArcSteps(grain, arcDegrees) + 1) * (grain + 1)
              && |r.value.faces| == ArcSteps(grain, arcDegrees) * grain
  {
    if grain == 0 {
      return Failure(ZeroGrain);
    }
    if grain < 0 {
      // range(grain + 1) is empty: every ring contributes nothing.
      return Success(Mesh([], [], []));
    }
    var points: seq<Point> := [];
    var faces: seq<Face> := [];
    var texcoords: seq<TexCoord> := [];
    var arcSteps := ArcSteps(grain, arcDegrees);
    var i1 := 0;
    while i1 < arcSteps + 1
      invariant 0 <= i1 <= Rings(grain, arcDegrees)
      invariant Built(grain, i1, 0, points, texcoords, faces)
    {
      var i2 := 0;
      while i2 < grain + 1
        invariant Built(grain, i1, i2, points, texcoords, faces)
      {
        var points' := points + [Sample(i1, i2)];
        var texcoords' := texcoords + [TexCoord(i2, i1, grain)];
        var here := |points'|;
        var ulNabe := here - 1;
        var lrNabe := here - (grain + 1);
        var llNabe := lrNabe - 1;
        var faces' := faces;
        if i1 != 0 && i2 != 0 {
          faces' := faces + [Face(llNabe, ulNabe, here, lrNabe)];
        }
        SampleStep(grain, i1, i2, points, texcoords, faces, points', texcoords', faces');
        points, texcoords, faces := points', texcoords', faces';
        i2 := i2 + 1;
      }
      RingStep(grain, i1, points, texcoords, faces);
      i1 := i1 + 1;
    }
    BuiltIsGrid(grain, arcDegrees, points, texcoords, faces);
    r := Success(Mesh(points, faces, texcoords));
  }

  /** Row-major numbering: the sample (i1, i2) is the point, and owns the texture coordinate, at 1-based index i1*(grain+1)+i2+1. */
  lemma PointPosition(grain: int, arcDegrees: int, i1: int, i2: int)
    requires 1 <= grain
    requires 0 <= i1 < Rings(grain, arcDegrees) && 0 <= i2 <= grain
    ensures var k := Index(grain, i1, i2) - 1;
            && 0 <= k < |GridPoints(grain, arcDegrees)|
            && GridPoints(grain, arcDegrees)[k] == Sample(i1, i2)
            && GridTexcoords(grain, arcDegrees)[k] == TexCoord(i2, i1, grain)
  {
    var cols := grain + 1;
    DivModOf(i1, i2, cols);
    MulMono(i1 + 1, Rings(grain, arcDegrees), cols);
  }

  /** A quad is emitted at sample (i1, i2) exactly when both indices are non-zero. */
  lemma FaceEmittedIff(grain: int, arcDegrees: int, i1: int, i2: int)
    requires 1 <= grain
    requires 0 <= i1 < Rings(grain, arcDegrees) && 0 <= i2 <= grain
    ensures (exists j :: 0 <= j < |GridFaces(grain, arcDegrees)| && GridFaces(grain, arcDegrees)[j].here == Index(grain, i1, i2))
            <==> 0 < i1 && 0 < i2
  {
    var faces := GridFaces(grain, arcDegrees);
    var cols := grain + 1;
    if 0 < i1 && 0 < i2 {
      var j := (i1 - 1) * grain + (i2 - 1);
      DivModOf(i1 - 1, i2 - 1, grain);
      MulMono(i1, FaceRows(grain, arcDegrees), grain);
      assert faces[j].here == Index(grain, i1, i2);
    } else {
      forall j | 0 <= j < |faces|
        ensures faces[j].here != Index(grain, i1, i2)
      {
        DivModOf(j / grain + 1, j % grain + 1, cols);
        DivModOf(i1, i2, cols);
      }
    }
  }

  /**
    The quad at sample (i1, i2) is (this-(grain+1)-1, this-1, this,
    this-(grain+1)) for its current index `this`, and its corners are the
    points of the four neighbouring samples.
   */
  lemma QuadCorners(grain: int, arcDegrees: int, i1: int, i2: int)
    requires 1 <= grain
    requires 1 <= i1 < Rings(grain, arcDegrees) && 1 <= i2 <= grain
    ensures var f := QuadAt(grain, i1, i2);
            var ps := GridPoints(grain, arcDegrees);
            && f == Face(f.here - (grain + 1) - 1, f.here - 1, f.here, f.here - (grain + 1))
            && 1 <= f.ll < f.lr < f.ul < f.here <= |ps|
            && ps[f.here - 1] == Sample(i1, i2)
            && ps[f.ll - 1] == Sample(i1 - 1, i2 - 1)
            && ps[f.ul - 1] == Sample(i1, i2 - 1)
            && ps[f.lr - 1] == Sample(i1 - 1, i2)
  {
    assert (i1 - 1) * (grain + 1) == i1 * (grain + 1) - (grain + 1);
    PointPosition(grain, arcDegrees, i1, i2);
    PointPosition(grain, arcDegrees, i1 - 1, i2 - 1);
    PointPosition(grain, arcDegrees, i1, i2 - 1);
    PointPosition(grain, arcDegrees, i1 - 1, i2);
  }

  /**
    Each quad is (this-(grain+1)-1, this-1, this, this-(grain+1)) for its
    current index `this`; its indices lie in [1, number of points]; and its
    corners are the samples one ring back, one position back, and both back
    from its current sample.
   */
  lemma FaceJoinsNeighbours(grain: int, arcDegrees: int, j: int)
    requires 1 <= grain
    requires 0 <= j < |GridFaces(grain, arcDegrees)|
    ensures var f := GridFaces(grain, arcDegrees)[j];
            var ps := GridPoints(grain, arcDegrees);
            && f == Face(f.here - (grain + 1) - 1, f.here - 1, f.here, f.here - (grain + 1))
            && 1 <= f.ll < f.lr < f.ul < f.here <= |ps|
            && var c := ps[f.here - 1];
               && 0 < c.sweep && 0 < c.tube
               && ps[f.ll - 1] == Sample(c.sweep - 1, c.tube - 1)
               && ps[f.ul - 1] == Sample(c.sweep, c.tube - 1)
               && ps[f.lr - 1] == Sample(c.sweep - 1, c.tube)
  {
    var i1, i2 := FaceSample(grain, arcDegrees, j);
    QuadCorners(grain, arcDegrees, i1, i2);
  }

  /** The j-th quad is the one appended at sample (j div grain + 1, j mod grain + 1). */
  lemma FaceSample(grain: int, arcDegrees: int, j: int) returns (i1: int, i2: int)
    requires 1 <= grain
    requires 0 <= j < |GridFaces(grain, arcDegrees)|
    ensures 1 <= i1 < Rings(grain, arcDegrees) && 1 <= i2 <= grain
    ensures GridFaces(grain, arcDegrees)[j] == QuadAt(grain, i1, i2)
  {
    i1 := j / grain + 1;
    i2 := j % grain + 1;
    MulMono(FaceRows(grain, arcDegrees), j / grain, grain);
  }

  /** Quads come in row-major order: their current indices strictly increase. */
  lemma FacesAscending(grain: int, arcDegrees: int, j: int, j': int)
    requires 1 <= grain
    requires 0 <= j < j' < |GridFaces(grain, arcDegrees)|
    ensures GridFaces(grain, arcDegrees)[j].here < GridFaces(grain, arcDegrees)[j'].here
  {
    QuadHere(grain, j);
    QuadHere(grain, j');
    DivMono(j, j', grain);
  }

  /** The current index of the j-th quad, in closed form. */
  lemma QuadHere(grain: int, j: int)
    requires 1 <= grain && 0 <= j
    ensures QuadAt(grain, j / grain + 1, j % grain + 1).here == j + j / grain + grain + 3
  {
  }

  /**
    The texture coordinate at each position is (index2/grain, index1/grain)
    for that position's point; u lies in [0, 1], and so does v when the arc
    is at most a full turn.
   */
  lemma TexcoordAt(grain: int, arcDegrees: int, k: int)
    requires 1 <= grain
    requires 0 <= k < |GridPoints(grain, arcDegrees)|
    ensures k < |GridTexcoords(grain, arcDegrees)|
    ensures var t := GridTexcoords(grain, arcDegrees)[k];
            var p := GridPoints(grain, arcDegrees)[k];
            && t == TexCoord(p.tube, p.sweep, grain)
            && 0 <= t.uNum <= t.den
            && 0 <= t.vNum <= ArcSteps(grain, arcDegrees)
            && (arcDegrees <= 360 ==> t.vNum <= t.den)
  {
    RowBound(k, grain + 1, Rings(grain, arcDegrees));
    StepsAtMostGrain(grain, arcDegrees);
  }

  /** A row-major position inside `rows` rows of `cols` lies in one of those rows. */
  lemma RowBound(k: int, cols: int, rows: int)
    requires 0 < cols && 0 <= k < rows * cols
    ensures 0 <= k / cols < rows
  {
  }

  lemma StepsAtMostGrain(grain: int, arcDegrees: int)
    requires 1 <= grain
    ensures arcDegrees <= 360 ==> ArcSteps(grain, arcDegrees) <= grain
  {
  }

  /** The reference mesh satisfies the mesh invariant. */
  lemma TorusValid(grain: int, arcDegrees: int)
    ensures TorusSpec(grain, arcDegrees).Success? ==> ValidMesh(TorusSpec(grain, arcDegrees).value)
  {
    if 1 <= grain {
      var m := TorusSpec(grain, arcDegrees).value;
      forall j | 0 <= j < |m.faces|
        ensures FaceInRange(m.faces[j], |m.points|)
      {
        FaceJoinsNeighbours(grain, arcDegrees, j);
      }
    }
  }

  /** Counts: a full turn gives grain*grain quads, a zero arc a single ring and no quads. */
  lemma TorusCounts(grain: int, arcDegrees: int)
    requires 1 <= grain
    ensures var m := TorusSpec(grain, arcDegrees).value;
            && |m.texcoords| == |m.points|
            && (0 <= arcDegrees ==>
                  && |m.points| == (ArcSteps(grain, arcDegrees) + 1) * (grain + 1)
                  && |m.faces| == ArcSteps(grain, arcDegrees) * grain)
            && (arcDegrees == 360 ==> |m.points| == (grain + 1) * (grain + 1) && |m.faces| == grain * grain)
            && (arcDegrees == 0 ==> |m.points| == grain + 1 && |m.faces| == 0)
  {
  }
}
