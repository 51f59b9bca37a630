# Torus mesh topology, modelled in Dafny

This project models the torus generator `make_taurus` and the OBJ writer in
`src/gen_obj.py`. Given `grain` and `arc_degrees`, the generator computes
`arc_steps = int(grain * arc_degrees / 360)`. It visits `arc_steps + 1`
rings of `grain + 1` sample positions in row-major order. For each sample it
appends one point and one texture coordinate. It appends a quad
`(ll, ul, this, lr)` of 1-based indices whenever both loop indices are
non-zero. The script then writes every `v` line, every `vt` line and one
`f a/a b/b c/c d/d` line per quad.

The model keeps the index and count logic exactly. Points and texture
coordinates are modelled as follows:

- A point is the sample `(index1, index2)` that generates it. The
  trigonometry and the rotation matrix are not modelled.
- A texture coordinate is the pair of integer numerators `(index2, index1)`
  over the common denominator `grain`. This is exact, so no floating point
  is needed.

Modules:

- `Results` (`results.dfy`): `Option` and `Result`, usable with `:-`.
- `Text` (`text.dfy`): decimal text of integers, as `str.format` writes an
  `int`. Also field splitting and joining. Each comes with a proved inverse.
- `Meshes` (`meshes.dfy`): points, texture coordinates, quads, meshes. Also
  the mesh invariant: every index names a point, and there is one texture
  coordinate per point.
- `Torus` (`torus.dfy`): the builder `MakeTorus`, written as the source's
  nested loops. It is proved equal to a closed-form reference (`TorusSpec`,
  built from `GridPoints`, `GridTexcoords` and `GridFaces`). The reference
  maps position `k` to sample `(k div (grain+1), k mod (grain+1))` and quad
  `j` to the quad at `(j div grain + 1, j mod grain + 1)`. Lemmas state the
  properties of that reference.
- `ObjWriter` (`obj_writer.dfy`): the face-line format and a parser that
  reads it back. It also models the three writing loops, as instances
  of one generic loop that writes one line per element, and a classifier
  for line kinds.
- `GenObj` (`gen_obj.dfy`): the script end to end. It builds the torus,
  then writes its lines.

Every integer `grain` and `arc_degrees` is accepted without a
precondition (see "## Left out" for the floating-point quotient). The model
follows what the code does on each of them:

- `grain == 0` is an error: the code raises `ZeroDivisionError` when it
  computes `math.pi * 2 / grain` (src/gen_obj.py:9).
- A negative `grain` is accepted. Every inner `range(grain + 1)` is empty,
  so the result is an empty mesh.
- `arc_steps` truncates toward zero, as Python's `int()` does. Once
  `arc_steps < 0`, `range(arc_steps + 1)` is empty and the mesh is empty.
- Each quad is stored in the order the code appends it,
  `(ll, ul, this, lr) = (this-(grain+1)-1, this-1, this, this-(grain+1))`.

## Model

| member | source | states |
|---|---|---|
| Torus.ArcSteps | src/gen_obj.py:11 | `arc_steps` is grain·arc/360 truncated toward zero: 360·steps is at most the product and within 360 of it, on the product's side of zero |
| Torus.StepsAtMostGrain | src/gen_obj.py:11 | an arc of at most 360 degrees takes at most `grain` steps |
| Torus.MakeTorus | src/gen_obj.py:5-45 | the loop builder equals the closed-form reference mesh `TorusSpec` (point k is sample (k div (grain+1), k mod (grain+1)), quad j is the quad at sample (j div grain + 1, j mod grain + 1)); it fails exactly when grain is 0; its result satisfies the mesh invariant; for grain ≥ 1 and arc ≥ 0 it has (arc_steps+1)(grain+1) points and arc_steps·grain quads |
| Torus.SampleStep | src/gen_obj.py:35-43 | visiting one sample keeps the builder in step with the reference: the point and texture coordinate go at the next position; a quad is appended only when both indices are non-zero; every quad index is already a valid point index when the quad is appended |
| Torus.RingStep | src/gen_obj.py:14-23 | after the last position of a ring, the state is the start state of the next ring |
| Torus.BuiltIsGrid | src/gen_obj.py:14-45 | after the last ring, the collected points, texture coordinates and quads are exactly the reference sequences |
| Torus.PointPosition | src/gen_obj.py:35-38 | sample (i1, i2) is the point, and owns the texture coordinate, at 1-based index i1·(grain+1)+i2+1 |
| Torus.FaceEmittedIff | src/gen_obj.py:38-43 | some quad has current index equal to the index of sample (i1, i2) if and only if i1 > 0 and i2 > 0 |
| Torus.FaceJoinsNeighbours | src/gen_obj.py:38-43 | every quad is (this-(grain+1)-1, this-1, this, this-(grain+1)), with 1 ≤ ll < lr < ul < this ≤ number of points; its corners are the samples one ring back, one position back, and both back |
| Torus.FaceSample | src/gen_obj.py:14-43 | the j-th quad in the list is the one appended at sample (j div grain + 1, j mod grain + 1), an interior sample of the grid |
| Torus.FacesAscending | src/gen_obj.py:14-43 | quads come in row-major order: their current indices strictly increase along the quad list |
| Torus.TexcoordAt | src/gen_obj.py:37 | the texture coordinate at each position is (index2/grain, index1/grain) for that position's point; u is in [0,1]; v is at most arc_steps/grain, and in [0,1] when the arc is at most 360 degrees |
| Torus.TorusValid | src/gen_obj.py:35-45 | the reference mesh satisfies the mesh invariant (indices in range, one texture coordinate per point) |
| Torus.TorusCounts | src/gen_obj.py:11-23 | point and texture-coordinate counts agree; arc ≥ 0 gives (arc_steps+1)(grain+1) points and arc_steps·grain quads; 360 degrees gives grain² quads; 0 degrees gives one ring of grain+1 points and no quads |
| Text.IntToString | src/gen_obj.py:63 | the decimal text of an index is non-empty, starts with '-' exactly for negative numbers, and is otherwise all digits, with at least one digit and no leading zero (canonical decimal, as `"{0}".format` writes an `int`) |
| Text.IntToStringRoundTrip | src/gen_obj.py:63 | the decimal text written for an index reads back as that index |
| ObjWriter.FaceLineText | src/gen_obj.py:63 | the face line `FaceLine` of a quad is exactly `f ` followed by `ll/ll ul/ul this/this lr/lr` (the four indices in stored order, each written twice and space-separated) and a newline |
| ObjWriter.FaceLineRecord | src/gen_obj.py:63 | a face line is classified as a face record, ends with a newline, and reads back as its quad |
| ObjWriter.VertexRefRoundTrip | src/gen_obj.py:63 | the `n/n` corner reference contains no space and reads back as n, with the point and texture-coordinate indices equal |
| ObjWriter.FaceLineRoundTrip | src/gen_obj.py:63 | parsing the line `f a/a b/b c/c d/d` written for a quad gives back that quad |
| ObjWriter.FaceLineInjective | src/gen_obj.py:63 | distinct quads are written as distinct lines |
| ObjWriter.WritePoints | src/gen_obj.py:56-57 | one vertex line per point, in order, carrying that point's text and ended by a newline |
| ObjWriter.WriteTexcoords | src/gen_obj.py:59-60 | one texture-coordinate line per texture coordinate, in order, carrying its text |
| ObjWriter.WriteFaces | src/gen_obj.py:62-63 | one face line per quad, in quad order |
| ObjWriter.FaceLinesRead | src/gen_obj.py:62-63 | every line of the face section is a face record that reads back as the quad at the same position |
| ObjWriter.WriteObj | src/gen_obj.py:55-63 | the file is every vertex line, then every texture-coordinate line, then every face line; line i of each section belongs to element i |
| ObjWriter.CountSections | src/gen_obj.py:55-63 | in a file laid out as three uniform sections, counting each line kind gives back the size of its section |
| ObjWriter.FaceRecordsAtEnd | src/gen_obj.py:55-63 | in such a file the face records are exactly the trailing face section, and each reads back as the quad at its position in that section |
| GenObj.GenerateObj | src/gen_obj.py:47-63 | the script fails exactly when grain is 0; otherwise the file is the `v` line of each torus point, then the `vt` line of each texture coordinate, then the face line of each quad, all in the order `make_taurus` produces them; the written file has as many `vt` lines as `v` lines; every face line parses to a quad whose indices name existing `v` and `vt` lines; the counts match the torus counts |

## Left out

- Point coordinates: `radius1`, `radius2`, the sines, cosines and the rotation-matrix product (src/gen_obj.py:15-34) only shape floating-point coordinates, so they are not parameters of the model. A point is represented by the sample that generates it.
- Float text of `v` and `vt` lines (src/gen_obj.py:57,60): `ObjWriter.WriteObj` takes it as the functions `fmtV` and `fmtVt`, and only their place in the line is modelled.
- Torus.ArcSteps: computes the exact rational quotient. Python divides in floating point. The two agree while |grain × arc_degrees| stays below 2^53: the product and 360 are then exact doubles, and a correctly rounded quotient cannot cross an integer. Larger products are not modelled.
- A non-integer `arc_degrees` (the function's default is the integer 360, and the script passes integers): not modelled.
- Command-line parsing and opening or writing the output file (src/gen_obj.py:47-55): these are I/O. The model's file content is the sequence of lines in writing order.
- The Voronoi demo (voronoi.py): GUI and OpenGL code with random point generation. It has no relation to the mesh generator.
- The gear, "S" shape, merge, rotate, translate and scale generators are not part of this model.
