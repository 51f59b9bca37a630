/**
  The generator script end to end: build the torus for the given grain and
  arc, then write its OBJ lines. Reading the command line and opening the
  output file are not modelled; the lines are the file's content in order.
 */
module GenObj {
  import opened Results
  import opened Meshes
  import opened Torus
  import opened ObjWriter

  /**
    The written file holds the torus's points, texture coordinates and
    quads, each section in the order the builder produces them. It is
    self-consistent: as many `vt` lines as `v` lines,
    and every face line reads back as a quad whose indices name existing
    `v` (and so `vt`) lines.
   */
  method GenerateObj(grain: int, arcDegrees: int, fmtV: Point -> string, fmtVt: TexCoord -> string)
    returns (r: Result<seq<string>, TorusError>)
    ensures r.Failure? <==> grain == 0
    ensures r.Success? ==>
              var m := TorusSpec(grain, arcDegrees).value;
              var np, nt := |m.points|, |m.texcoords|;
              && |r.value| == np + nt + |m.faces|
              && VertexLines(r.value[..np], m.points, fmtV)
              && TexCoordLines(r.value[np..np + nt], m.texcoords, fmtVt)
              && FaceLines(r.value[np + nt..], m.faces)
    ensures r.Success? ==>
              var lines := r.value;
              && CountKind(lines, TexCoordLine) == CountKind(lines, VertexLine)
              && forall i :: 0 <= i < |lines| && KindOf(lines[i]) == FaceRecord ==>
                   && ParseFaceLine(lines[i]).Some?
                   && FaceInRange(ParseFaceLine(lines[i]).value, CountKind(lines, VertexLine))
    ensures r.Success? && 1 <= grain && 0 <= arcDegrees ==>
              && CountKind(r.value, VertexLine) == (ArcSteps(grain, arcDegrees) + 1) * (grain + 1)
              && CountKind(r.value, FaceRecord) == ArcSteps(grain, arcDegrees) * grain
  {
    var built := MakeTorus(grain, arcDegrees);
    if built.Failure? {
      return Failure(built.error);
    }
    var m := built.value;
    var lines := WriteObj(m, fmtV, fmtVt);
    var np, nt := |m.points|, |m.texcoords|;
    var vs, vts, fs := lines[..np], lines[np..np + nt], lines[np + nt..];
    assert lines == vs + vts + fs;
    FaceLinesRead(fs, m.faces);
    CountSections(vs, vts, fs);
    FaceRecordsAtEnd(vs, vts, fs, m.faces);
    r := Success(lines);
  }
}
