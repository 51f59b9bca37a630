/**
  The OBJ text the generator writes for a mesh: every `v` line, then every
  `vt` line, then one `f a/a b/b c/c d/d` line per quad, each quad index
  written twice because points and texture coordinates share indices.
 */
module ObjWriter {
  import opened Results
  import opened Text
  import opened Meshes

  /** A corner reference `index/index`: the point index doubles as the texture-coordinate index. */
  function VertexRef(n: int): string {
    IntToString(n) + "/" + IntToString(n)
  }

  /** The four corner references of a quad, in writing order. */
  function FaceFields(f: Face): seq<string> {
    [VertexRef(f.ll), VertexRef(f.ul), VertexRef(f.here), VertexRef(f.lr)]
  }

  /** The face line: `f`, the four corner references separated by spaces, and a newline. */
  function FaceLine(f: Face): string {
    "f " + Join(FaceFields(f), ' ') + "\n"
  }

  /** Reads `v/t` back, accepting it only when both indices agree. */
  function ParseVertexRef(field: string): Option<int> {
    var parts := Split(field, '/');
    if |parts| != 2 then None
    else
      var v :- ParseInt(parts[0]);
      var t :- ParseInt(parts[1]);
      if v == t then Some(v) else None
  }

  /** Reads every field as a corner reference; `None` if any field is not one. */
  function ParseRefs(fields: seq<string>): (refs: Option<seq<int>>)
    ensures refs.Some? ==> |refs.value| == |fields|
  {
    if |fields| == 0 then Some([])
    else
      var first :- ParseVertexRef(fields[0]);
      var rest :- ParseRefs(fields[1..]);
      Some([first] + rest)
  }

  /** Reads a face line back into its quad; `None` for any other line. */
  function ParseFaceLine(line: string): Option<Face> {
    if |line| < 3 || line[0] != 'f' || line[1] != ' ' || line[|line| - 1] != '\n' then None
    else
      var refs :- ParseRefs(Split(line[2..|line| - 1], ' '));
      if |refs| != 4 then None else Some(Face(refs[0], refs[1], refs[2], refs[3]))
  }

  /** The kind of an OBJ line, read off its leading keyword. */
  datatype LineKind = VertexLine | TexCoordLine | FaceRecord | OtherLine

  function KindOf(line: string): LineKind {
    if 3 <= |line| && line[0] == 'v' && line[1] == 't' && line[2] == ' ' then TexCoordLine
    else if 2 <= |line| && line[0] == 'v' && line[1] == ' ' then VertexLine
    else if 2 <= |line| && line[0] == 'f' && line[1] == ' ' then FaceRecord
    else OtherLine
  }

  /** The text between a line's keyword and its closing newline. */
  function Payload(line: string): string {
    if |line| < 3 || line[|line| - 1] != '\n' then ""
    else match KindOf(line)
      case TexCoordLine => line[3..|line| - 1]
      case VertexLine => line[2..|line| - 1]
      case FaceRecord => line[2..|line| - 1]
      case OtherLine => ""
  }

  /** A line written as keyword, payload and newline reads back as that kind and payload. */
  lemma RecordLine(keyword: string, payload: string, kind: LineKind)
    requires (keyword == "v " && kind == VertexLine) || (keyword == "vt " && kind == TexCoordLine)
    ensures KindOf(keyword + payload + "\n") == kind
    ensures Payload(keyword + payload + "\n") == payload
  {
  }

  lemma IntTextAvoids(n: int, c: char)
    requires c != '-' && !IsDigit(c)
    ensures c !in IntToString(n)
  {
  }

  /** A corner reference holds no space and reads back as its index. */
  lemma VertexRefRoundTrip(n: int)
    ensures ' ' !in VertexRef(n)
    ensures ParseVertexRef(VertexRef(n)) == Some(n)
  {
    var s := IntToString(n);
    IntTextAvoids(n, ' ');
    IntTextAvoids(n, '/');
    assert VertexRef(n) == Join([s, s], '/');
    SplitJoin([s, s], '/');
    IntToStringRoundTrip(n);
  }

  /** Four fields joined by spaces between `f ` and a newline, written out. */
  lemma FourFieldLine(a: string, b: string, c: string, d: string)
    ensures "f " + Join([a, b, c, d], ' ') + "\n" == "f " + a + " " + b + " " + c + " " + d + "\n"
  {
    assert [a, b, c, d][1..] == [b, c, d];
    assert [b, c, d][1..] == [c, d];
    assert [c, d][1..] == [d];
    assert Join([c, d], ' ') == c + " " + d;
    assert Join([b, c, d], ' ') == b + " " + (c + " " + d);
    assert Join([a, b, c, d], ' ') == a + " " + (b + " " + (c + " " + d));
  }

  /** The face line is exactly `f a/a b/b c/c d/d` followed by a newline. */
  lemma FaceLineText(f: Face)
    ensures FaceLine(f) == "f " + VertexRef(f.ll) + " " + VertexRef(f.ul) + " " + VertexRef(f.here) + " "
                                + VertexRef(f.lr) + "\n"
  {
    FourFieldLine(VertexRef(f.ll), VertexRef(f.ul), VertexRef(f.here), VertexRef(f.lr));
  }

  /** Writing a face line and reading it back gives the same quad. */
  lemma FaceLineRoundTrip(f: Face)
    ensures ParseFaceLine(FaceLine(f)) == Some(f)
  {
    VertexRefRoundTrip(f.ll);
    VertexRefRoundTrip(f.ul);
    VertexRefRoundTrip(f.here);
    VertexRefRoundTrip(f.lr);
    ParseJoinedLine(FaceFields(f), [f.ll, f.ul, f.here, f.lr]);
  }

  /** Four space-free corner references joined into a face line read back as the quad of their indices. */
  lemma ParseJoinedLine(fields: seq<string>, ns: seq<int>)
    requires |fields| == 4 && |ns| == 4
    requires forall i :: 0 <= i < 4 ==> ' ' !in fields[i] && ParseVertexRef(fields[i]) == Some(ns[i])
    ensures ParseFaceLine("f " + Join(fields, ' ') + "\n") == Some(Face(ns[0], ns[1], ns[2], ns[3]))
  {
    var line := "f " + Join(fields, ' ') + "\n";
    assert line[2..|line| - 1] == Join(fields, ' ');
    SplitJoin(fields, ' ');
    ParseRefsOf(fields, ns);
  }

  /** Fields that each read as a corner reference read, together, as the list of their indices. */
  lemma {:induction false} ParseRefsOf(fields: seq<string>, ns: seq<int>)
    requires |fields| == |ns|
    requires forall i :: 0 <= i < |fields| ==> ParseVertexRef(fields[i]) == Some(ns[i])
    ensures ParseRefs(fields) == Some(ns)
    decreases |fields|
  {
    if |fields| != 0 {
      ParseRefsOf(fields[1..], ns[1..]);
      assert [ns[0]] + ns[1..] == ns;
    }
  }

  /** Different quads give different face lines. */
  lemma FaceLineInjective(f: Face, g: Face)
    ensures FaceLine(f) == FaceLine(g) ==> f == g
  {
    FaceLineRoundTrip(f);
    FaceLineRoundTrip(g);
  }

  /** `line` is a record of the given kind carrying `payload`, ended by a newline. */
  predicate Record(line: string, kind: LineKind, payload: string) {
    && 0 < |line|
    && KindOf(line) == kind
    && Payload(line) == payload
    && line[|line| - 1] == '\n'
  }

  /** A face line is a face record, ended by a newline, that reads back as its quad. */
  lemma FaceLineRecord(f: Face)
    ensures KindOf(FaceLine(f)) == FaceRecord
    ensures FaceLine(f)[|FaceLine(f)| - 1] == '\n'
    ensures ParseFaceLine(FaceLine(f)) == Some(f)
  {
    FaceLineRoundTrip(f);
    assert FaceLine(f)[0] == 'f';
  }

  /** `lines` holds one vertex record per point, in point order, carrying that point's text. */
  predicate VertexLines(lines: seq<string>, points: seq<Point>, fmtV: Point -> string) {
    && |lines| == |points|
    && forall i :: 0 <= i < |lines| ==> Record(lines[i], VertexLine, fmtV(points[i]))
  }

  /** `lines` holds one texture-coordinate record per texture coordinate, in order. */
  predicate TexCoordLines(lines: seq<string>, texcoords: seq<TexCoord>, fmtVt: TexCoord -> string) {
    && |lines| == |texcoords|
    && forall i :: 0 <= i < |lines| ==> Record(lines[i], TexCoordLine, fmtVt(texcoords[i]))
  }

  /** `lines` is the face line of each quad, in quad order. */
  predicate FaceLines(lines: seq<string>, faces: seq<Face>) {
    && |lines| == |faces|
    && forall i :: 0 <= i < |lines| ==> lines[i] == FaceLine(faces[i])
  }

  /** One line per element, in order, each the element's text under `fmt`. */
  method WriteLines<T>(xs: seq<T>, fmt: T -> string) returns (lines: seq<string>)
    ensures |lines| == |xs|
    ensures forall i :: 0 <= i < |xs| ==> lines[i] == fmt(xs[i])
  {
    lines := [];
    for k := 0 to |xs|
      invariant |lines| == k
      invariant forall i :: 0 <= i < k ==> lines[i] == fmt(xs[i])
    {
      lines := lines + [fmt(xs[k])];
    }
  }

  /** One `v x y z` line per point, in point order. */
  method WritePoints(points: seq<Point>, fmtV: Point -> string) returns (lines: seq<string>)
    ensures VertexLines(lines, points, fmtV)
  {
    lines := WriteLines(points, p => "v " + fmtV(p) + "\n");
    forall i | 0 <= i < |lines|
      ensures Record(lines[i], VertexLine, fmtV(points[i]))
    {
      RecordLine("v ", fmtV(points[i]), VertexLine);
    }
  }

  /** One `vt u v` line per texture coordinate, in order. */
  method WriteTexcoords(texcoords: seq<TexCoord>, fmtVt: TexCoord -> string) returns (lines: seq<string>)
    ensures TexCoordLines(lines, texcoords, fmtVt)
  {
    lines := WriteLines(texcoords, t => "vt " + fmtVt(t) + "\n");
    forall i | 0 <= i < |lines|
      ensures Record(lines[i], TexCoordLine, fmtVt(texcoords[i]))
    {
      RecordLine("vt ", fmtVt(texcoords[i]), TexCoordLine);
    }
  }

  /** One face line per quad, in quad order. */
  method WriteFaces(faces: seq<Face>) returns (lines: seq<string>)
    ensures FaceLines(lines, faces)
  {
    lines := WriteLines(faces, FaceLine);
  }

  /** Face lines are face records, each reading back as its quad. */
  lemma FaceLinesRead(lines: seq<string>, faces: seq<Face>)
    requires FaceLines(lines, faces)
    ensures forall i :: 0 <= i < |lines| ==> KindOf(lines[i]) == FaceRecord && ParseFaceLine(lines[i]) == Some(faces[i])
  {
    forall i | 0 <= i < |lines|
      ensures KindOf(lines[i]) == FaceRecord && ParseFaceLine(lines[i]) == Some(faces[i])
    {
      FaceLineRecord(faces[i]);
    }
  }

  /**
    The lines of the OBJ file, in the order the generator writes them: all
    vertex lines, then all texture-coordinate lines, then all face lines.
    The decimal text of each point's coordinates and of each texture
    coordinate is supplied by `fmtV` and `fmtVt`.
   */
  method WriteObj(m: Mesh, fmtV: Point -> string, fmtVt: TexCoord -> string) returns (lines: seq<string>)
    ensures |lines| == |m.points| + |m.texcoords| + |m.faces|
    ensures VertexLines(lines[..|m.points|], m.points, fmtV)
    ensures TexCoordLines(lines[|m.points|..|m.points| + |m.texcoords|], m.texcoords, fmtVt)
    ensures FaceLines(lines[|m.points| + |m.texcoords|..], m.faces)
  {
    var vs := WritePoints(m.points, fmtV);
    var vts := WriteTexcoords(m.texcoords, fmtVt);
    var fs := WriteFaces(m.faces);
    lines := vs + vts + fs;
    assert lines[..|vs|] == vs;
    assert lines[|vs|..|vs| + |vts|] == vts;
    assert lines[|vs| + |vts|..] == fs;
  }

  /** Number of lines of the given kind. */
  function CountKind(lines: seq<string>, kind: LineKind): nat {
    if |lines| == 0 then 0
    else CountKind(lines[..|lines| - 1], kind) + (if KindOf(lines[|lines| - 1]) == kind then 1 else 0)
  }

  lemma {:induction false} CountKindAppend(a: seq<string>, b: seq<string>, kind: LineKind)
    ensures CountKind(a + b, kind) == CountKind(a, kind) + CountKind(b, kind)
    decreases |b|
  {
    if |b| == 0 {
      assert a + b == a;
    } else {
      assert (a + b)[..|a + b| - 1] == a + b[..|b| - 1];
      assert (a + b)[|a + b| - 1] == b[|b| - 1];
      CountKindAppend(a, b[..|b| - 1], kind);
    }
  }

  /** In a run of lines all of one kind, that kind counts every line and any other kind none. */
  lemma {:induction false} CountUniform(lines: seq<string>, kind: LineKind, other: LineKind)
    requires forall i :: 0 <= i < |lines| ==> KindOf(lines[i]) == kind
    requires other != kind
    ensures CountKind(lines, kind) == |lines|
    ensures CountKind(lines, other) == 0
    decreases |lines|
  {
    if |lines| != 0 {
      CountUniform(lines[..|lines| - 1], kind, other);
    }
  }

  /** Kind counts of three uniform sections written one after another. */
  lemma CountSections(vs: seq<string>, vts: seq<string>, fs: seq<string>)
    requires forall i :: 0 <= i < |vs| ==> KindOf(vs[i]) == VertexLine
    requires forall i :: 0 <= i < |vts| ==> KindOf(vts[i]) == TexCoordLine
    requires forall i :: 0 <= i < |fs| ==> KindOf(fs[i]) == FaceRecord
    ensures CountKind(vs + vts + fs, VertexLine) == |vs|
    ensures CountKind(vs + vts + fs, TexCoordLine) == |vts|
    ensures CountKind(vs + vts + fs, FaceRecord) == |fs|
  {
    CountUniform(vs, VertexLine, TexCoordLine);
    CountUniform(vs, VertexLine, FaceRecord);
    CountUniform(vts, TexCoordLine, VertexLine);
    CountUniform(vts, TexCoordLine, FaceRecord);
    CountUniform(fs, FaceRecord, VertexLine);
    CountUniform(fs, FaceRecord, TexCoordLine);
    CountKindAppend(vs, vts, VertexLine);
    CountKindAppend(vs + vts, fs, VertexLine);
    CountKindAppend(vs, vts, TexCoordLine);
    CountKindAppend(vs + vts, fs, TexCoordLine);
    CountKindAppend(vs, vts, FaceRecord);
    CountKindAppend(vs + vts, fs, FaceRecord);
  }

  /**
    In a file of a vertex section, a texture-coordinate section and a face
    section, the face records are exactly the face section, each reading
    back as its quad.
   */
  lemma FaceRecordsAtEnd(vs: seq<string>, vts: seq<string>, fs: seq<string>, faces: seq<Face>)
    requires forall i :: 0 <= i < |vs| ==> KindOf(vs[i]) == VertexLine
    requires forall i :: 0 <= i < |vts| ==> KindOf(vts[i]) == TexCoordLine
    requires |fs| == |faces|
    requires forall i :: 0 <= i < |fs| ==> ParseFaceLine(fs[i]) == Some(faces[i])
    ensures forall i :: 0 <= i < |vs + vts + fs| && KindOf((vs + vts + fs)[i]) == FaceRecord ==>
              |vs| + |vts| <= i && ParseFaceLine((vs + vts + fs)[i]) == Some(faces[i - |vs| - |vts|])
  {
  }
}
