/**
 * `Model::load` of a Wavefront OBJ file: the dispatch on each trimmed line
 * (`v`, `vt`, `vn`, `f`, comments and anything else), the triangulation
 * of quads, and the flattening of the per-face index lists into three
 * equally long streams of positions, texture coordinates and normals.
 *
 * Reading the file is outside the model: `Load` takes the file's lines.
 * Parsing an `f32` (`str::parse::<f32>`) is a parameter: `None` stands for
 * its `ParseFloatError`.
 */
module ObjModel {
  import opened Wrappers
  import opened Vectors
  import opened Text

  /** The errors `load` returns (its I/O error is outside the model). */
  datatype ModelError = ParseFloatError | ParseIntError | SyntaxError

  /** A loaded model: three vertices per triangle, in the three attribute streams. */
  datatype Model = Model(verts: seq<Vec3>, uvs: seq<Vec2>, norms: seq<Vec3>)

  /**
   * How `load` ends: with a model, with an error it returns, or with a
   * panic (a `usize` index `0` underflowing in `- 1`, or an index past the
   * end of its table).
   */
  datatype LoadOutcome = Loaded(model: Model) | Failed(error: ModelError) | Panicked

  /** `str::parse::<f32>`, outside the model. */
  type FloatParser = string -> Option<real>

  /** What one line of the file contributes. */
  datatype LineResult =
    | Skip
    | Vertex(v: Vec3)
    | TexCoord(uv: Vec2)
    | Normal(n: Vec3)
    | Face(vFace: seq<nat>, vtFace: seq<nat>, vnFace: seq<nat>)
    | LineFailed(error: ModelError)
    | IndexUnderflow

  // ---------------------------------------------------------------- one line

  /** The tokens after the keyword (`split_whitespace().skip(1)`). */
  function Arguments(line: string): (args: seq<string>)
  {
    var words := SplitWhitespace(line);
    if words == [] then [] else words[1..]
  }

  /** The numbers of a `v`/`vt`/`vn` line, or None at the first token that is not one. */
  function ParseFloats(tokens: seq<string>, parseFloat: FloatParser): (r: Option<seq<real>>)
    ensures r.Some? <==> forall i | 0 <= i < |tokens| :: parseFloat(tokens[i]).Some?
    ensures r.Some? ==> |r.value| == |tokens| && forall i | 0 <= i < |tokens| :: r.value[i] == parseFloat(tokens[i]).value
  {
    if tokens == [] then Some([])
    else
      var head := parseFloat(tokens[0]);
      var rest := ParseFloats(tokens[1..], parseFloat);
      assert forall i | 1 <= i < |tokens| :: tokens[i] == tokens[1..][i - 1];
      if head.None? || rest.None? then None
      else Some([head.value] + rest.value)
  }

  /** The integers of one `/`-separated face point, or None at the first piece that is not one. */
  function ParseIndices(pieces: seq<string>): (r: Option<seq<nat>>)
    ensures r.Some? <==> forall i | 0 <= i < |pieces| :: ParseUsize(pieces[i]).Some?
    ensures r.Some? ==> |r.value| == |pieces| && forall i | 0 <= i < |pieces| :: r.value[i] == ParseUsize(pieces[i]).value
  {
    if pieces == [] then Some([])
    else
      var head := ParseUsize(pieces[0]);
      var rest := ParseIndices(pieces[1..]);
      assert forall i | 1 <= i < |pieces| :: pieces[i] == pieces[1..][i - 1];
      if head.None? || rest.None? then None
      else Some([head.value] + rest.value)
  }

  /**
   * One face point `v/vt/vn`: ParseIntError when a piece is not an
   * unsigned integer, SyntaxError when there are not exactly three pieces.
   */
  function ParsePoint(token: string): (r: Result<seq<nat>, ModelError>)
    ensures r.Ok? ==> |r.value| == 3
    ensures r.Err? ==> r.error == ParseIntError || r.error == SyntaxError
    ensures r == Err(ParseIntError) <==> ParseIndices(Split(token, '/')).None?
    ensures r.Ok? <==> ParseIndices(Split(token, '/')).Some? && |Split(token, '/')| == 3
    ensures r.Ok? ==> forall i | 0 <= i < 3 :: r.value[i] == ParseUsize(Split(token, '/')[i]).value
  {
    var indices := ParseIndices(Split(token, '/'));
    if indices.None? then Err(ParseIntError)
    else if |indices.value| == 3 then Ok(indices.value)
    else Err(SyntaxError)
  }

  /** The points of a face line, or the error of the first point that fails. */
  function ParsePoints(tokens: seq<string>): (r: Result<seq<seq<nat>>, ModelError>)
    ensures r.Ok? <==> forall i | 0 <= i < |tokens| :: ParsePoint(tokens[i]).Ok?
    ensures r.Ok? ==> |r.value| == |tokens| && forall i | 0 <= i < |tokens| :: r.value[i] == ParsePoint(tokens[i]).value
    ensures r.Ok? ==> ThreeIndices(r.value)
  {
    if tokens == [] then Ok([])
    else
      var head := ParsePoint(tokens[0]);
      var rest := ParsePoints(tokens[1..]);
      assert forall i | 1 <= i < |tokens| :: tokens[i] == tokens[1..][i - 1];
      if head.Err? then Err(head.error)
      else if rest.Err? then Err(rest.error)
      else Ok([head.value] + rest.value)
  }

  /** A face line's error is the error of its first point that fails. */
  lemma {:induction false} ParsePointsFirstError(tokens: seq<string>)
    requires ParsePoints(tokens).Err?
    ensures exists i | 0 <= i < |tokens| ::
      (ParsePoint(tokens[i]) == Err(ParsePoints(tokens).error) && forall j | 0 <= j < i :: ParsePoint(tokens[j]).Ok?)
  {
    if ParsePoint(tokens[0]).Ok? {
      var tail := tokens[1..];
      ParsePointsFirstError(tail);
      var i :| 0 <= i < |tail| && ParsePoint(tail[i]) == Err(ParsePoints(tail).error)
        && forall j | 0 <= j < i :: ParsePoint(tail[j]).Ok?;
      assert tokens[i + 1] == tail[i];
      assert forall j | 1 <= j < i + 1 :: tokens[j] == tail[j - 1];
    } else {
      assert ParsePoint(tokens[0]) == Err(ParsePoints(tokens).error);
    }
  }

  /** Every point has exactly three indices. */
  predicate ThreeIndices(points: seq<seq<nat>>)
  {
    forall i | 0 <= i < |points| :: |points[i]| == 3
  }

  /** Which points a face stores, in order: a triangle as is, a quad as the triangles 0,1,2 and 2,1,3. */
  function Corners(n: nat): seq<nat>
  {
    if n == 3 then [0, 1, 2] else [0, 1, 2, 2, 1, 3]
  }

  /** Every index a face stores is at least 1, so `- 1` does not underflow. */
  predicate NoZeroIndex(points: seq<seq<nat>>)
  {
    forall i, j | 0 <= i < |points| && 0 <= j < |points[i]| :: points[i][j] != 0
  }

  /** Column `c` of the chosen corners, each index minus 1. */
  function FaceColumn(points: seq<seq<nat>>, c: nat): (col: seq<nat>)
    requires |points| == 3 || |points| == 4
    requires ThreeIndices(points)
    requires c < 3 && NoZeroIndex(points)
    ensures |col| == |Corners(|points|)|
    ensures forall k | 0 <= k < |col| :: col[k] + 1 == points[Corners(|points|)[k]][c]
  {
    var corners := Corners(|points|);
    seq(|corners|, k requires 0 <= k < |corners| => points[corners[k]][c] - 1)
  }

  /** A `v` or `vn` line's numbers: exactly three. */
  function Vector3Of(nums: Option<seq<real>>): (r: Result<Vec3, ModelError>)
    ensures r.Ok? <==> nums.Some? && |nums.value| == 3
    ensures r.Ok? ==> r.value == Vec3(nums.value[0], nums.value[1], nums.value[2])
    ensures r.Err? ==> r.error == (if nums.None? then ParseFloatError else SyntaxError)
  {
    match nums
    case None => Err(ParseFloatError)
    case Some(v) => if |v| != 3 then Err(SyntaxError) else Ok(Vec3(v[0], v[1], v[2]))
  }

  /** A `vt` line's numbers: two or three, of which the first two are kept. */
  function TexCoordOf(nums: Option<seq<real>>): (r: Result<Vec2, ModelError>)
    ensures r.Ok? <==> nums.Some? && (|nums.value| == 2 || |nums.value| == 3)
    ensures r.Ok? ==> r.value == Vec2(nums.value[0], nums.value[1])
    ensures r.Err? ==> r.error == (if nums.None? then ParseFloatError else SyntaxError)
  {
    match nums
    case None => Err(ParseFloatError)
    case Some(vt) => if |vt| != 2 && |vt| != 3 then Err(SyntaxError) else Ok(Vec2(vt[0], vt[1]))
  }

  /** Every face a line yields has 3 or 6 entries in each list. */
  predicate FaceShaped(l: LineResult)
  {
    l.Face? ==> (|l.vFace| == 3 || |l.vFace| == 6) && |l.vtFace| == |l.vFace| && |l.vnFace| == |l.vFace|
  }

  /**
   * An `f` line's points: three or four, or SyntaxError; an index `0`
   * underflows in `- 1`; otherwise the chosen corners' three columns of
   * indices minus 1, one list per attribute.
   */
  function FaceOf(points: Result<seq<seq<nat>>, ModelError>): (r: LineResult)
    requires points.Ok? ==> ThreeIndices(points.value)
    ensures r.Face? || r.IndexUnderflow? || r.LineFailed?
    ensures FaceShaped(r)
    ensures r.Face? <==> points.Ok? && (|points.value| == 3 || |points.value| == 4) && NoZeroIndex(points.value)
    ensures r.IndexUnderflow? <==> points.Ok? && (|points.value| == 3 || |points.value| == 4) && !NoZeroIndex(points.value)
    ensures r.LineFailed? ==> r.error == (if points.Err? then points.error else SyntaxError)
    ensures r.Face? ==>
      var corners := Corners(|points.value|);
      && |r.vFace| == |corners| && |r.vtFace| == |corners| && |r.vnFace| == |corners|
      && forall k | 0 <= k < |corners| ::
        && r.vFace[k] + 1 == points.value[corners[k]][0]
        && r.vtFace[k] + 1 == points.value[corners[k]][1]
        && r.vnFace[k] + 1 == points.value[corners[k]][2]
  {
    match points
    case Err(e) => LineFailed(e)
    case Ok(ps) =>
      if |ps| != 3 && |ps| != 4 then LineFailed(SyntaxError)
      else if !NoZeroIndex(ps) then IndexUnderflow
      else Face(FaceColumn(ps, 0), FaceColumn(ps, 1), FaceColumn(ps, 2))
  }

  /**
   * The body of `load`'s line loop on a trimmed line: blank lines,
   * comments and unknown keywords contribute nothing; `v`, `vt`, `vn` and
   * `f` lines are parsed as above.
   */
  function Dispatch(t: string, parseFloat: FloatParser): (r: LineResult)
    ensures FaceShaped(r)
    ensures t == [] || t[0] == '#' ==> r == Skip
    ensures !StartsWith(t, "v ") && !StartsWith(t, "vt ") && !StartsWith(t, "vn ") && !StartsWith(t, "f ") ==> r == Skip
  {
    if t == [] || t[0] == '#' then Skip
    else if StartsWith(t, "v ") then
      var v := Vector3Of(ParseFloats(Arguments(t), parseFloat));
      if v.Ok? then Vertex(v.value) else LineFailed(v.error)
    else if StartsWith(t, "vt ") then
      var vt := TexCoordOf(ParseFloats(Arguments(t), parseFloat));
      if vt.Ok? then TexCoord(vt.value) else LineFailed(vt.error)
    else if StartsWith(t, "vn ") then
      var vn := Vector3Of(ParseFloats(Arguments(t), parseFloat));
      if vn.Ok? then Normal(vn.value) else LineFailed(vn.error)
    else if StartsWith(t, "f ") then FaceOf(ParsePoints(Arguments(t)))
    else Skip
  }

  /** The first two characters of a line decide which keyword it starts with. */
  lemma KeywordsExclusive(t: string)
    ensures StartsWith(t, "v ") ==> t[0] == 'v' && t[1] == ' '
    ensures StartsWith(t, "vt ") ==> t[0] == 'v' && t[1] == 't'
    ensures StartsWith(t, "vn ") ==> t[0] == 'v' && t[1] == 'n'
    ensures StartsWith(t, "f ") ==> t[0] == 'f'
  {
    if StartsWith(t, "v ") {
      assert t[..2][1] == ' ';
    }
    if StartsWith(t, "vt ") {
      assert t[..3][1] == 't';
    }
    if StartsWith(t, "vn ") {
      assert t[..3][1] == 'n';
    }
    if StartsWith(t, "f ") {
      assert t[..2][0] == 'f';
    }
  }

  /** A `v` line is a vertex when its arguments are exactly three numbers, and fails with the numbers' error otherwise. */
  lemma VertexLine(t: string, parseFloat: FloatParser)
    requires StartsWith(t, "v ")
    ensures var v := Vector3Of(ParseFloats(Arguments(t), parseFloat));
      Dispatch(t, parseFloat) == if v.Ok? then Vertex(v.value) else LineFailed(v.error)
  {
    KeywordsExclusive(t);
  }

  /** A `vt` line is a texture coordinate when it has two or three numbers, and fails otherwise. */
  lemma TexCoordLine(t: string, parseFloat: FloatParser)
    requires StartsWith(t, "vt ")
    ensures var vt := TexCoordOf(ParseFloats(Arguments(t), parseFloat));
      Dispatch(t, parseFloat) == if vt.Ok? then TexCoord(vt.value) else LineFailed(vt.error)
  {
    KeywordsExclusive(t);
  }

  /** A `vn` line is a normal when its arguments are exactly three numbers, and fails otherwise. */
  lemma NormalLine(t: string, parseFloat: FloatParser)
    requires StartsWith(t, "vn ")
    ensures var vn := Vector3Of(ParseFloats(Arguments(t), parseFloat));
      Dispatch(t, parseFloat) == if vn.Ok? then Normal(vn.value) else LineFailed(vn.error)
  {
    KeywordsExclusive(t);
  }

  /** An `f` line is a face built from its points. */
  lemma FaceLine(t: string, parseFloat: FloatParser)
    requires StartsWith(t, "f ")
    ensures Dispatch(t, parseFloat) == FaceOf(ParsePoints(Arguments(t)))
  {
    KeywordsExclusive(t);
  }

  /** One line of the file: trimmed, then dispatched on its keyword. */
  function ParseLine(line: string, parseFloat: FloatParser): (r: LineResult)
    ensures FaceShaped(r)
  {
    Dispatch(Trim(line), parseFloat)
  }

  // ---------------------------------------------------------------- flattening

  /** `vert`/`uv`/`norm`: entry `index` of face `faceIndex`, looked up in the table; None where Rust panics. */
  function Entry<T>(table: seq<T>, faces: seq<seq<nat>>, faceIndex: nat, index: nat): (r: Option<T>)
    ensures r.Some? <==> faceIndex < |faces| && index < |faces[faceIndex]| && faces[faceIndex][index] < |table|
    ensures r.Some? ==> r.value == table[faces[faceIndex][index]]
  {
    if faceIndex < |faces| && index < |faces[faceIndex]| && faces[faceIndex][index] < |table| then
      Some(table[faces[faceIndex][index]])
    else None
  }

  /** Every face has three entries that are indices into the table. */
  predicate FacesInRange<T>(table: seq<T>, faces: seq<seq<nat>>)
  {
    forall i | 0 <= i < |faces| :: |faces[i]| >= 3 && forall j | 0 <= j < 3 :: faces[i][j] < |table|
  }

  /**
   * `all_verts`/`all_uvs`/`all_norms` as a recursion over the faces:
   * entries 0, 1 and 2 of each face looked up in turn; None at the first
   * lookup that panics.
   */
  function Flatten<T>(table: seq<T>, faces: seq<seq<nat>>): (r: Option<seq<T>>)
    decreases |faces|
  {
    if faces == [] then Some([])
    else
      var n := |faces| - 1;
      match Flatten(table, faces[..n])
      case None => None
      case Some(data) =>
        match (Entry(table, faces, n, 0), Entry(table, faces, n, 1), Entry(table, faces, n, 2))
        case (Some(a), Some(b), Some(c)) => Some(data + [a, b, c])
        case _ => None
  }

  /**
   * Flattening succeeds exactly when every face's first three entries are
   * in range, and then yields three entries per face with entry `3i + j`
   * equal to `table[faces[i][j]]`.
   */
  lemma {:induction false} FlattenFacts<T>(table: seq<T>, faces: seq<seq<nat>>)
    ensures Flatten(table, faces).Some? <==> FacesInRange(table, faces)
    ensures Flatten(table, faces).Some? ==>
      var data := Flatten(table, faces).value;
      && |data| == 3 * |faces|
      && forall i, j | 0 <= i < |faces| && 0 <= j < 3 :: data[3 * i + j] == table[faces[i][j]]
    decreases |faces|
  {
    if faces != [] {
      var n := |faces| - 1;
      var front := faces[..n];
      FlattenFacts(table, front);
      assert forall i | 0 <= i < n :: faces[i] == front[i];
      if Flatten(table, faces).Some? {
        var data := Flatten(table, faces).value;
        var prev := Flatten(table, front).value;
        assert data == prev + [table[faces[n][0]], table[faces[n][1]], table[faces[n][2]]];
        forall i, j | 0 <= i < |faces| && 0 <= j < 3
          ensures data[3 * i + j] == table[faces[i][j]]
        {
          if i < n {
            assert data[3 * i + j] == prev[3 * i + j];
          }
        }
      }
    }
  }

  /** Each face cut down to its first three entries. */
  function Heads(faces: seq<seq<nat>>): (r: seq<seq<nat>>)
    ensures |r| == |faces|
    ensures forall i | 0 <= i < |faces| :: r[i] == faces[i][..if |faces[i]| < 3 then |faces[i]| else 3]
  {
    seq(|faces|, i requires 0 <= i < |faces| => faces[i][..if |faces[i]| < 3 then |faces[i]| else 3])
  }

  /**
   * Only the first triangle of a quad reaches the output: flattening reads
   * entries 0 to 2 of each face and never the second triangle's 3 to 5.
   */
  lemma {:induction false} QuadSecondTriangleDropped<T>(table: seq<T>, faces: seq<seq<nat>>)
    ensures Flatten(table, faces) == Flatten(table, Heads(faces))
    decreases |faces|
  {
    if faces != [] {
      var n := |faces| - 1;
      QuadSecondTriangleDropped(table, faces[..n]);
      assert Heads(faces)[..n] == Heads(faces[..n]);
    }
  }

  /** `all_verts` (and `all_uvs`, `all_norms`): the loop over the faces pushing three entries per face. */
  method AllEntries<T>(table: seq<T>, faces: seq<seq<nat>>) returns (r: Option<seq<T>>)
    ensures r == Flatten(table, faces)
  {
    var data: seq<T> := [];
    var faceIndex := 0;
    while faceIndex < |faces|
      invariant 0 <= faceIndex <= |faces|
      invariant Flatten(table, faces[..faceIndex]) == Some(data)
    {
      var a := Entry(table, faces, faceIndex, 0);
      var b := Entry(table, faces, faceIndex, 1);
      var c := Entry(table, faces, faceIndex, 2);
      assert faces[..faceIndex + 1][..faceIndex] == faces[..faceIndex];
      if a.None? || b.None? || c.None? {
        FlattenNoneExtends(table, faces, faceIndex + 1);
        return None;
      }
      data := data + [a.value, b.value, c.value];
      faceIndex := faceIndex + 1;
    }
    assert faces[..faceIndex] == faces;
    return Some(data);
  }

  /** Once a prefix of the faces panics, so does every longer one. */
  lemma {:induction false} FlattenNoneExtends<T>(table: seq<T>, faces: seq<seq<nat>>, k: nat)
    requires k <= |faces| && Flatten(table, faces[..k]).None?
    ensures Flatten(table, faces).None?
    decreases |faces| - k
  {
    if k < |faces| {
      assert faces[..k + 1][..k] == faces[..k];
      FlattenNoneExtends(table, faces, k + 1);
    } else {
      assert faces[..k] == faces;
    }
  }

  // ---------------------------------------------------------------- the load loop

  /** The six vectors `load` fills: three attribute tables and three lists of faces. */
  datatype Tables = Tables(
    verts: seq<Vec3>, uvs: seq<Vec2>, norms: seq<Vec3>,
    vFaces: seq<seq<nat>>, vtFaces: seq<seq<nat>>, vnFaces: seq<seq<nat>>)

  const NoTables := Tables([], [], [], [], [], [])

  /** How the line loop ends: with the six vectors, with an error it returns, or with a panic. */
  datatype ScanResult = Scanned(tables: Tables) | ScanFailed(error: ModelError) | ScanPanicked

  /** A line that lets the loop go on. */
  predicate Continues(l: LineResult)
  {
    !l.LineFailed? && !l.IndexUnderflow?
  }

  /** What one line pushes: a vertex, texture coordinate or normal onto its table, a face onto each face list. */
  function Push(t: Tables, l: LineResult): (r: Tables)
    ensures l.Vertex? ==> r == t.(verts := t.verts + [l.v])
    ensures l.TexCoord? ==> r == t.(uvs := t.uvs + [l.uv])
    ensures l.Normal? ==> r == t.(norms := t.norms + [l.n])
    ensures l.Face? ==> r == t.(vFaces := t.vFaces + [l.vFace], vtFaces := t.vtFaces + [l.vtFace], vnFaces := t.vnFaces + [l.vnFace])
    ensures !l.Vertex? && !l.TexCoord? && !l.Normal? && !l.Face? ==> r == t
  {
    match l
    case Vertex(v) => t.(verts := t.verts + [v])
    case TexCoord(uv) => t.(uvs := t.uvs + [uv])
    case Normal(n) => t.(norms := t.norms + [n])
    case Face(vf, vtf, vnf) => t.(vFaces := t.vFaces + [vf], vtFaces := t.vtFaces + [vtf], vnFaces := t.vnFaces + [vnf])
    case _ => t
  }

  /** The line loop over the lines' results, as a recursion on the last line. */
  function Scan(results: seq<LineResult>): (r: ScanResult)
    decreases |results|
  {
    if results == [] then Scanned(NoTables)
    else
      var n := |results| - 1;
      match Scan(results[..n])
      case Scanned(t) =>
        (match results[n]
         case LineFailed(e) => ScanFailed(e)
         case IndexUnderflow => ScanPanicked
         case l => Scanned(Push(t, l)))
      case stopped => stopped
  }

  /** Every line of the file, trimmed and dispatched. */
  function ParseLines(lines: seq<string>, parseFloat: FloatParser): (results: seq<LineResult>)
    ensures |results| == |lines|
    ensures forall k | 0 <= k < |lines| :: results[k] == ParseLine(lines[k], parseFloat)
  {
    seq(|lines|, k requires 0 <= k < |lines| => ParseLine(lines[k], parseFloat))
  }

  /** After the loop: the three streams, or a panic if any lookup is out of range. */
  function Finish(t: Tables): (r: LoadOutcome)
    ensures !r.Failed?
  {
    match (Flatten(t.verts, t.vFaces), Flatten(t.uvs, t.vtFaces), Flatten(t.norms, t.vnFaces))
    case (Some(vs), Some(uvs), Some(ns)) => Loaded(Model(vs, uvs, ns))
    case _ => Panicked
  }

  function Outcome(s: ScanResult): LoadOutcome
  {
    match s
    case Scanned(t) => Finish(t)
    case ScanFailed(e) => Failed(e)
    case ScanPanicked => Panicked
  }

  /** What `load` does with the file's lines. */
  function LoadLines(lines: seq<string>, parseFloat: FloatParser): LoadOutcome
  {
    Outcome(Scan(ParseLines(lines, parseFloat)))
  }

  /** One more line: pushed when it lets the loop go on, otherwise the loop stops with its error or panic. */
  lemma ScanStep(results: seq<LineResult>, i: nat, t: Tables)
    requires i < |results| && Scan(results[..i]) == Scanned(t)
    ensures Scan(results[..i + 1]) ==
      if Continues(results[i]) then Scanned(Push(t, results[i]))
      else if results[i].LineFailed? then ScanFailed(results[i].error)
      else ScanPanicked
  {
    assert results[..i + 1][..i] == results[..i];
  }

  /** Once the loop has stopped on a prefix, later lines change nothing. */
  lemma {:induction false} ScanStops(results: seq<LineResult>, k: nat)
    requires k <= |results| && !Scan(results[..k]).Scanned?
    ensures Scan(results) == Scan(results[..k])
    decreases |results| - k
  {
    if k < |results| {
      assert results[..k + 1][..k] == results[..k];
      ScanStops(results, k + 1);
    } else {
      assert results[..k] == results;
    }
  }

  /** The loop runs to the end exactly when every line lets it go on. */
  lemma {:induction false} ScanCompletes(results: seq<LineResult>)
    ensures Scan(results).Scanned? <==> forall k | 0 <= k < |results| :: Continues(results[k])
    decreases |results|
  {
    if results != [] {
      var n := |results| - 1;
      ScanCompletes(results[..n]);
      assert forall k | 0 <= k < n :: results[..n][k] == results[k];
    }
  }

  /**
   * The first line that does not let the loop go on decides the outcome:
   * its error is the one `load` returns, and an index underflow panics.
   */
  lemma FirstBadLineDecides(lines: seq<string>, parseFloat: FloatParser, k: nat)
    requires k < |lines|
    requires forall j | 0 <= j < k :: Continues(ParseLine(lines[j], parseFloat))
    requires !Continues(ParseLine(lines[k], parseFloat))
    ensures LoadLines(lines, parseFloat) ==
      (if ParseLine(lines[k], parseFloat).LineFailed? then Failed(ParseLine(lines[k], parseFloat).error) else Panicked)
  {
    var results := ParseLines(lines, parseFloat);
    ScanFirstBad(results, k);
  }

  lemma ScanFirstBad(results: seq<LineResult>, k: nat)
    requires k < |results|
    requires forall j | 0 <= j < k :: Continues(results[j])
    requires !Continues(results[k])
    ensures Scan(results) == if results[k].LineFailed? then ScanFailed(results[k].error) else ScanPanicked
  {
    var front := results[..k];
    ScanCompletes(front);
    assert results[..k + 1][..k] == front;
    ScanStops(results, k + 1);
  }

  /** An error `load` returns is the error of some line, and every line before it parsed. */
  lemma FailedAtSomeLine(lines: seq<string>, parseFloat: FloatParser)
    requires LoadLines(lines, parseFloat).Failed?
    ensures exists k | 0 <= k < |lines| ::
      (&& ParseLine(lines[k], parseFloat) == LineFailed(LoadLines(lines, parseFloat).error)
       && forall j | 0 <= j < k :: Continues(ParseLine(lines[j], parseFloat)))
  {
    var results := ParseLines(lines, parseFloat);
    ScanFailedAt(results);
  }

  lemma {:induction false} ScanFailedAt(results: seq<LineResult>)
    requires Scan(results).ScanFailed?
    ensures exists k | 0 <= k < |results| ::
      (results[k] == LineFailed(Scan(results).error) && forall j | 0 <= j < k :: Continues(results[j]))
    decreases |results|
  {
    var n := |results| - 1;
    var front := results[..n];
    assert forall j | 0 <= j < n :: front[j] == results[j];
    if Scan(front).Scanned? {
      ScanCompletes(front);
      assert results[n] == LineFailed(Scan(results).error);
    } else {
      ScanFailedAt(front);
      var k :| 0 <= k < n && front[k] == LineFailed(Scan(front).error) && forall j | 0 <= j < k :: Continues(front[j]);
      assert results[k] == LineFailed(Scan(results).error);
    }
  }

  /**
   * The face lists move together: as many `v`, `vt` and `vn` faces, face
   * `i` of each list equally long, three entries for a triangle and six
   * for a quad.
   */
  predicate FacesAligned(t: Tables)
  {
    && |t.vFaces| == |t.vtFaces| == |t.vnFaces|
    && forall i | 0 <= i < |t.vFaces| ::
      && (|t.vFaces[i]| == 3 || |t.vFaces[i]| == 6)
      && |t.vtFaces[i]| == |t.vFaces[i]|
      && |t.vnFaces[i]| == |t.vFaces[i]|
  }

  lemma {:induction false} ScanAligned(results: seq<LineResult>)
    requires forall k | 0 <= k < |results| :: FaceShaped(results[k])
    requires Scan(results).Scanned?
    ensures FacesAligned(Scan(results).tables)
    decreases |results|
  {
    if results != [] {
      ScanAligned(results[..|results| - 1]);
    }
  }

  /**
   * A loaded model's three streams are equally long, three entries per
   * face, and entry `3i + j` of each is the table entry that index `j` of
   * face `i` names.
   */
  lemma FinishAligned(t: Tables)
    requires FacesAligned(t)
    ensures Finish(t).Loaded? <==>
      FacesInRange(t.verts, t.vFaces) && FacesInRange(t.uvs, t.vtFaces) && FacesInRange(t.norms, t.vnFaces)
    ensures Finish(t).Loaded? ==>
      && |Finish(t).model.verts| == |Finish(t).model.uvs| == |Finish(t).model.norms| == 3 * |t.vFaces|
      && forall i, j | 0 <= i < |t.vFaces| && 0 <= j < 3 ::
        && Finish(t).model.verts[3 * i + j] == t.verts[t.vFaces[i][j]]
        && Finish(t).model.uvs[3 * i + j] == t.uvs[t.vtFaces[i][j]]
        && Finish(t).model.norms[3 * i + j] == t.norms[t.vnFaces[i][j]]
  {
    FlattenFacts(t.verts, t.vFaces);
    FlattenFacts(t.uvs, t.vtFaces);
    FlattenFacts(t.norms, t.vnFaces);
  }

  /** The streams of every model `load` returns have one length, a multiple of three. */
  lemma LoadedStreamsAligned(lines: seq<string>, parseFloat: FloatParser)
    requires LoadLines(lines, parseFloat).Loaded?
    ensures |LoadLines(lines, parseFloat).model.verts| == |LoadLines(lines, parseFloat).model.uvs|
    ensures |LoadLines(lines, parseFloat).model.uvs| == |LoadLines(lines, parseFloat).model.norms|
    ensures |LoadLines(lines, parseFloat).model.verts| % 3 == 0
  {
    var results := ParseLines(lines, parseFloat);
    ScanAligned(results);
    var t := Scan(results).tables;
    FinishAligned(t);
    var faces := |t.vFaces|;
    assert |LoadLines(lines, parseFloat).model.verts| == 3 * faces;
    TimesThree(faces);
  }

  lemma TimesThree(n: nat)
    ensures (3 * n) % 3 == 0
  {
  }

  /**
   * `Model::load` after the file is open: read each line, push what it
   * yields onto the six vectors, return at the first error, and finally
   * flatten the three face lists.
   */
  method Load(lines: seq<string>, parseFloat: FloatParser) returns (r: LoadOutcome)
    ensures r == LoadLines(lines, parseFloat)
  {
    var verts: seq<Vec3> := [];
    var norms: seq<Vec3> := [];
    var uvs: seq<Vec2> := [];
    var vFaces: seq<seq<nat>> := [];
    var vnFaces: seq<seq<nat>> := [];
    var vtFaces: seq<seq<nat>> := [];
    ghost var results := ParseLines(lines, parseFloat);
    var i := 0;
    while i < |lines|
      invariant 0 <= i <= |lines|
      invariant Scan(results[..i]) == Scanned(Tables(verts, uvs, norms, vFaces, vtFaces, vnFaces))
    {
      ScanStep(results, i, Tables(verts, uvs, norms, vFaces, vtFaces, vnFaces));
      var l := ParseLine(lines[i], parseFloat);
      match l {
        case LineFailed(e) =>
          ScanStops(results, i + 1);
          return Failed(e);
        case IndexUnderflow =>
          ScanStops(results, i + 1);
          return Panicked;
        case Vertex(v) =>
          verts := verts + [v];
        case TexCoord(uv) =>
          uvs := uvs + [uv];
        case Normal(n) =>
          norms := norms + [n];
        case Face(vFace, vtFace, vnFace) =>
          vFaces := vFaces + [vFace];
          vtFaces := vtFaces + [vtFace];
          vnFaces := vnFaces + [vnFace];
        case Skip =>
      }
      i := i + 1;
    }
    assert results[..i] == results;
    var allVerts := AllEntries(verts, vFaces);
    var allUvs := AllEntries(uvs, vtFaces);
    var allNorms := AllEntries(norms, vnFaces);
    if allVerts.None? || allUvs.None? || allNorms.None? {
      return Panicked;
    }
    return Loaded(Model(allVerts.value, allUvs.value, allNorms.value));
  }
}
