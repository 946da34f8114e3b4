/*
 * The Wavefront OBJ reader of src/parser.ts: `parseObj` classifies the lines
 * of the text by their prefix, then resolves every face token `a/b/c`
 * against the vertex, texture and normal lists and flattens the result into
 * three number arrays. `extractNumsFromObjLine` reads the numbers of one
 * `v`, `vn` or `vt` line.
 *
 * `parseFloat` and `parseInt` are taken as parameters (string to number
 * functions). A number is either a real or NaN; `undefined` read from a
 * missing field becomes NaN once it is stored in a Float32Array, and it is
 * written NaN here from the start.
 */
module ObjParser {
  import opened Wrappers

  /** A JavaScript number as the parser produces it: a real value or NaN. */
  datatype Num = Finite(value: real) | NaN

  // ---------------------------------------------------------------------
  // String helpers: String.prototype.split, trim and startsWith

  /** `s.split(sep)` for a one-character separator: the maximal pieces between separators. */
  function Split(s: string, sep: char): (r: seq<string>)
    ensures |r| >= 1
  {
    if |s| == 0 then [""]
    else
      var front := Split(s[..|s| - 1], sep);
      var c := s[|s| - 1];
      if c == sep then front + [""]
      else front[..|front| - 1] + [front[|front| - 1] + [c]]
  }

  /** No piece of a split holds the separator. */
  lemma {:induction false} SplitPiecesFree(s: string, sep: char)
    ensures forall k :: 0 <= k < |Split(s, sep)| ==> sep !in Split(s, sep)[k]
  {
    if |s| > 0 {
      var front := Split(s[..|s| - 1], sep);
      SplitPiecesFree(s[..|s| - 1], sep);
      var c := s[|s| - 1];
      if c != sep {
        var m := |front| - 1;
        assert sep !in front[m];
        assert sep !in front[m] + [c];
      }
    }
  }

  /** `parts.join(sep)`. */
  function Join(parts: seq<string>, sep: char): string
    requires |parts| >= 1
  {
    if |parts| == 1 then parts[0]
    else Join(parts[..|parts| - 1], sep) + [sep] + parts[|parts| - 1]
  }

  /** Joining the pieces of a split gives back the string. */
  lemma {:induction false} JoinSplit(s: string, sep: char)
    ensures Join(Split(s, sep), sep) == s
  {
    if |s| > 0 {
      var s' := s[..|s| - 1];
      var c := s[|s| - 1];
      var front := Split(s', sep);
      JoinSplit(s', sep);
      assert s == s' + [c];
      if c == sep {
        DropLast(front, "");
        assert Join(front + [""], sep) == s' + [sep] + "";
      } else {
        JoinExtendLast(front, c, sep);
      }
    }
  }

  /** Extending the last piece by c extends the joined text by c. */
  lemma {:induction false} JoinExtendLast(parts: seq<string>, c: char, sep: char)
    requires |parts| >= 1
    ensures var m := |parts| - 1;
      Join(parts[..m] + [parts[m] + [c]], sep) == Join(parts, sep) + [c]
  {
    var m := |parts| - 1;
    var r := parts[..m] + [parts[m] + [c]];
    if m > 0 {
      DropLast(parts[..m], parts[m] + [c]);
      assert Join(r, sep) == Join(parts[..m], sep) + [sep] + (parts[m] + [c]);
      AppendAssoc(Join(parts[..m], sep) + [sep], parts[m], [c]);
    } else {
      assert Join(r, sep) == parts[0] + [c];
    }
  }

  /** One more character that is not the separator extends the last piece. */
  lemma {:induction false} SplitSnoc(s: string, c: char, sep: char)
    requires c != sep
    ensures var f := Split(s, sep);
      Split(s + [c], sep) == f[..|f| - 1] + [f[|f| - 1] + [c]]
  {
    assert (s + [c])[..|s|] == s;
  }

  /** A separator at the end opens a new, empty piece. */
  lemma {:induction false} SplitSepSnoc(s: string, sep: char)
    ensures Split(s + [sep], sep) == Split(s, sep) + [""]
  {
    DropLast(s, sep);
  }

  /** Dropping the last element of a + [x] leaves a. */
  lemma {:induction false} DropLast<T>(a: seq<T>, x: T)
    ensures (a + [x])[..|a|] == a
  {
  }

  lemma {:induction false} AppendAssoc<T>(a: seq<T>, b: seq<T>, c: seq<T>)
    ensures (a + b) + c == a + (b + c)
  {
  }

  /** Appending separator-free text extends the last piece of a split. */
  lemma {:induction false} SplitExtendsLast(s: string, y: string, sep: char)
    requires sep !in y
    ensures var f := Split(s, sep);
      Split(s + y, sep) == f[..|f| - 1] + [f[|f| - 1] + y]
    decreases |y|
  {
    var f := Split(s, sep);
    var m := |f| - 1;
    if |y| == 0 {
      assert s + y == s;
      assert f[m] + y == f[m];
      assert f == f[..m] + [f[m]];
    } else {
      var y' := y[..|y| - 1];
      var c := y[|y| - 1];
      assert c in y;
      SplitExtendsLast(s, y', sep);
      var g := Split(s + y', sep);
      assert g == f[..m] + [f[m] + y'];
      SplitSnoc(s + y', c, sep);
      DropLast(f[..m], f[m] + y');
      assert y == y' + [c];
      AppendAssoc(s, y', [c]);
      AppendAssoc(f[m], y', [c]);
    }
  }

  /** Splitting pieces that were joined gives back the pieces, when none holds the separator. */
  lemma {:induction false} SplitJoin(parts: seq<string>, sep: char)
    requires |parts| >= 1
    requires forall k :: 0 <= k < |parts| ==> sep !in parts[k]
    ensures Split(Join(parts, sep), sep) == parts
  {
    if |parts| == 1 {
      SplitExtendsLast("", parts[0], sep);
      assert "" + parts[0] == parts[0];
    } else {
      var init := parts[..|parts| - 1];
      var last := parts[|parts| - 1];
      SplitJoin(init, sep);
      var xs := Join(init, sep) + [sep];
      SplitSepSnoc(Join(init, sep), sep);
      SplitExtendsLast(xs, last, sep);
      DropLast(init, "");
      assert "" + last == last;
      assert parts == init + [last];
    }
  }

  /** The characters `trim` removes: WhiteSpace and LineTerminator of ECMAScript section 12.2 and 12.3. */
  predicate IsSpace(c: char) {
    var n := c as int;
    n == 0x09 || n == 0x0A || n == 0x0B || n == 0x0C || n == 0x0D || n == 0x20
    || n == 0xA0 || n == 0x1680 || (0x2000 <= n <= 0x200A) || n == 0x2028 || n == 0x2029
    || n == 0x202F || n == 0x205F || n == 0x3000 || n == 0xFEFF
  }

  /** Leading white space removed: the longest suffix that does not start with a space. */
  function TrimStart(s: string): (r: string)
    ensures |r| <= |s| && r == s[|s| - |r|..]
    ensures r == [] || !IsSpace(r[0])
  {
    if |s| > 0 && IsSpace(s[0]) then TrimStart(s[1..]) else s
  }

  /** Everything TrimStart cuts off is white space. */
  lemma {:induction false} TrimStartCutsSpaces(s: string)
    ensures forall k :: 0 <= k < |s| - |TrimStart(s)| ==> IsSpace(s[k])
  {
    if |s| > 0 && IsSpace(s[0]) {
      TrimStartCutsSpaces(s[1..]);
      forall k | 1 <= k < |s| - |TrimStart(s)|
        ensures IsSpace(s[k])
      {
        assert s[k] == s[1..][k - 1];
      }
    }
  }

  /** Trailing white space removed: the longest prefix that does not end with a space. */
  function TrimEnd(s: string): (r: string)
    ensures |r| <= |s| && r == s[..|r|]
    ensures r == [] || !IsSpace(r[|r| - 1])
  {
    if |s| > 0 && IsSpace(s[|s| - 1]) then TrimEnd(s[..|s| - 1]) else s
  }

  /** Everything TrimEnd cuts off is white space. */
  lemma {:induction false} TrimEndCutsSpaces(s: string)
    ensures forall k :: |TrimEnd(s)| <= k < |s| ==> IsSpace(s[k])
  {
    if |s| > 0 && IsSpace(s[|s| - 1]) {
      TrimEndCutsSpaces(s[..|s| - 1]);
      forall k | |TrimEnd(s)| <= k < |s| - 1
        ensures IsSpace(s[k])
      {
        assert s[k] == s[..|s| - 1][k];
      }
    }
  }

  /** `s.trim()`: white space cut from both ends, none left at either. */
  function Trim(s: string): (r: string)
    ensures |r| <= |s|
    ensures r == [] || (!IsSpace(r[0]) && !IsSpace(r[|r| - 1]))
  {
    TrimEnd(TrimStart(s))
  }

  /** A string that neither starts nor ends with white space is its own trim. */
  lemma {:induction false} TrimUnchanged(s: string)
    requires s == [] || (!IsSpace(s[0]) && !IsSpace(s[|s| - 1]))
    ensures Trim(s) == s
  {
  }

  /** `s.startsWith(p)`. */
  predicate StartsWith(s: string, p: string) {
    |p| <= |s| && s[..|p|] == p
  }

  // ---------------------------------------------------------------------
  // extractNumsFromObjLine

  /** The `vec` argument: how many numbers a line contributes. */
  datatype VecKind = Vec3 | Vec2

  function Width(kind: VecKind): nat {
    match kind
    case Vec3 => 3
    case Vec2 => 2
  }

  /**
   * `extractNumsFromObjLine(line, vec)`: the fields of the trimmed line split
   * on single spaces, without the keyword field, read with parseFloat; the
   * first three (vec3) or two (vec2) of them, NaN where a field is missing.
   */
  function ExtractNums(line: string, kind: VecKind, parseFloat: string -> Num): (r: seq<Num>)
    ensures |r| == Width(kind)
  {
    var fields := Split(Trim(line), ' ')[1..];
    seq(Width(kind), k requires 0 <= k < Width(kind) =>
      if k < |fields| then parseFloat(fields[k]) else NaN)
  }

  /** Every character of s is white space. */
  predicate AllSpace(s: string) {
    forall k :: 0 <= k < |s| ==> IsSpace(s[k])
  }

  /** TrimStart removes leading white space and stops at the first other character. */
  lemma {:induction false} TrimStartPadding(ws: string, x: string)
    requires AllSpace(ws)
    requires x == [] || !IsSpace(x[0])
    ensures TrimStart(ws + x) == x
  {
    if ws == [] {
      assert ws + x == x;
    } else {
      assert (ws + x)[0] == ws[0];
      assert (ws + x)[1..] == ws[1..] + x;
      TrimStartPadding(ws[1..], x);
    }
  }

  /** TrimEnd removes trailing white space and stops at the last other character. */
  lemma {:induction false} TrimEndPadding(x: string, ws: string)
    requires AllSpace(ws)
    requires x == [] || !IsSpace(x[|x| - 1])
    ensures TrimEnd(x + ws) == x
  {
    if ws == [] {
      assert x + ws == x;
    } else {
      var init := ws[..|ws| - 1];
      assert (x + ws)[|x + ws| - 1] == ws[|ws| - 1];
      assert (x + ws)[..|x + ws| - 1] == x + init;
      TrimEndPadding(x, init);
    }
  }

  /** `trim` recovers text padded with white space on both sides. */
  lemma {:induction false} TrimPadding(ws1: string, m: string, ws2: string)
    requires AllSpace(ws1) && AllSpace(ws2)
    requires m == [] || (!IsSpace(m[0]) && !IsSpace(m[|m| - 1]))
    ensures Trim(ws1 + m + ws2) == m
  {
    assert ws1 + m + ws2 == ws1 + (m + ws2);
    if m == [] {
      assert ws1 + m + ws2 == (ws1 + ws2) + [];
      assert AllSpace(ws1 + ws2) by {
        forall k | 0 <= k < |ws1 + ws2| ensures IsSpace((ws1 + ws2)[k]) {
          if k >= |ws1| {
            assert (ws1 + ws2)[k] == ws2[k - |ws1|];
          }
        }
      }
      TrimStartPadding(ws1 + ws2, []);
    } else {
      assert (m + ws2)[0] == m[0];
      TrimStartPadding(ws1, m + ws2);
      TrimEndPadding(m, ws2);
    }
  }

  /**
   * For a line `kw t0 t1 ...` written with single spaces between the fields
   * and any white space before and after, the numbers are parseFloat of t0,
   * t1, ... in order, and NaN (undefined) past the last token.
   */
  lemma {:induction false} ExtractNumsOfFields(ws1: string, kw: string, tokens: seq<string>, ws2: string,
                                               kind: VecKind, parseFloat: string -> Num)
    requires AllSpace(ws1) && AllSpace(ws2)
    requires ' ' !in kw && forall k :: 0 <= k < |tokens| ==> ' ' !in tokens[k]
    requires var m := Join([kw] + tokens, ' ');
      m == [] || (!IsSpace(m[0]) && !IsSpace(m[|m| - 1]))
    ensures var r := ExtractNums(ws1 + Join([kw] + tokens, ' ') + ws2, kind, parseFloat);
      forall k :: 0 <= k < Width(kind) ==> r[k] == if k < |tokens| then parseFloat(tokens[k]) else NaN
  {
    var line := ws1 + Join([kw] + tokens, ' ') + ws2;
    TrimPadding(ws1, Join([kw] + tokens, ' '), ws2);
    forall k | 0 <= k < |[kw] + tokens| ensures ' ' !in ([kw] + tokens)[k] {
      if k > 0 {
        assert ([kw] + tokens)[k] == tokens[k - 1];
      }
    }
    SplitJoin([kw] + tokens, ' ');
    assert Split(Trim(line), ' ')[1..] == tokens;
  }

  // ---------------------------------------------------------------------
  // The first pass of parseObj: lines to records

  /** The lists the first loop of `parseObj` builds. */
  datatype ObjRecords = ObjRecords(
    vertices: seq<seq<Num>>,
    normals: seq<seq<Num>>,
    textures: seq<seq<Num>>,
    faces: seq<seq<string>>)

  /** Every entry has n numbers. */
  predicate AllOfWidth(xs: seq<seq<Num>>, n: nat) {
    forall k :: 0 <= k < |xs| ==> |xs[k]| == n
  }

  /** Vertices and normals are triples, texture coordinates pairs. */
  predicate WellShaped(r: ObjRecords) {
    AllOfWidth(r.vertices, 3) && AllOfWidth(r.normals, 3) && AllOfWidth(r.textures, 2)
  }

  lemma {:induction false} AppendOfWidth(a: seq<seq<Num>>, b: seq<seq<Num>>, n: nat)
    requires AllOfWidth(a, n) && AllOfWidth(b, n)
    ensures AllOfWidth(a + b, n)
  {
    forall k | 0 <= k < |a + b| ensures |(a + b)[k]| == n {
      if k >= |a| {
        assert (a + b)[k] == b[k - |a|];
      }
    }
  }

  /**
   * A face line with its first two characters dropped, split on single
   * spaces: space-free tokens that join back to the rest of the line.
   */
  function FaceTokens(line: string): (r: seq<string>)
    ensures |r| >= 1 && forall k :: 0 <= k < |r| ==> ' ' !in r[k]
    ensures Join(r, ' ') == if |line| >= 2 then line[2..] else ""
  {
    var rest := if |line| >= 2 then line[2..] else "";
    SplitPiecesFree(rest, ' ');
    JoinSplit(rest, ' ');
    Split(rest, ' ')
  }

  /** Records(a) followed by Records(b). */
  function Merge(a: ObjRecords, b: ObjRecords): ObjRecords {
    ObjRecords(a.vertices + b.vertices, a.normals + b.normals, a.textures + b.textures, a.faces + b.faces)
  }

  /** The vertex a line adds: one when it starts with "v ". */
  function VertexEntry(line: string, parseFloat: string -> Num): (r: seq<seq<Num>>)
    ensures |r| <= 1 && AllOfWidth(r, 3)
    ensures |r| == 1 <==> StartsWith(line, "v ")
    ensures |r| == 1 ==> r[0] == ExtractNums(line, Vec3, parseFloat)
  {
    if StartsWith(line, "v ") then [ExtractNums(line, Vec3, parseFloat)] else []
  }

  /** The normal a line adds: one when it starts with "vn". */
  function NormalEntry(line: string, parseFloat: string -> Num): (r: seq<seq<Num>>)
    ensures |r| <= 1 && AllOfWidth(r, 3)
    ensures |r| == 1 <==> StartsWith(line, "vn")
    ensures |r| == 1 ==> r[0] == ExtractNums(line, Vec3, parseFloat)
  {
    if StartsWith(line, "vn") then [ExtractNums(line, Vec3, parseFloat)] else []
  }

  /** The texture pair a line adds: one when it starts with "vt". */
  function TextureEntry(line: string, parseFloat: string -> Num): (r: seq<seq<Num>>)
    ensures |r| <= 1 && AllOfWidth(r, 2)
    ensures |r| == 1 <==> StartsWith(line, "vt")
    ensures |r| == 1 ==> r[0] == ExtractNums(line, Vec2, parseFloat)
  {
    if StartsWith(line, "vt") then [ExtractNums(line, Vec2, parseFloat)] else []
  }

  /** The face a line adds: one when it starts with "f ". */
  function FaceEntry(line: string): (r: seq<seq<string>>)
    ensures |r| <= 1 && (|r| == 1 <==> StartsWith(line, "f "))
  {
    if StartsWith(line, "f ") then [FaceTokens(line)] else []
  }

  /**
   * One iteration of the first loop of `parseObj`: the four prefix tests are
   * made one after the other, each on its own. The records only grow, and since
   * "v ", "vn" and "vt" exclude each other a line adds at most one list of numbers.
   */
  function Classify(prev: ObjRecords, line: string, parseFloat: string -> Num): (r: ObjRecords)
    ensures prev.vertices <= r.vertices && prev.normals <= r.normals
    ensures prev.textures <= r.textures && prev.faces <= r.faces
    ensures |r.faces| <= |prev.faces| + 1
    ensures |r.vertices| + |r.normals| + |r.textures| <= |prev.vertices| + |prev.normals| + |prev.textures| + 1
    ensures |r.vertices| == |prev.vertices| + 1 <==> StartsWith(line, "v ")
    ensures |r.normals| == |prev.normals| + 1 <==> StartsWith(line, "vn")
    ensures |r.textures| == |prev.textures| + 1 <==> StartsWith(line, "vt")
    ensures |r.faces| == |prev.faces| + 1 <==> StartsWith(line, "f ")
  {
    ObjRecords(
      prev.vertices + VertexEntry(line, parseFloat),
      prev.normals + NormalEntry(line, parseFloat),
      prev.textures + TextureEntry(line, parseFloat),
      prev.faces + FaceEntry(line))
  }

  /** What the first loop of `parseObj` has collected after the given lines. */
  function Records(lines: seq<string>, parseFloat: string -> Num): (r: ObjRecords)
    ensures WellShaped(r)
  {
    if |lines| == 0 then ObjRecords([], [], [], [])
    else
      var prev := Records(lines[..|lines| - 1], parseFloat);
      var line := lines[|lines| - 1];
      AppendOfWidth(prev.vertices, VertexEntry(line, parseFloat), 3);
      AppendOfWidth(prev.normals, NormalEntry(line, parseFloat), 3);
      AppendOfWidth(prev.textures, TextureEntry(line, parseFloat), 2);
      Classify(prev, line, parseFloat)
  }

  /** The lines that start with p, in order. */
  function LinesWith(lines: seq<string>, p: string): (r: seq<string>)
    ensures |r| <= |lines|
    ensures forall k :: 0 <= k < |r| ==> StartsWith(r[k], p)
  {
    if |lines| == 0 then []
    else
      var last := lines[|lines| - 1];
      LinesWith(lines[..|lines| - 1], p) + if StartsWith(last, p) then [last] else []
  }

  /** The numbers `extractNumsFromObjLine` reads from each of the lines. */
  function NumsOf(lines: seq<string>, kind: VecKind, parseFloat: string -> Num): (r: seq<seq<Num>>)
    ensures |r| == |lines| && AllOfWidth(r, Width(kind))
  {
    seq(|lines|, k requires 0 <= k < |lines| => ExtractNums(lines[k], kind, parseFloat))
  }

  /** The tokens of each face line. */
  function TokensOfLines(lines: seq<string>): (r: seq<seq<string>>)
    ensures |r| == |lines|
  {
    seq(|lines|, k requires 0 <= k < |lines| => FaceTokens(lines[k]))
  }

  /** Reading at most one more line appends its numbers. */
  lemma {:induction false} NumsOfSnoc(lines: seq<string>, x: seq<string>, kind: VecKind, parseFloat: string -> Num)
    requires |x| <= 1
    ensures NumsOf(lines + x, kind, parseFloat) == NumsOf(lines, kind, parseFloat) + NumsOf(x, kind, parseFloat)
  {
  }

  /** Reading one more face line appends its tokens. */
  lemma {:induction false} TokensOfSnoc(lines: seq<string>, x: string)
    ensures TokensOfLines(lines + [x]) == TokensOfLines(lines) + [FaceTokens(x)]
  {
    var l, r := TokensOfLines(lines + [x]), TokensOfLines(lines) + [FaceTokens(x)];
    forall k | 0 <= k < |l| ensures l[k] == r[k] {
      if k < |lines| {
        assert (lines + [x])[k] == lines[k];
      }
    }
  }

  /** One more line adds itself to the lines with prefix p exactly when it has that prefix. */
  lemma {:induction false} LinesWithSnoc(lines: seq<string>, x: string, p: string)
    ensures LinesWith(lines + [x], p) == LinesWith(lines, p) + if StartsWith(x, p) then [x] else []
  {
    assert (lines + [x])[..|lines|] == lines;
  }

  /** The vertices are the numbers of the "v " lines, in line order. */
  lemma {:induction false} RecordsVertices(lines: seq<string>, parseFloat: string -> Num)
    ensures Records(lines, parseFloat).vertices == NumsOf(LinesWith(lines, "v "), Vec3, parseFloat)
  {
    if |lines| > 0 {
      var init, last := lines[..|lines| - 1], lines[|lines| - 1];
      assert lines == init + [last];
      RecordsVertices(init, parseFloat);
      LinesWithSnoc(init, last, "v ");
      NumsOfSnoc(LinesWith(init, "v "), if StartsWith(last, "v ") then [last] else [], Vec3, parseFloat);
    }
  }

  /** The normals are the numbers of the "vn" lines, in line order. */
  lemma {:induction false} RecordsNormals(lines: seq<string>, parseFloat: string -> Num)
    ensures Records(lines, parseFloat).normals == NumsOf(LinesWith(lines, "vn"), Vec3, parseFloat)
  {
    if |lines| > 0 {
      var init, last := lines[..|lines| - 1], lines[|lines| - 1];
      assert lines == init + [last];
      RecordsNormals(init, parseFloat);
      LinesWithSnoc(init, last, "vn");
      NumsOfSnoc(LinesWith(init, "vn"), if StartsWith(last, "vn") then [last] else [], Vec3, parseFloat);
    }
  }

  /** The texture coordinates are the numbers of the "vt" lines, in line order. */
  lemma {:induction false} RecordsTextures(lines: seq<string>, parseFloat: string -> Num)
    ensures Records(lines, parseFloat).textures == NumsOf(LinesWith(lines, "vt"), Vec2, parseFloat)
  {
    if |lines| > 0 {
      var init, last := lines[..|lines| - 1], lines[|lines| - 1];
      assert lines == init + [last];
      RecordsTextures(init, parseFloat);
      LinesWithSnoc(init, last, "vt");
      NumsOfSnoc(LinesWith(init, "vt"), if StartsWith(last, "vt") then [last] else [], Vec2, parseFloat);
    }
  }

  /** The faces are the tokens of the "f " lines, in line order. */
  lemma {:induction false} RecordsFaces(lines: seq<string>, parseFloat: string -> Num)
    ensures Records(lines, parseFloat).faces == TokensOfLines(LinesWith(lines, "f "))
  {
    if |lines| > 0 {
      var init, last := lines[..|lines| - 1], lines[|lines| - 1];
      assert lines == init + [last];
      RecordsFaces(init, parseFloat);
      LinesWithSnoc(init, last, "f ");
      if StartsWith(last, "f ") {
        TokensOfSnoc(LinesWith(init, "f "), last);
      } else {
        assert LinesWith(init, "f ") + [] == LinesWith(init, "f ");
      }
    }
  }

  /**
   * The first loop keeps, in line order, the numbers of every line starting
   * with "v " as vertices, with "vn" as normals and with "vt" as texture
   * coordinates, and the tokens of every line starting with "f " as faces.
   */
  lemma {:induction false} RecordsOfLines(lines: seq<string>, parseFloat: string -> Num)
    ensures Records(lines, parseFloat).vertices == NumsOf(LinesWith(lines, "v "), Vec3, parseFloat)
    ensures Records(lines, parseFloat).normals == NumsOf(LinesWith(lines, "vn"), Vec3, parseFloat)
    ensures Records(lines, parseFloat).textures == NumsOf(LinesWith(lines, "vt"), Vec2, parseFloat)
    ensures Records(lines, parseFloat).faces == TokensOfLines(LinesWith(lines, "f "))
  {
    RecordsVertices(lines, parseFloat);
    RecordsNormals(lines, parseFloat);
    RecordsTextures(lines, parseFloat);
    RecordsFaces(lines, parseFloat);
  }

  /** Classifying a line after merged records only touches the second part. */
  lemma {:induction false} ClassifyMerge(a: ObjRecords, b: ObjRecords, line: string, parseFloat: string -> Num)
    ensures Classify(Merge(a, b), line, parseFloat) == Merge(a, Classify(b, line, parseFloat))
  {
    AppendAssoc(a.vertices, b.vertices, VertexEntry(line, parseFloat));
    AppendAssoc(a.normals, b.normals, NormalEntry(line, parseFloat));
    AppendAssoc(a.textures, b.textures, TextureEntry(line, parseFloat));
    AppendAssoc(a.faces, b.faces, FaceEntry(line));
  }

  /** Lines are classified one by one: the records of a + b are those of a followed by those of b. */
  lemma {:induction false} RecordsAppend(a: seq<string>, b: seq<string>, parseFloat: string -> Num)
    ensures Records(a + b, parseFloat) == Merge(Records(a, parseFloat), Records(b, parseFloat))
    decreases |b|
  {
    if |b| > 0 {
      var b' := b[..|b| - 1];
      RecordsAppend(a, b', parseFloat);
      assert (a + b)[..|a + b| - 1] == a + b';
      assert (a + b)[|a + b| - 1] == b[|b| - 1];
      ClassifyMerge(Records(a, parseFloat), Records(b', parseFloat), b[|b| - 1], parseFloat);
    } else {
      var r := Records(a, parseFloat);
      assert a + b == a;
      assert Merge(r, ObjRecords([], [], [], [])) == r;
    }
  }

  /** A line that starts with none of "v ", "vn", "vt" and "f " yields no records on its own. */
  lemma {:induction false} IgnoredLineRecords(line: string, parseFloat: string -> Num)
    requires !StartsWith(line, "v ") && !StartsWith(line, "vn") && !StartsWith(line, "vt") && !StartsWith(line, "f ")
    ensures Records([line], parseFloat) == ObjRecords([], [], [], [])
  {
    assert [line][..0] == [];
  }

  lemma {:induction false} MergeEmpty(a: ObjRecords)
    ensures Merge(a, ObjRecords([], [], [], [])) == a
  {
    assert a.vertices + [] == a.vertices;
    assert a.normals + [] == a.normals;
    assert a.textures + [] == a.textures;
    assert a.faces + [] == a.faces;
  }

  /** A line that starts with none of "v ", "vn", "vt" and "f " contributes nothing. */
  lemma {:induction false} LineIgnored(a: seq<string>, line: string, b: seq<string>, parseFloat: string -> Num)
    requires !StartsWith(line, "v ") && !StartsWith(line, "vn") && !StartsWith(line, "vt") && !StartsWith(line, "f ")
    ensures Records(a + [line] + b, parseFloat) == Records(a + b, parseFloat)
  {
    IgnoredLineRecords(line, parseFloat);
    RecordsAppend(a, [line], parseFloat);
    MergeEmpty(Records(a, parseFloat));
    RecordsAppend(a + [line], b, parseFloat);
    RecordsAppend(a, b, parseFloat);
  }

  // ---------------------------------------------------------------------
  // The second pass of parseObj: face tokens to numbers

  /** The numbers one face token contributes to the three output arrays. */
  datatype Corner = Corner(v: seq<Num>, t: seq<Num>, n: seq<Num>)

  /** The three output arrays. */
  datatype GpuObj = GpuObj(vertices: seq<Num>, textures: seq<Num>, normals: seq<Num>)

  /** `list[parseInt(part) - 1]`; None is `undefined` (NaN or out of range). */
  function Lookup(list: seq<seq<Num>>, part: string, parseInt: string -> Option<int>): (r: Option<seq<Num>>)
    ensures r.Some? <==> parseInt(part).Some? && 0 <= parseInt(part).value - 1 < |list|
    ensures r.Some? ==> r.value == list[parseInt(part).value - 1]
  {
    match parseInt(part)
    case None => None
    case Some(i) => if 0 <= i - 1 < |list| then Some(list[i - 1]) else None
  }

  /**
   * The face token `a/b/c` resolved to vertex a, texture b and normal c
   * (counted from 1); None when a part is missing or an index does not name
   * an entry, where spreading `undefined` throws a TypeError.
   */
  function ResolveCorner(token: string, r: ObjRecords, parseInt: string -> Option<int>): (c: Option<Corner>)
    ensures c.Some? ==> |Split(token, '/')| >= 3
    ensures c.Some? ==> c.value.v in r.vertices && c.value.t in r.textures && c.value.n in r.normals
  {
    var parts := Split(token, '/');
    if |parts| < 3 then None
    else
      var v := Lookup(r.vertices, parts[0], parseInt);
      var t := Lookup(r.textures, parts[1], parseInt);
      var n := Lookup(r.normals, parts[2], parseInt);
      if v.Some? && t.Some? && n.Some? then Some(Corner(v.value, t.value, n.value)) else None
  }

  /** A token `x/y/z` whose parts parse to indices inside the lists gives those entries. */
  lemma {:induction false} ResolveIndices(x: string, y: string, z: string, r: ObjRecords, parseInt: string -> Option<int>)
    requires '/' !in x && '/' !in y && '/' !in z
    requires parseInt(x).Some? && 1 <= parseInt(x).value <= |r.vertices|
    requires parseInt(y).Some? && 1 <= parseInt(y).value <= |r.textures|
    requires parseInt(z).Some? && 1 <= parseInt(z).value <= |r.normals|
    ensures ResolveCorner(Join([x, y, z], '/'), r, parseInt) ==
      Some(Corner(r.vertices[parseInt(x).value - 1], r.textures[parseInt(y).value - 1], r.normals[parseInt(z).value - 1]))
  {
    SplitJoin([x, y, z], '/');
  }

  /** A token with fewer than two slashes makes `parseObj` throw. */
  lemma {:induction false} ResolveMissingPart(token: string, r: ObjRecords, parseInt: string -> Option<int>)
    requires |Split(token, '/')| < 3
    ensures ResolveCorner(token, r, parseInt) == None
  {
  }

  /** The face tokens of all faces, in face order and token order. */
  function Flatten(faces: seq<seq<string>>): seq<string> {
    if |faces| == 0 then [] else Flatten(faces[..|faces| - 1]) + faces[|faces| - 1]
  }

  lemma {:induction false} FlattenAppend(a: seq<seq<string>>, b: seq<seq<string>>)
    ensures Flatten(a + b) == Flatten(a) + Flatten(b)
    decreases |b|
  {
    if |b| == 0 {
      assert a + b == a;
    } else {
      var b' := b[..|b| - 1];
      FlattenAppend(a, b');
      assert (a + b)[..|a + b| - 1] == a + b';
      assert (a + b)[|a + b| - 1] == b[|b| - 1];
    }
  }

  /** The arrays after the given face tokens; None once a token has thrown. */
  function Assemble(tokens: seq<string>, r: ObjRecords, parseInt: string -> Option<int>): Option<GpuObj> {
    if |tokens| == 0 then Some(GpuObj([], [], []))
    else
      match Assemble(tokens[..|tokens| - 1], r, parseInt)
      case None => None
      case Some(g) =>
        match ResolveCorner(tokens[|tokens| - 1], r, parseInt)
        case None => None
        case Some(c) => Some(GpuObj(g.vertices + c.v, g.textures + c.t, g.normals + c.n))
  }

  /** After a throw, later tokens change nothing. */
  lemma {:induction false} AssembleStaysThrown(a: seq<string>, b: seq<string>, r: ObjRecords, parseInt: string -> Option<int>)
    requires Assemble(a, r, parseInt) == None
    ensures Assemble(a + b, r, parseInt) == None
    decreases |b|
  {
    if |b| == 0 {
      assert a + b == a;
    } else {
      var b' := b[..|b| - 1];
      AssembleStaysThrown(a, b', r, parseInt);
      assert (a + b)[..|a + b| - 1] == a + b';
    }
  }

  /** A resolved token brings three vertex numbers, two texture numbers and three normal numbers. */
  lemma {:induction false} CornerWidths(token: string, r: ObjRecords, parseInt: string -> Option<int>)
    requires WellShaped(r) && ResolveCorner(token, r, parseInt).Some?
    ensures var c := ResolveCorner(token, r, parseInt).value;
      |c.v| == 3 && |c.t| == 2 && |c.n| == 3
  {
  }

  /** The arrays are complete exactly when every token resolves. */
  lemma {:induction false} AssembleSucceeds(tokens: seq<string>, r: ObjRecords, parseInt: string -> Option<int>)
    ensures Assemble(tokens, r, parseInt).Some? <==>
      forall k :: 0 <= k < |tokens| ==> ResolveCorner(tokens[k], r, parseInt).Some?
  {
    if |tokens| > 0 {
      var front := tokens[..|tokens| - 1];
      AssembleSucceeds(front, r, parseInt);
      if Assemble(front, r, parseInt).None? {
        var k :| 0 <= k < |front| && ResolveCorner(front[k], r, parseInt).None?;
        assert tokens[k] == front[k];
      } else {
        forall k | 0 <= k < |front| ensures ResolveCorner(tokens[k], r, parseInt).Some? {
          assert tokens[k] == front[k];
        }
      }
    }
  }

  /**
   * Complete arrays have 3, 2 and 3 numbers per token, and token k owns
   * numbers 3k..3k+3 of the vertices and normals and 2k..2k+2 of the texture
   * coordinates, in token order.
   */
  lemma {:induction false} AssembleLayout(tokens: seq<string>, r: ObjRecords, parseInt: string -> Option<int>)
    requires WellShaped(r)
    requires Assemble(tokens, r, parseInt).Some?
    ensures var g := Assemble(tokens, r, parseInt).value;
      && |g.vertices| == 3 * |tokens| && |g.textures| == 2 * |tokens| && |g.normals| == 3 * |tokens|
      && forall k :: 0 <= k < |tokens| ==>
        ResolveCorner(tokens[k], r, parseInt).Some? && Owns(g, k, ResolveCorner(tokens[k], r, parseInt).value)
  {
    if |tokens| > 0 {
      var front := tokens[..|tokens| - 1];
      var last := tokens[|tokens| - 1];
      AssembleLayout(front, r, parseInt);
      var g := Assemble(front, r, parseInt).value;
      var c := ResolveCorner(last, r, parseInt).value;
      CornerWidths(last, r, parseInt);
      var g' := Assemble(tokens, r, parseInt).value;
      assert g' == GpuObj(g.vertices + c.v, g.textures + c.t, g.normals + c.n);
      forall k | 0 <= k < |tokens|
        ensures ResolveCorner(tokens[k], r, parseInt).Some? && Owns(g', k, ResolveCorner(tokens[k], r, parseInt).value)
      {
        if k < |front| {
          assert tokens[k] == front[k];
          OwnsKept(g, c, k, ResolveCorner(front[k], r, parseInt).value);
        } else {
          OwnsLast(g, c, k);
        }
      }
    }
  }

  /** Token k's numbers sit at positions 3k, 2k and 3k of the three arrays. */
  predicate Owns(g: GpuObj, k: nat, c: Corner) {
    && 3 * k + 3 <= |g.vertices| && g.vertices[3 * k..3 * k + 3] == c.v
    && 2 * k + 2 <= |g.textures| && g.textures[2 * k..2 * k + 2] == c.t
    && 3 * k + 3 <= |g.normals| && g.normals[3 * k..3 * k + 3] == c.n
  }

  lemma {:induction false} OwnsKept(g: GpuObj, c: Corner, k: nat, d: Corner)
    requires Owns(g, k, d)
    ensures Owns(GpuObj(g.vertices + c.v, g.textures + c.t, g.normals + c.n), k, d)
  {
    var g' := GpuObj(g.vertices + c.v, g.textures + c.t, g.normals + c.n);
    assert g'.vertices[3 * k..3 * k + 3] == g.vertices[3 * k..3 * k + 3];
    assert g'.textures[2 * k..2 * k + 2] == g.textures[2 * k..2 * k + 2];
    assert g'.normals[3 * k..3 * k + 3] == g.normals[3 * k..3 * k + 3];
  }

  lemma {:induction false} OwnsLast(g: GpuObj, c: Corner, k: nat)
    requires |g.vertices| == 3 * k && |g.textures| == 2 * k && |g.normals| == 3 * k
    requires |c.v| == 3 && |c.t| == 2 && |c.n| == 3
    ensures Owns(GpuObj(g.vertices + c.v, g.textures + c.t, g.normals + c.n), k, c)
  {
    var g' := GpuObj(g.vertices + c.v, g.textures + c.t, g.normals + c.n);
    assert g'.vertices[3 * k..3 * k + 3] == c.v;
    assert g'.textures[2 * k..2 * k + 2] == c.t;
    assert g'.normals[3 * k..3 * k + 3] == c.n;
  }

  // ---------------------------------------------------------------------
  // parseObj

  /** The records of the lines of `obj`. */
  function RecordsOf(obj: string, parseFloat: string -> Num): ObjRecords {
    Records(Split(obj, '\n'), parseFloat)
  }

  /** The face tokens of `obj`, in face order and token order. */
  function TokensOf(obj: string, parseFloat: string -> Num): seq<string> {
    Flatten(RecordsOf(obj, parseFloat).faces)
  }

  /** What `parseObj` returns for the text `obj`; None when it throws. */
  function ParsedObj(obj: string, parseFloat: string -> Num, parseInt: string -> Option<int>): Option<GpuObj> {
    Assemble(TokensOf(obj, parseFloat), RecordsOf(obj, parseFloat), parseInt)
  }

  /**
   * With F face tokens in the text, parsing succeeds exactly when every token
   * resolves, and then yields 3F vertex numbers, 2F texture numbers and 3F
   * normal numbers, token by token in face order.
   */
  lemma {:induction false} ParsedObjLayout(obj: string, parseFloat: string -> Num, parseInt: string -> Option<int>)
    ensures ParsedObj(obj, parseFloat, parseInt).Some? <==>
      forall k :: 0 <= k < |TokensOf(obj, parseFloat)| ==>
        ResolveCorner(TokensOf(obj, parseFloat)[k], RecordsOf(obj, parseFloat), parseInt).Some?
    ensures ParsedObj(obj, parseFloat, parseInt).Some? ==>
      var g := ParsedObj(obj, parseFloat, parseInt).value;
      var n := |TokensOf(obj, parseFloat)|;
      && |g.vertices| == 3 * n && |g.textures| == 2 * n && |g.normals| == 3 * n
      && forall k :: 0 <= k < n ==>
        Owns(g, k, ResolveCorner(TokensOf(obj, parseFloat)[k], RecordsOf(obj, parseFloat), parseInt).value)
  {
    var r := RecordsOf(obj, parseFloat);
    var tokens := TokensOf(obj, parseFloat);
    AssembleSucceeds(tokens, r, parseInt);
    if Assemble(tokens, r, parseInt).Some? {
      AssembleLayout(tokens, r, parseInt);
    }
  }

  /** One step of the first loop of `parseObj`. */
  lemma {:induction false} RecordsStep(lines: seq<string>, i: nat, parseFloat: string -> Num)
    requires i < |lines|
    ensures Records(lines[..i + 1], parseFloat) == Classify(Records(lines[..i], parseFloat), lines[i], parseFloat)
  {
    assert lines[..i + 1][..i] == lines[..i];
  }

  /** One step of the second loop of `parseObj`: token k of face f. */
  lemma {:induction false} AssembleStep(done: seq<string>, face: seq<string>, k: nat, r: ObjRecords, parseInt: string -> Option<int>)
    requires k < |face|
    ensures var prev := Assemble(done + face[..k], r, parseInt);
      Assemble(done + face[..k + 1], r, parseInt) ==
        if prev.None? then None
        else match ResolveCorner(face[k], r, parseInt)
          case None => None
          case Some(c) => Some(GpuObj(prev.value.vertices + c.v, prev.value.textures + c.t, prev.value.normals + c.n))
  {
    var next := done + face[..k + 1];
    assert next[..|next| - 1] == done + face[..k];
    assert next[|next| - 1] == face[k];
  }

  /** A throw at token k of face f is the result of the whole pass. */
  lemma {:induction false} ThrownAt(faces: seq<seq<string>>, f: nat, k: nat, r: ObjRecords, parseInt: string -> Option<int>)
    requires f < |faces| && k < |faces[f]|
    requires Assemble(Flatten(faces[..f]) + faces[f][..k + 1], r, parseInt) == None
    ensures Assemble(Flatten(faces), r, parseInt) == None
  {
    FaceThrown(faces, f, k, r, parseInt);
    PrefixThrown(faces, f + 1, r, parseInt);
  }

  /** A throw inside face f leaves the faces up to f thrown. */
  lemma {:induction false} FaceThrown(faces: seq<seq<string>>, f: nat, k: nat, r: ObjRecords, parseInt: string -> Option<int>)
    requires f < |faces| && k < |faces[f]|
    requires Assemble(Flatten(faces[..f]) + faces[f][..k + 1], r, parseInt) == None
    ensures Assemble(Flatten(faces[..f + 1]), r, parseInt) == None
  {
    var face, pre := faces[f], Flatten(faces[..f]);
    AssembleStaysThrown(pre + face[..k + 1], face[k + 1..], r, parseInt);
    assert face == face[..k + 1] + face[k + 1..];
    AppendAssoc(pre, face[..k + 1], face[k + 1..]);
    FaceDone(faces, f);
    assert face[..|face|] == face;
  }

  /** A throw among the first n faces is the result of the whole pass. */
  lemma {:induction false} PrefixThrown(faces: seq<seq<string>>, n: nat, r: ObjRecords, parseInt: string -> Option<int>)
    requires n <= |faces|
    requires Assemble(Flatten(faces[..n]), r, parseInt) == None
    ensures Assemble(Flatten(faces), r, parseInt) == None
  {
    assert faces == faces[..n] + faces[n..];
    FlattenAppend(faces[..n], faces[n..]);
    AssembleStaysThrown(Flatten(faces[..n]), Flatten(faces[n..]), r, parseInt);
  }

  /** A face finished: its tokens follow those of the faces before it. */
  lemma {:induction false} FaceDone(faces: seq<seq<string>>, f: nat)
    requires f < |faces|
    ensures Flatten(faces[..f + 1]) == Flatten(faces[..f]) + faces[f][..|faces[f]|]
  {
    assert faces[..f + 1][..f] == faces[..f];
    assert faces[f][..|faces[f]|] == faces[f];
  }

  /**
   * `parseObj(obj)`: the text split at line feeds, a first pass over the lines
   * collecting vertices, normals, texture pairs and faces, and a second pass
   * over the faces and their tokens appending the referenced numbers. None
   * when a token throws.
   */
  method ParseObj(obj: string, parseFloat: string -> Num, parseInt: string -> Option<int>) returns (result: Option<GpuObj>)
    ensures result == ParsedObj(obj, parseFloat, parseInt)
  {
    var lines := Split(obj, '\n');
    var records := CollectRecords(lines, parseFloat);
    result := AssembleFaces(records, parseInt);
  }

  /** The first loop of `parseObj`: classify every line. */
  method CollectRecords(lines: seq<string>, parseFloat: string -> Num) returns (r: ObjRecords)
    ensures r == Records(lines, parseFloat)
  {
    var objFaces: seq<seq<string>> := [];
    var objVertices: seq<seq<Num>> := [];
    var objNormals: seq<seq<Num>> := [];
    var objTextures: seq<seq<Num>> := [];
    for i := 0 to |lines|
      invariant Records(lines[..i], parseFloat) == ObjRecords(objVertices, objNormals, objTextures, objFaces)
    {
      RecordsStep(lines, i, parseFloat);
      var line := lines[i];
      ghost var prev := ObjRecords(objVertices, objNormals, objTextures, objFaces);
      if StartsWith(line, "v ") {
        objVertices := objVertices + [ExtractNums(line, Vec3, parseFloat)];
      }
      assert objVertices == prev.vertices + VertexEntry(line, parseFloat);
      if StartsWith(line, "vn") {
        objNormals := objNormals + [ExtractNums(line, Vec3, parseFloat)];
      }
      assert objNormals == prev.normals + NormalEntry(line, parseFloat);
      if StartsWith(line, "vt") {
        objTextures := objTextures + [ExtractNums(line, Vec2, parseFloat)];
      }
      assert objTextures == prev.textures + TextureEntry(line, parseFloat);
      if StartsWith(line, "f ") {
        objFaces := objFaces + [FaceTokens(line)];
      }
      assert objFaces == prev.faces + FaceEntry(line);
      assert ObjRecords(objVertices, objNormals, objTextures, objFaces) == Classify(prev, line, parseFloat);
    }
    assert lines[..|lines|] == lines;
    r := ObjRecords(objVertices, objNormals, objTextures, objFaces);
  }

  /**
   * The second loop of `parseObj`: for every face and every token of it,
   * append the numbers the token names; None when a token throws.
   */
  method AssembleFaces(r: ObjRecords, parseInt: string -> Option<int>) returns (result: Option<GpuObj>)
    ensures result == Assemble(Flatten(r.faces), r, parseInt)
  {
    var objFaces := r.faces;
    var vertices: seq<Num> := [];
    var textures: seq<Num> := [];
    var normals: seq<Num> := [];
    for f := 0 to |objFaces|
      invariant Assemble(Flatten(objFaces[..f]), r, parseInt) == Some(GpuObj(vertices, textures, normals))
    {
      var face := objFaces[f];
      assert Flatten(objFaces[..f]) + face[..0] == Flatten(objFaces[..f]);
      for k := 0 to |face|
        invariant Assemble(Flatten(objFaces[..f]) + face[..k], r, parseInt) == Some(GpuObj(vertices, textures, normals))
      {
        AssembleStep(Flatten(objFaces[..f]), face, k, r, parseInt);
        var corner := ResolveCorner(face[k], r, parseInt);
        if corner.None? {
          ThrownAt(objFaces, f, k, r, parseInt);
          return None;
        }
        vertices := vertices + corner.value.v;
        textures := textures + corner.value.t;
        normals := normals + corner.value.n;
      }
      FaceDone(objFaces, f);
    }
    assert objFaces[..|objFaces|] == objFaces;
    return Some(GpuObj(vertices, textures, normals));
  }
}
