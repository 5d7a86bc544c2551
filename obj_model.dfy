/** The OBJ reader of obj-file-loader/lib/model_loader.c: it counts "v " and
    "f " lines, then reads the file again, storing one Vertex per vertex line
    and one Face (three 1-based indices, not decremented) per face line.
    A file is modelled as the sequence of its lines (each as returned by one
    fgets call); the "v %f %f %f" coordinate parse is left abstract. */
module ObjModel {

  datatype Vertex = Vertex(x: real, y: real, z: real)

  datatype Face = Face(v1: int, v2: int, v3: int)

  /** The Model struct of model_loader.h: the two arrays and their counts. */
  datatype Model = Model(vertices: seq<Vertex>, faces: seq<Face>, vertexCount: int, faceCount: int) {
    /** The counts never exceed the arrays they describe. */
    predicate Valid() {
      0 <= vertexCount <= |vertices| && 0 <= faceCount <= |faces|
    }
  }

  const EmptyModel := Model([], [], 0, 0)

  // ---------------------------------------------------------------------
  // Line classification and the two counters

  /** line[0] == tag && line[1] == ' ' (a shorter line cannot match). */
  predicate IsTagLine(line: string, tag: char) {
    |line| >= 2 && line[0] == tag && line[1] == ' '
  }

  predicate IsVertexLine(line: string) { IsTagLine(line, 'v') }

  predicate IsFaceLine(line: string) { IsTagLine(line, 'f') }

  /** Number of lines that start with tag followed by a space. */
  function TagCount(lines: seq<string>, tag: char): nat
  {
    if lines == [] then 0
    else TagCount(lines[..|lines| - 1], tag) + (if IsTagLine(lines[|lines| - 1], tag) then 1 else 0)
  }

  /** The loop shared by countVerticesInFile and countFacesInFile. */
  method CountTaggedLines(lines: seq<string>, tag: char) returns (count: nat)
    ensures count == TagCount(lines, tag)
  {
    count := 0;
    var n := 0;
    while n < |lines|
      invariant 0 <= n <= |lines|
      invariant count == TagCount(lines[..n], tag)
    {
      assert lines[..n + 1][..n] == lines[..n];
      if IsTagLine(lines[n], tag) {
        count := count + 1;
      }
      n := n + 1;
    }
    assert lines[..n] == lines;
  }

  /** countVerticesInFile: a file that cannot be opened (None) counts 0. */
  method CountVerticesInFile(file: Option<seq<string>>) returns (count: nat)
    ensures file.None? ==> count == 0
    ensures file.Some? ==> count == TagCount(file.value, 'v')
  {
    if file.None? {
      return 0;
    }
    count := CountTaggedLines(file.value, 'v');
  }

  /** countFacesInFile: a file that cannot be opened (None) counts 0. */
  method CountFacesInFile(file: Option<seq<string>>) returns (count: nat)
    ensures file.None? ==> count == 0
    ensures file.Some? ==> count == TagCount(file.value, 'f')
  {
    if file.None? {
      return 0;
    }
    count := CountTaggedLines(file.value, 'f');
  }

  datatype Option<T> = None | Some(value: T)

  /** Counting distributes over concatenation of files. */
  lemma {:induction false} TagCountAppend(a: seq<string>, b: seq<string>, tag: char)
    ensures TagCount(a + b, tag) == TagCount(a, tag) + TagCount(b, tag)
  {
    if b == [] {
      assert a + b == a;
    } else {
      var b' := b[..|b| - 1];
      assert (a + b)[..|a + b| - 1] == a + b';
      TagCountAppend(a, b', tag);
    }
  }

  /** A single line counts 1 exactly when it is a tagged line; so "vn", "vt",
      "#", "v" without a space and lines of other tags add nothing. */
  lemma TagCountSingle(line: string, tag: char)
    ensures TagCount([line], tag) == (if IsTagLine(line, tag) then 1 else 0)
  {
    assert [line][..0] == [];
  }

  lemma {:induction false} TagCountBound(lines: seq<string>, tag: char)
    ensures TagCount(lines, tag) <= |lines|
    ensures TagCount(lines, tag) == |lines| <==> forall n :: 0 <= n < |lines| ==> IsTagLine(lines[n], tag)
  {
    if lines != [] {
      var init := lines[..|lines| - 1];
      TagCountBound(init, tag);
      assert forall n :: 0 <= n < |init| ==> init[n] == lines[n];
    }
  }

  /** No line is both a vertex line and a face line. */
  lemma VertexAndFaceLinesDisjoint(lines: seq<string>)
    ensures TagCount(lines, 'v') + TagCount(lines, 'f') <= |lines|
  {
    DisjointTags(lines, 'v', 'f');
  }

  lemma {:induction false} DisjointTags(lines: seq<string>, t1: char, t2: char)
    requires t1 != t2
    ensures TagCount(lines, t1) + TagCount(lines, t2) <= |lines|
  {
    if lines != [] {
      DisjointTags(lines[..|lines| - 1], t1, t2);
    }
  }

  // ---------------------------------------------------------------------
  // parseVertexIndex: sscanf(token, "%d", &v) with v preset to 0

  /** isspace in the C locale, which %d skips first. */
  predicate IsSpace(c: char) {
    c == ' ' || c == '\t' || c == '\n' || c == '\U{0B}' || c == '\U{0C}' || c == '\r'
  }

  predicate IsDigit(c: char) { '0' <= c <= '9' }

  function DigitValue(c: char): nat requires IsDigit(c) { (c as int) - ('0' as int) }

  function SkipSpaces(s: string): (r: string)
    ensures |r| <= |s| && r == s[|s| - |r|..]
    ensures r == [] || !IsSpace(r[0])
  {
    if s != [] && IsSpace(s[0]) then SkipSpaces(s[1..]) else s
  }

  /** The longest prefix of s made of decimal digits. */
  function LeadingDigits(s: string): (r: string)
    ensures |r| <= |s| && r == s[..|r|]
    ensures forall n :: 0 <= n < |r| ==> IsDigit(r[n])
    ensures |r| == |s| || !IsDigit(s[|r|])
  {
    if s != [] && IsDigit(s[0]) then [s[0]] + LeadingDigits(s[1..]) else []
  }

  /** The number a string of decimal digits denotes. */
  function DigitsValue(s: string): nat
    requires forall n :: 0 <= n < |s| ==> IsDigit(s[n])
  {
    if s == [] then 0 else DigitsValue(s[..|s| - 1]) * 10 + DigitValue(s[|s| - 1])
  }

  /** parseVertexIndex (model_loader.c:48-52): the token's leading, optionally
      signed, decimal integer; 0 when the token does not start with one. */
  function ParseVertexIndex(token: string): int
  {
    var t := SkipSpaces(token);
    var negative := t != [] && t[0] == '-';
    var body := if t != [] && (t[0] == '-' || t[0] == '+') then t[1..] else t;
    var digits := LeadingDigits(body);
    if digits == [] then 0
    else if negative then -(DigitsValue(digits) as int) else DigitsValue(digits)
  }

  /** Decimal rendering of a natural number (no leading zeros). */
  function Decimal(n: nat): (r: string)
    ensures |r| >= 1 && forall k :: 0 <= k < |r| ==> IsDigit(r[k])
  {
    if n < 10 then [('0' as int + n) as char]
    else Decimal(n / 10) + [('0' as int + n % 10) as char]
  }

  lemma {:induction false} DecimalValue(n: nat)
    ensures DigitsValue(Decimal(n)) == n
  {
    if n >= 10 {
      DecimalValue(n / 10);
      var r := Decimal(n);
      assert r[..|r| - 1] == Decimal(n / 10);
    }
  }

  lemma {:induction false} LeadingDigitsOf(ds: string, rest: string)
    requires forall k :: 0 <= k < |ds| ==> IsDigit(ds[k])
    requires rest == [] || !IsDigit(rest[0])
    ensures LeadingDigits(ds + rest) == ds
  {
    if ds != [] {
      assert (ds + rest)[1..] == ds[1..] + rest;
      LeadingDigitsOf(ds[1..], rest);
    } else {
      assert ds + rest == rest;
    }
  }

  /** Round trip: the index printed in decimal and followed by anything that
      does not continue the number ("/5/3", "//3", "" ...) parses back. */
  lemma ParseDecimal(n: nat, rest: string)
    requires rest == [] || !IsDigit(rest[0])
    ensures ParseVertexIndex(Decimal(n) + rest) == n
  {
    var r := Decimal(n);
    var t := r + rest;
    assert t[0] == r[0];
    LeadingDigitsOf(r, rest);
    DecimalValue(n);
    ParseUnsigned(t);
  }

  /** The same with a minus sign in front. */
  lemma ParseNegatedDecimal(n: nat, rest: string)
    requires rest == [] || !IsDigit(rest[0])
    ensures ParseVertexIndex("-" + Decimal(n) + rest) == -(n as int)
  {
    var r := Decimal(n);
    var m := "-" + (r + rest);
    assert "-" + r + rest == m;
    assert m[1..] == r + rest && m[1] == r[0];
    LeadingDigitsOf(r, rest);
    DecimalValue(n);
    ParseNegative(m);
  }

  lemma ParseUnsigned(t: string)
    requires t != [] && IsDigit(t[0])
    ensures ParseVertexIndex(t) == DigitsValue(LeadingDigits(t))
  {
    assert !IsSpace(t[0]);
    assert SkipSpaces(t) == t;
    assert LeadingDigits(t) != [];
  }

  lemma ParseNegative(m: string)
    requires |m| >= 2 && m[0] == '-' && IsDigit(m[1])
    ensures ParseVertexIndex(m) == -(DigitsValue(LeadingDigits(m[1..])) as int)
  {
    assert !IsSpace(m[0]);
    assert SkipSpaces(m) == m;
    assert LeadingDigits(m[1..]) != [];
  }

  /** A token without a leading (signed) number gives 0. */
  lemma ParseWithoutDigits(token: string)
    requires var t := SkipSpaces(token);
             t == [] || (!IsDigit(t[0]) && t[0] != '-' && t[0] != '+')
             || ((t[0] == '-' || t[0] == '+') && (|t| == 1 || !IsDigit(t[1])))
    ensures ParseVertexIndex(token) == 0
  {
  }

  // ---------------------------------------------------------------------
  // The face-token loop of loadOBJ (model_loader.c:102-132)

  /** Characters skipped between tokens. */
  predicate IsBlank(c: char) { c == ' ' || c == '\t' }

  /** Characters that end a token: NUL, space, tab, newline. */
  predicate EndsToken(c: char) { c == '\0' || c == ' ' || c == '\t' || c == '\n' }

  /** The token buffers hold 63 characters and a terminating NUL. */
  const TokenCap := 63

  /** Position of the first non-blank character at or after p. */
  function SkipBlanks(s: string, p: nat): (q: nat)
    requires p <= |s|
    ensures p <= q <= |s|
    ensures forall m :: p <= m < q ==> IsBlank(s[m])
    ensures q == |s| || !IsBlank(s[q])
    decreases |s| - p
  {
    if p < |s| && IsBlank(s[p]) then SkipBlanks(s, p + 1) else p
  }

  /** Position where a token starting at p stops: end of line, an ending
      character, or after TokenCap characters. */
  function TokenEnd(s: string, p: nat, q: nat): (e: nat)
    requires p <= q <= |s| && q - p <= TokenCap
    ensures q <= e <= |s| && e - p <= TokenCap
    ensures forall m :: q <= m < e ==> !EndsToken(s[m])
    ensures e == |s| || EndsToken(s[e]) || e - p == TokenCap
    decreases |s| - q
  {
    if q < |s| && !EndsToken(s[q]) && q - p < TokenCap then TokenEnd(s, p, q + 1) else q
  }

  /** Skip blanks, then read one token; returns the token and where the
      scan position stopped. */
  function NextToken(s: string, p: nat): (r: (string, nat))
    requires p <= |s|
    ensures p <= r.1 <= |s| && |r.0| <= TokenCap
    ensures forall m :: 0 <= m < |r.0| ==> !EndsToken(r.0[m])
  {
    var b := SkipBlanks(s, p);
    var e := TokenEnd(s, b, b);
    (s[b..e], e)
  }

  /** The three tokens after "f "; anything after the third is ignored. */
  function FaceTokens(line: string): (string, string, string)
    requires |line| >= 2
  {
    var (t1, p1) := NextToken(line, 2);
    var (t2, p2) := NextToken(line, p1);
    var (t3, _) := NextToken(line, p2);
    (t1, t2, t3)
  }

  /** The Face a face line yields (indices kept 1-based). */
  function ParseFace(line: string): Face
    requires |line| >= 2
  {
    var (t1, t2, t3) := FaceTokens(line);
    Face(ParseVertexIndex(t1), ParseVertexIndex(t2), ParseVertexIndex(t3))
  }

  /** The scan loop `while (*ptr == ' ' || *ptr == '\t') ptr++`. */
  method SkipBlanksLoop(s: string, p: nat) returns (q: nat)
    requires p <= |s|
    ensures q == SkipBlanks(s, p)
  {
    q := p;
    while q < |s| && IsBlank(s[q])
      invariant p <= q <= |s|
      invariant SkipBlanks(s, q) == SkipBlanks(s, p)
    {
      q := q + 1;
    }
  }

  /** The copy loop that fills one of v1str/v2str/v3str. */
  method ReadTokenLoop(s: string, p: nat) returns (tok: string, q: nat)
    requires p <= |s|
    ensures (tok, q) == (s[p..TokenEnd(s, p, p)], TokenEnd(s, p, p))
  {
    var buf := new char[TokenCap + 1](_ => '\0');
    var i := 0;
    q := p;
    while q < |s| && !EndsToken(s[q]) && i < TokenCap
      invariant p <= q <= |s| && i == q - p <= TokenCap
      invariant TokenEnd(s, p, q) == TokenEnd(s, p, p)
      invariant buf[..i] == s[p..q]
    {
      buf[i] := s[q];
      i := i + 1;
      q := q + 1;
    }
    tok := buf[..i];
  }

  /** The face branch of loadOBJ's line loop: tokenise, then parse. */
  method ReadFaceLine(line: string) returns (face: Face)
    requires |line| >= 2
    ensures face == ParseFace(line)
  {
    var p := SkipBlanksLoop(line, 2);
    var v1str, p1 := ReadTokenLoop(line, p);
    p := SkipBlanksLoop(line, p1);
    var v2str, p2 := ReadTokenLoop(line, p);
    p := SkipBlanksLoop(line, p2);
    var v3str, _ := ReadTokenLoop(line, p);
    face := Face(ParseVertexIndex(v1str), ParseVertexIndex(v2str), ParseVertexIndex(v3str));
  }

  /** A token of at most TokenCap non-ending characters. */
  predicate IsToken(t: string) {
    0 < |t| <= TokenCap && forall m :: 0 <= m < |t| ==> !EndsToken(t[m])
  }

  lemma NextTokenOf(pre: string, blanks: string, t: string, rest: string)
    requires forall m :: 0 <= m < |blanks| ==> IsBlank(blanks[m])
    requires IsToken(t)
    requires rest == [] || EndsToken(rest[0])
    ensures NextToken(pre + blanks + t + rest, |pre|) == (t, |pre + blanks + t|)
  {
    var s := pre + blanks + t + rest;
    var b := |pre + blanks|;
    SkipBlanksTo(s, |pre|, b);
    TokenEndTo(s, b, b, b + |t|);
    assert s[b..b + |t|] == t;
  }

  lemma {:induction false} SkipBlanksTo(s: string, p: nat, b: nat)
    requires p <= b <= |s|
    requires forall m :: p <= m < b ==> IsBlank(s[m])
    requires b == |s| || !IsBlank(s[b])
    ensures SkipBlanks(s, p) == b
    decreases b - p
  {
    if p < b {
      SkipBlanksTo(s, p + 1, b);
    }
  }

  lemma {:induction false} TokenEndTo(s: string, p: nat, q: nat, e: nat)
    requires p <= q <= e <= |s| && e - p <= TokenCap
    requires forall m :: q <= m < e ==> !EndsToken(s[m])
    requires e == |s| || EndsToken(s[e]) || e - p == TokenCap
    ensures TokenEnd(s, p, q) == e
    decreases e - q
  {
    if q < e {
      TokenEndTo(s, p, q + 1, e);
    }
  }

  /** A face line written "f a b c" followed by anything that starts with an
      ending character (so "f 1 2 3 4", the quad, keeps only 1, 2, 3). */
  lemma FaceTokensOf(a: string, b: string, c: string, rest: string)
    requires IsToken(a) && IsToken(b) && IsToken(c)
    requires rest == [] || EndsToken(rest[0])
    ensures FaceTokens("f " + a + " " + b + " " + c + rest) == (a, b, c)
  {
    FirstFaceToken(a, b, c, rest);
    SecondFaceToken(a, b, c, rest);
    ThirdFaceToken(a, b, c, rest);
  }

  lemma FirstFaceToken(a: string, b: string, c: string, rest: string)
    requires IsToken(a) && IsToken(b) && IsToken(c)
    requires rest == [] || EndsToken(rest[0])
    ensures NextToken("f " + a + " " + b + " " + c + rest, 2) == (a, |"f " + a|)
  {
    NextTokenOf("f ", "", a, " " + b + " " + c + rest);
    assert "f " + "" + a + (" " + b + " " + c + rest) == "f " + a + " " + b + " " + c + rest;
  }

  lemma SecondFaceToken(a: string, b: string, c: string, rest: string)
    requires IsToken(a) && IsToken(b) && IsToken(c)
    requires rest == [] || EndsToken(rest[0])
    ensures NextToken("f " + a + " " + b + " " + c + rest, |"f " + a|) == (b, |"f " + a + " " + b|)
  {
    NextTokenOf("f " + a, " ", b, " " + c + rest);
    assert "f " + a + " " + b + (" " + c + rest) == "f " + a + " " + b + " " + c + rest;
  }

  lemma ThirdFaceToken(a: string, b: string, c: string, rest: string)
    requires IsToken(a) && IsToken(b) && IsToken(c)
    requires rest == [] || EndsToken(rest[0])
    ensures NextToken("f " + a + " " + b + " " + c + rest, |"f " + a + " " + b|).0 == c
  {
    NextTokenOf("f " + a + " " + b, " ", c, rest);
  }

  /** A token longer than the buffer is cut after 63 characters and the rest
      of it becomes the next token. */
  lemma LongTokenSplits(a: string, b: string, rest: string)
    requires |a| == TokenCap && forall m :: 0 <= m < |a| ==> !EndsToken(a[m])
    requires IsToken(b)
    requires rest == [] || EndsToken(rest[0])
    ensures FaceTokens("f " + a + b + rest).0 == a
    ensures FaceTokens("f " + a + b + rest).1 == b
  {
    var line := "f " + a + b + rest;
    SkipBlanksTo(line, 2, 2);
    TokenEndTo(line, 2, 2, 2 + TokenCap);
    assert line[2..2 + TokenCap] == a;
    NextTokenOf("f " + a, "", b, rest);
    assert "f " + a + "" + b + rest == line;
  }

  /** The face line printed from three positive indices parses back to them. */
  lemma FaceRoundTrip(i1: nat, i2: nat, i3: nat)
    requires |Decimal(i1)| <= TokenCap && |Decimal(i2)| <= TokenCap && |Decimal(i3)| <= TokenCap
    ensures ParseFace("f " + Decimal(i1) + " " + Decimal(i2) + " " + Decimal(i3) + "\n") == Face(i1, i2, i3)
  {
    DecimalIsToken(i1);
    DecimalIsToken(i2);
    DecimalIsToken(i3);
    FaceTokensOf(Decimal(i1), Decimal(i2), Decimal(i3), "\n");
    ParseDecimal(i1, []);
    ParseDecimal(i2, []);
    ParseDecimal(i3, []);
    assert Decimal(i1) + [] == Decimal(i1);
    assert Decimal(i2) + [] == Decimal(i2);
    assert Decimal(i3) + [] == Decimal(i3);
  }

  lemma DecimalIsToken(n: nat)
    requires |Decimal(n)| <= TokenCap
    ensures IsToken(Decimal(n))
  {
    var r := Decimal(n);
    assert forall m :: 0 <= m < |r| ==> IsDigit(r[m]);
  }

  // ---------------------------------------------------------------------
  // loadOBJ and freeModel

  /** The vertices of a file, one per vertex line, read by vertexOf. */
  function VerticesOf(lines: seq<string>, vertexOf: string -> Vertex): (vs: seq<Vertex>)
    ensures |vs| == TagCount(lines, 'v')
  {
    if lines == [] then []
    else
      var init, last := lines[..|lines| - 1], lines[|lines| - 1];
      VerticesOf(init, vertexOf) + (if IsVertexLine(last) then [vertexOf(last)] else [])
  }

  /** The faces of a file, one per face line, in file order. */
  function FacesOf(lines: seq<string>): (fs: seq<Face>)
    ensures |fs| == TagCount(lines, 'f')
  {
    if lines == [] then []
    else
      var init, last := lines[..|lines| - 1], lines[|lines| - 1];
      FacesOf(init) + (if IsFaceLine(last) then [ParseFace(last)] else [])
  }

  /** loadOBJ (model_loader.c:54-151). file is None when the file cannot be
      opened; allocOk is whether the two mallocs succeed. */
  method LoadOBJ(file: Option<seq<string>>, allocOk: bool, vertexOf: string -> Vertex) returns (model: Model)
    ensures model.Valid()
    ensures file.None? || !allocOk ==> model.vertexCount == 0 && model.faceCount == 0
    ensures file.Some? && allocOk ==>
      var lines := file.value;
      && model.vertexCount == TagCount(lines, 'v') == |model.vertices|
      && model.faceCount == TagCount(lines, 'f') == |model.faces|
      && model.vertices == VerticesOf(lines, vertexOf)
      && model.faces == FacesOf(lines)
  {
    model := EmptyModel;
    var vertexCount := CountVerticesInFile(file);
    var faceCount := CountFacesInFile(file);
    if !allocOk {
      return;
    }
    var vertices := new Vertex[vertexCount](_ => Vertex(0.0, 0.0, 0.0));
    var faces := new Face[faceCount](_ => Face(0, 0, 0));
    if file.None? {
      return;
    }
    var lines := file.value;
    var vertexIndex, faceIndex := ReadLines(lines, vertexOf, vertices, faces);
    assert vertices[..] == vertices[..vertexIndex];
    assert faces[..] == faces[..faceIndex];
    model := Model(vertices[..], faces[..], vertexCount, faceCount);
  }

  /** The second pass of loadOBJ: the line loop that fills both arrays. */
  method ReadLines(lines: seq<string>, vertexOf: string -> Vertex, vertices: array<Vertex>, faces: array<Face>)
      returns (vertexIndex: nat, faceIndex: nat)
    requires vertices.Length == TagCount(lines, 'v') && faces.Length == TagCount(lines, 'f')
    modifies vertices, faces
    ensures vertexIndex == vertices.Length && faceIndex == faces.Length
    ensures vertices[..] == VerticesOf(lines, vertexOf)
    ensures faces[..] == FacesOf(lines)
  {
    vertexIndex, faceIndex := 0, 0;
    var n := 0;
    while n < |lines|
      invariant 0 <= n <= |lines|
      invariant vertexIndex == TagCount(lines[..n], 'v') && faceIndex == TagCount(lines[..n], 'f')
      invariant vertexIndex <= vertices.Length && faceIndex <= faces.Length
      invariant vertices[..vertexIndex] == VerticesOf(lines[..n], vertexOf)
      invariant faces[..faceIndex] == FacesOf(lines[..n])
    {
      var line := lines[n];
      LoadStep(lines, n, vertexOf);
      if IsVertexLine(line) {
        assert !IsFaceLine(line);
        vertices[vertexIndex] := vertexOf(line);
        assert vertices[..vertexIndex + 1] == vertices[..vertexIndex] + [vertexOf(line)];
        vertexIndex := vertexIndex + 1;
      } else if IsFaceLine(line) {
        var face := ReadFaceLine(line);
        faces[faceIndex] := face;
        assert faces[..faceIndex + 1] == faces[..faceIndex] + [face];
        faceIndex := faceIndex + 1;
      }
      n := n + 1;
    }
    assert lines[..n] == lines;
    assert vertices[..] == vertices[..vertexIndex];
    assert faces[..] == faces[..faceIndex];
  }

  /** What one more line adds to the running counts and arrays of loadOBJ. */
  lemma LoadStep(lines: seq<string>, n: nat, vertexOf: string -> Vertex)
    requires n < |lines|
    ensures TagCount(lines[..n + 1], 'v') <= TagCount(lines, 'v')
    ensures TagCount(lines[..n + 1], 'f') <= TagCount(lines, 'f')
    ensures VerticesOf(lines[..n + 1], vertexOf) ==
      VerticesOf(lines[..n], vertexOf) + (if IsVertexLine(lines[n]) then [vertexOf(lines[n])] else [])
    ensures FacesOf(lines[..n + 1]) ==
      FacesOf(lines[..n]) + (if IsFaceLine(lines[n]) then [ParseFace(lines[n])] else [])
  {
    assert lines[..n + 1][..n] == lines[..n];
    TagCountAppend(lines[..n + 1], lines[n + 1..], 'v');
    TagCountAppend(lines[..n + 1], lines[n + 1..], 'f');
    assert lines[..n + 1] + lines[n + 1..] == lines;
  }

  /** freeModel (model_loader.c:153-158): both counts become 0. */
  function FreeModel(m: Model): (r: Model)
    ensures r.Valid() && r.vertexCount == 0 && r.faceCount == 0
  {
    m.(vertices := [], faces := [], vertexCount := 0, faceCount := 0)
  }
}
