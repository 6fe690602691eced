/**
 * How the trimmer reads its input: fgets (plain files) and gzgets (gzip files)
 * into a 4096-byte buffer, followed by strlen and the removal of one trailing
 * newline. The input is the text the reader yields (for gzip files, the
 * decompressed text).
 */
module LineReader {

  /** Size of the line buffer handed to fgets and gzgets. */
  const BufferSize: nat := 4096

  /**
   * Number of characters one fgets/gzgets call with room for `room`
   * characters takes from the front of `s`: it stops after the first newline,
   * when the room is used up, or at the end of the input.
   */
  function TakeLen(s: string, room: nat): (k: nat)
    ensures k <= |s| && k <= room
    ensures s != [] && room > 0 ==> k > 0
    ensures forall j :: 0 <= j < k - 1 ==> s[j] != '\n'
    ensures 0 < k < |s| && k < room ==> s[k - 1] == '\n'
    decreases room
  {
    if room == 0 || s == [] then 0
    else if s[0] == '\n' then 1
    else 1 + TakeLen(s[1..], room - 1)
  }

  /** What one fgets/gzgets call can deliver: 1 to 4095 characters, a newline only at the end. */
  predicate IsChunk(c: string)
  {
    0 < |c| < BufferSize && forall j :: 0 <= j < |c| - 1 ==> c[j] != '\n'
  }

  /** The chunk one fgets(buffer, 4096, stream) call returns from the remaining input `s`. */
  function NextChunk(s: string): (c: string)
    requires s != []
    ensures IsChunk(c) && |c| <= |s| && c == s[..|c|]
    ensures |c| < |s| ==> c[|c| - 1] == '\n' || |c| == BufferSize - 1
  {
    s[..TakeLen(s, BufferSize - 1)]
  }

  /**
   * The chunks that successive fgets/gzgets calls return until the end of the
   * input. Every chunk but the last ends with a newline or fills the buffer.
   */
  function Chunks(s: string): (cs: seq<string>)
    ensures forall i :: 0 <= i < |cs| ==> IsChunk(cs[i])
    ensures cs == [] <==> s == []
    ensures forall i :: 0 <= i < |cs| - 1 ==>
      |cs[i]| == BufferSize - 1 || (cs[i] != [] && cs[i][|cs[i]| - 1] == '\n')
    decreases |s|
  {
    if s == [] then []
    else
      var c := NextChunk(s);
      [c] + Chunks(s[|c|..])
  }

  function Concat(cs: seq<string>): string
  {
    if cs == [] then [] else cs[0] + Concat(cs[1..])
  }

  lemma ConcatCons(c: string, rest: seq<string>)
    ensures Concat([c] + rest) == c + Concat(rest)
  {
    assert ([c] + rest)[1..] == rest;
  }

  /** Reading chunk by chunk loses and duplicates nothing: the chunks spell the input. */
  lemma {:induction false} ChunksConcat(s: string)
    ensures Concat(Chunks(s)) == s
    decreases |s|
  {
    if s != [] {
      var c := NextChunk(s);
      var t := s[|c|..];
      ChunksConcat(t);
      ConcatCons(c, Chunks(t));
      assert Chunks(s) == [c] + Chunks(t);
      assert c + t == s;
    }
  }

  /** A file written as newline-terminated lines. */
  function Lines(ls: seq<string>): string
  {
    if ls == [] then [] else ls[0] + "\n" + Lines(ls[1..])
  }

  lemma {:induction false} TakeLenLine(l: string, rest: string, room: nat)
    requires '\n' !in l && |l| < room
    ensures TakeLen(l + "\n" + rest, room) == |l| + 1
    decreases |l|
  {
    var s := l + "\n" + rest;
    if l == [] {
      assert s[0] == '\n';
    } else {
      assert s[0] == l[0] && l[0] != '\n';
      assert s[1..] == l[1..] + "\n" + rest;
      TakeLenLine(l[1..], rest, room - 1);
    }
  }

  /**
   * A line of 4095 characters or more is not read whole: the first call
   * returns its first 4095 characters and reading resumes in the middle of
   * the line. A line of exactly 4095 characters is followed by a chunk
   * holding only its newline, which the trimmer counts as a line of its own.
   */
  lemma LongLineSplit(l: string, rest: string)
    requires '\n' !in l && |l| >= BufferSize - 1
    ensures Chunks(l + "\n" + rest) == [l[..BufferSize - 1]] + Chunks(l[BufferSize - 1..] + "\n" + rest)
    ensures |l| == BufferSize - 1 ==> Chunks(l + "\n" + rest)[1] == "\n"
  {
    var s := l + "\n" + rest;
    var k := TakeLen(s, BufferSize - 1);
    assert forall j :: 0 <= j < BufferSize - 1 ==> s[j] == l[j];
    assert k == BufferSize - 1;
    assert NextChunk(s) == l[..BufferSize - 1];
    assert s[BufferSize - 1..] == l[BufferSize - 1..] + "\n" + rest;
    if |l| == BufferSize - 1 {
      var t := l[BufferSize - 1..] + "\n" + rest;
      assert t == [] + "\n" + rest;
      TakeLenLine([], rest, BufferSize - 1);
      assert NextChunk(t) == "\n";
    }
  }

  /** A short line at the front of the input is read as one chunk, with its newline. */
  lemma ShortLineFirst(l: string, rest: string)
    requires '\n' !in l && |l| < BufferSize - 1
    ensures Chunks(l + "\n" + rest) == [l + "\n"] + Chunks(rest)
  {
    var s := l + "\n" + rest;
    TakeLenLine(l, rest, BufferSize - 1);
    assert NextChunk(s) == l + "\n";
    assert s[|l| + 1..] == rest;
  }

  /**
   * When every line is shorter than 4095 characters and has no newline of its
   * own, each fgets/gzgets call returns exactly one whole line with its newline.
   */
  lemma {:induction false} ShortLinesReadWhole(ls: seq<string>)
    requires forall i :: 0 <= i < |ls| ==> '\n' !in ls[i] && |ls[i]| < BufferSize - 1
    ensures Chunks(Lines(ls)) == seq(|ls|, i requires 0 <= i < |ls| => ls[i] + "\n")
  {
    if ls != [] {
      ShortLineFirst(ls[0], Lines(ls[1..]));
      ShortLinesReadWhole(ls[1..]);
      assert forall i :: 1 <= i < |ls| ==> ls[1..][i - 1] == ls[i];
    }
  }

  /** strlen: the buffer's text ends at its first NUL character. */
  function CText(c: string): string
  {
    if c == [] || c[0] == '\0' then [] else [c[0]] + CText(c[1..])
  }

  /** strlen stops at the first NUL, or at the end of a NUL-free buffer. */
  lemma {:induction false} CTextShape(c: string)
    ensures CText(c) <= c && '\0' !in CText(c)
    ensures |CText(c)| < |c| ==> c[|CText(c)|] == '\0'
    ensures '\0' !in c ==> CText(c) == c
  {
    if c != [] && c[0] != '\0' {
      CTextShape(c[1..]);
      assert c == [c[0]] + c[1..];
    }
  }

  /** Drops one trailing newline, as the trim loops do before measuring the line. */
  function StripNewline(t: string): string
  {
    if |t| > 0 && t[|t| - 1] == '\n' then t[..|t| - 1] else t
  }

  /** The line the trim loops work on: the chunk up to its first NUL, without its newline. */
  function Line(c: string): string
  {
    StripNewline(CText(c))
  }

  /** The line of a chunk never holds a newline, so writing it plus "\n" writes exactly one. */
  lemma LineHasNoNewline(c: string)
    requires IsChunk(c)
    ensures '\n' !in Line(c)
  {
    CTextShape(c);
    var t := CText(c);
    forall j | 0 <= j < |Line(c)|
      ensures Line(c)[j] != '\n'
    {
      assert Line(c)[j] == t[j] == c[j];
    }
  }

  /** A NUL-free chunk read up to its newline is its line plus that newline. */
  lemma LineRoundTrip(c: string)
    requires IsChunk(c) && '\0' !in c && c[|c| - 1] == '\n'
    ensures Line(c) + "\n" == c
  {
    CTextShape(c);
  }

  /** A line shorter than the buffer, without NULs, read with its newline, is given back as it was. */
  lemma ChunkOfLine(l: string)
    requires '\n' !in l && '\0' !in l && |l| < BufferSize - 1
    ensures Line(l + "\n") == l
  {
    var c := l + "\n";
    assert c[..|c| - 1] == l;
    LineRoundTrip(c);
  }

  /**
   * A text file of lines shorter than the buffer, without NULs, is read one
   * chunk per line, and each chunk's line is the line as written.
   */
  lemma FileOfShortLines(ls: seq<string>)
    requires forall i :: 0 <= i < |ls| ==> '\n' !in ls[i] && '\0' !in ls[i] && |ls[i]| < BufferSize - 1
    ensures |Chunks(Lines(ls))| == |ls|
    ensures forall i :: 0 <= i < |ls| ==> Line(Chunks(Lines(ls))[i]) == ls[i]
  {
    ShortLinesReadWhole(ls);
    forall i | 0 <= i < |ls|
      ensures Line(Chunks(Lines(ls))[i]) == ls[i]
    {
      assert Chunks(Lines(ls))[i] == ls[i] + "\n";
      ChunkOfLine(ls[i]);
    }
  }

  /** A line the reader returns whole: no newline, no NUL, shorter than the buffer. */
  predicate PlainLine(l: string)
  {
    '\n' !in l && '\0' !in l && |l| < BufferSize - 1
  }

  /** A file of two plain lines is read as those two lines, each with its newline. */
  lemma TwoLines(id: string, line: string)
    requires PlainLine(id) && PlainLine(line)
    ensures Chunks(Lines([id, line])) == [id + "\n", line + "\n"]
  {
    var ls := [id, line];
    ShortLinesReadWhole(ls);
    var read := Chunks(Lines(ls));
    assert |read| == 2 && read[0] == id + "\n" && read[1] == line + "\n";
  }
}
