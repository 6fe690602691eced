/**
 * The two trim loops: trimNonGzippedFastq (plain files) and trimGzippedFastq
 * (gzip files). Each reads chunk after chunk, keeps a line counter, cuts the
 * line and appends to up to three sinks. A sink is the sequence of lines
 * written to it so far.
 */
module TrimEngine {
  import opened Wrappers
  import opened LineReader
  import opened TrimSpec

  /** Reading one more chunk appends that chunk's lines to the sinks. */
  lemma TrimmedSnoc(read: seq<string>, chunk: string, p: Policy, s: SideSinks)
    ensures Trimmed(read + [chunk], p, s) ==
      Outputs(Trimmed(read, p, s).primary + [PrimaryLine(|read|, Line(chunk), p)],
              if Active5(p, s) then Trimmed(read, p, s).side5 + [Side5Line(|read|, Line(chunk), p)]
              else Trimmed(read, p, s).side5,
              if Active3(p, s) then Trimmed(read, p, s).side3 + [Side3Line(|read|, Line(chunk), p)]
              else Trimmed(read, p, s).side3)
  {
    assert (read + [chunk])[..|read|] == read;
  }

  /**
   * One pass of the plain-file loop body: the line with number i (the chunk
   * after strlen and the newline strip) appended to each sink it goes to.
   * Side lengths are clamped to the line.
   */
  method WriteLine(i: nat, buffer: string, sinks: SideSinks, n3: nat, n5: nat, keep: bool,
                   out: seq<string>, out3: seq<string>, out5: seq<string>)
    returns (out': seq<string>, out3': seq<string>, out5': seq<string>)
    ensures out' == out + [PrimaryLine(i, buffer, Policy(n5, n3, keep))]
    ensures out5' == if Active5(Policy(n5, n3, keep), sinks)
                     then out5 + [Side5Line(i, buffer, Policy(n5, n3, keep))] else out5
    ensures out3' == if Active3(Policy(n5, n3, keep), sinks)
                     then out3 + [Side3Line(i, buffer, Policy(n5, n3, keep))] else out3
  {
    out', out3', out5' := out, out3, out5;
    var len := |buffer|;
    if i % 4 == 1 || i % 4 == 3 {
      var trimmedLen := if len > n3 + n5 then len - n3 - n5 else 0;
      if keep {
        if sinks.has5 && n5 > 0 {
          out5' := out5' + [buffer[..Min(len, n5)] + "\n"];
        }
        if sinks.has3 && n3 > 0 {
          var trim3Start := if len > n3 then len - n3 else 0;
          assert buffer[trim3Start..] == Side3(buffer, n3);
          out3' := out3' + [buffer[trim3Start..] + "\n"];
        }
      }
      assert (if trimmedLen > 0 then buffer[n5 .. n5 + trimmedLen] else "") == Kept(buffer, n5, n3);
      out' := out' + [(if trimmedLen > 0 then buffer[n5 .. n5 + trimmedLen] else "") + "\n"];
    } else {
      out' := out' + [buffer + "\n"];
      if keep {
        if sinks.has5 && n5 > 0 {
          out5' := out5' + [buffer + "\n"];
        }
        if sinks.has3 && n3 > 0 {
          out3' := out3' + [buffer + "\n"];
        }
      }
    }
  }

  /**
   * The plain-file loop. Its sinks end up holding exactly what the line-by-line
   * specification says for the chunks fgets returns.
   */
  method TrimNonGzipped(chunks: seq<string>, sinks: SideSinks, n3: nat, n5: nat, keep: bool)
    returns (out: seq<string>, out3: seq<string>, out5: seq<string>)
    ensures Outputs(out, out5, out3) == Trimmed(chunks, Policy(n5, n3, keep), sinks)
  {
    ghost var p := Policy(n5, n3, keep);
    out, out3, out5 := [], [], [];
    var lineCount := 0;
    while lineCount < |chunks|
      invariant lineCount <= |chunks|
      invariant Outputs(out, out5, out3) == Trimmed(chunks[..lineCount], p, sinks)
    {
      var chunk := chunks[lineCount];
      var buffer := Line(chunk);  // strlen, then drop one trailing newline
      out, out3, out5 := WriteLine(lineCount, buffer, sinks, n3, n5, keep, out, out3, out5);
      TrimmedSnoc(chunks[..lineCount], chunk, p, sinks);
      assert chunks[..lineCount + 1] == chunks[..lineCount] + [chunk];
      lineCount := lineCount + 1;
    }
    assert chunks[..lineCount] == chunks;
  }

  /**
   * The reads trimGzippedFastq makes for the side files while handling line
   * number i stay inside that line: it writes n5 bytes from the start of the
   * buffer and n3 bytes ending at the line's end, clamping neither.
   */
  predicate GzLineReadsInBounds(i: nat, line: string, p: Policy, s: SideSinks)
  {
    IsReadLine(i) ==>
      (Active5(p, s) ==> p.n5 <= |line|) && (Active3(p, s) ==> p.n3 <= |line|)
  }

  /** The side reads stay inside their lines for every chunk of `cs`. */
  predicate GzSideReadsInBounds(cs: seq<string>, p: Policy, s: SideSinks)
  {
    forall i {:trigger GzLineReadsInBounds(i, Line(cs[i]), p, s)} ::
      0 <= i < |cs| ==> GzLineReadsInBounds(i, Line(cs[i]), p, s)
  }

  /**
   * One pass of the gzip loop body, as written: the side writes take n5 bytes
   * from the buffer start and n3 bytes from buffer + len - n3, unclamped.
   * Where those reads stay inside the line it writes what WriteLine writes.
   */
  method GzWriteLine(i: nat, buffer: string, sinks: SideSinks, n3: nat, n5: nat, keep: bool,
                     out: seq<string>, out3: seq<string>, out5: seq<string>)
    returns (out': seq<string>, out3': seq<string>, out5': seq<string>)
    requires GzLineReadsInBounds(i, buffer, Policy(n5, n3, keep), sinks)
    ensures out' == out + [PrimaryLine(i, buffer, Policy(n5, n3, keep))]
    ensures out5' == if Active5(Policy(n5, n3, keep), sinks)
                     then out5 + [Side5Line(i, buffer, Policy(n5, n3, keep))] else out5
    ensures out3' == if Active3(Policy(n5, n3, keep), sinks)
                     then out3 + [Side3Line(i, buffer, Policy(n5, n3, keep))] else out3
  {
    out', out3', out5' := out, out3, out5;
    var len := |buffer|;
    if i % 4 == 1 || i % 4 == 3 {
      var trimmedLen := if len > n3 + n5 then len - n3 - n5 else 0;
      assert (if trimmedLen > 0 then buffer[n5 .. n5 + trimmedLen] else "") == Kept(buffer, n5, n3);
      out' := out' + [(if trimmedLen > 0 then buffer[n5 .. n5 + trimmedLen] else "") + "\n"];
      if keep {
        if sinks.has5 && n5 > 0 {
          assert buffer[..n5] == Side5(buffer, n5);
          out5' := out5' + [buffer[..n5] + "\n"];
        }
        if sinks.has3 && n3 > 0 {
          assert buffer[len - n3 ..] == Side3(buffer, n3);
          out3' := out3' + [buffer[len - n3 ..] + "\n"];
        }
      }
    } else {
      out' := out' + [buffer + "\n"];
      if keep {
        if sinks.has5 && n5 > 0 {
          out5' := out5' + [buffer + "\n"];
        }
        if sinks.has3 && n3 > 0 {
          out3' := out3' + [buffer + "\n"];
        }
      }
    }
  }

  /** The bounds requirement at one line. */
  lemma GzSideReadsInBoundsAt(cs: seq<string>, p: Policy, s: SideSinks, i: nat)
    requires GzSideReadsInBounds(cs, p, s) && i < |cs|
    ensures GzLineReadsInBounds(i, Line(cs[i]), p, s)
  {
  }

  /**
   * The gzip loop. Where every side read stays inside its line, its sinks
   * hold what the plain loop's sinks hold.
   */
  method TrimGzipped(chunks: seq<string>, sinks: SideSinks, n3: nat, n5: nat, keep: bool)
    returns (out: seq<string>, out3: seq<string>, out5: seq<string>)
    requires GzSideReadsInBounds(chunks, Policy(n5, n3, keep), sinks)
    ensures Outputs(out, out5, out3) == Trimmed(chunks, Policy(n5, n3, keep), sinks)
  {
    ghost var p := Policy(n5, n3, keep);
    out, out3, out5 := [], [], [];
    var lineCount := 0;
    while lineCount < |chunks|
      invariant lineCount <= |chunks|
      invariant Outputs(out, out5, out3) == Trimmed(chunks[..lineCount], p, sinks)
    {
      var chunk := chunks[lineCount];
      var buffer := Line(chunk);  // strlen, then drop one trailing newline
      GzSideReadsInBoundsAt(chunks, p, sinks, lineCount);
      out, out3, out5 := GzWriteLine(lineCount, buffer, sinks, n3, n5, keep, out, out3, out5);
      TrimmedSnoc(chunks[..lineCount], chunk, p, sinks);
      assert chunks[..lineCount + 1] == chunks[..lineCount] + [chunk];
      lineCount := lineCount + 1;
    }
    assert chunks[..lineCount] == chunks;
  }

  /** The two-line file "@r\nACG\n" is read as two chunks, one per line. */
  lemma TwoLineFile()
    ensures Chunks("@r\nACG\n") == ["@r\n", "ACG\n"]
    ensures Line("@r\n") == "@r" && Line("ACG\n") == "ACG"
  {
    TwoLines("@r", "ACG");
    assert Lines(["@r", "ACG"]) == "@r\nACG\n" by {
      assert ["@r", "ACG"][1..] == ["ACG"] && ["ACG"][1..] == [];
    }
    assert "@r" + "\n" == "@r\n" && "ACG" + "\n" == "ACG\n";
    ChunkOfLine("@r");
    ChunkOfLine("ACG");
  }

  /**
   * In that file the sequence line "ACG" is shorter than N5 = 4: the gzip
   * loop's 5' side write reads 4 bytes of a 3-byte line, past its end.
   */
  lemma GzSide5ReadPastLine()
    ensures !GzSideReadsInBounds(Chunks("@r\nACG\n"), Policy(4, 0, true), SideSinks(true, false))
  {
    TwoLineFile();
    var cs := Chunks("@r\nACG\n");
    assert IsReadLine(1) && cs[1] == "ACG\n";
    assert !GzLineReadsInBounds(1, Line(cs[1]), Policy(4, 0, true), SideSinks(true, false));
  }

  /**
   * The first bytes of the gzip loop's buffer after the newline strip, for a
   * chunk holding no NUL: the line, the NUL that replaced its newline (when it
   * had one) and the NUL gzgets stored after the chunk. Bytes past these, up
   * to the end of the 4096-byte array, are left over from earlier reads or
   * were never written, so their values are indeterminate; a read past the
   * array is undefined.
   */
  function GzBufferBytes(chunk: string): (b: string)
    requires '\0' !in chunk
    ensures |b| == |chunk| + 1 && Line(chunk) <= b
    ensures forall j :: |Line(chunk)| <= j < |b| ==> b[j] == '\0'
  {
    CTextShape(chunk);
    Line(chunk) + (if chunk != [] && chunk[|chunk| - 1] == '\n' then "\0\0" else "\0")
  }

  /**
   * With N5 = 4 on the line "ACG" of that file, the gzip loop's 5' write
   * takes the line and one NUL terminator, so its 5' side file gets
   * "ACG\0\n" where the plain loop's gets "ACG\n".
   */
  lemma GzSide5WritesNul()
    ensures GzBufferBytes("ACG\n")[..4] + "\n" == "ACG\0\n"
    ensures Side5Line(1, Line("ACG\n"), Policy(4, 0, true)) == "ACG\n"
  {
    TwoLineFile();
    assert GzBufferBytes("ACG\n") == "ACG" + "\0\0";
  }

  /**
   * The same file with N3 = 4: the 3' side write starts at buffer + 3 - 4,
   * one byte before the buffer.
   */
  lemma GzSide3ReadBeforeLine()
    ensures !GzSideReadsInBounds(Chunks("@r\nACG\n"), Policy(0, 4, true), SideSinks(false, true))
  {
    TwoLineFile();
    var cs := Chunks("@r\nACG\n");
    assert IsReadLine(1) && cs[1] == "ACG\n";
    assert !GzLineReadsInBounds(1, Line(cs[1]), Policy(0, 4, true), SideSinks(false, true));
  }
}
