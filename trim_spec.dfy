/**
 * What the trim loops write, line by line. Line number i (counted from 0) is
 * a sequence or quality line when i % 4 is 1 or 3; those lose N5 characters at
 * the front (5' end) and N3 at the back (3' end). Identifier and separator
 * lines pass through. Every line written gets one "\n".
 */
module TrimSpec {
  import opened Wrappers
  import opened LineReader

  /** The trim counts N5 and N3 and the --keep flag. */
  datatype Policy = Policy(n5: nat, n3: nat, keep: bool)

  /** Whether the 5' and 3' side files were opened (a null FILE* or gzFile is false). */
  datatype SideSinks = SideSinks(has5: bool, has3: bool)

  /** Everything the trimmer writes: one entry per written line, "\n" included. */
  datatype Outputs = Outputs(primary: seq<string>, side5: seq<string>, side3: seq<string>)

  /** Sequence (i % 4 == 1) and quality (i % 4 == 3) lines are the ones trimmed. */
  predicate IsReadLine(i: nat)
  {
    i % 4 == 1 || i % 4 == 3
  }

  /** The 5' side file is written only with --keep, an open file and N5 > 0. */
  predicate Active5(p: Policy, s: SideSinks)
  {
    p.keep && s.has5 && p.n5 > 0
  }

  /** The 3' side file is written only with --keep, an open file and N3 > 0. */
  predicate Active3(p: Policy, s: SideSinks)
  {
    p.keep && s.has3 && p.n3 > 0
  }

  /**
   * The part of a sequence or quality line that stays: the characters from
   * n5 on, n3 short of the end; empty when the line is not longer than n5 + n3.
   */
  function Kept(line: string, n5: nat, n3: nat): string
  {
    var trimmedLen := if |line| > n3 + n5 then |line| - n3 - n5 else 0;
    if trimmedLen > 0 then line[n5 .. n5 + trimmedLen] else []
  }

  /** What goes to the 5' side file: the first min(len, n5) characters. */
  function Side5(line: string, n5: nat): string
  {
    line[..Min(|line|, n5)]
  }

  /** What goes to the 3' side file: the last min(len, n3) characters. */
  function Side3(line: string, n3: nat): string
  {
    var trim3Start := if |line| > n3 then |line| - n3 else 0;
    line[trim3Start..]
  }

  /**
   * The kept part is max(len - n5 - n3, 0) characters long and is the line
   * read from position n5 on: never negative-length, never out of bounds.
   */
  lemma KeptShape(line: string, n5: nat, n3: nat)
    ensures var r := Kept(line, n5, n3);
      |r| == (if |line| > n5 + n3 then |line| - n5 - n3 else 0) &&
      forall i :: 0 <= i < |r| ==> r[i] == line[n5 + i]
  {
  }

  /** The 5' piece is the prefix of length min(len, n5); the 3' piece the suffix of length min(len, n3). */
  lemma SideShape(line: string, n5: nat, n3: nat)
    ensures |Side5(line, n5)| == Min(|line|, n5) && Side5(line, n5) <= line
    ensures |Side3(line, n3)| == Min(|line|, n3) && Side3(line, n3) == line[|line| - Min(|line|, n3)..]
  {
  }

  /**
   * The three pieces spell the line again exactly when they do not overlap:
   * the line is empty, at least n5 + n3 long, or one of the counts is 0.
   */
  lemma ReconstructIff(line: string, n5: nat, n3: nat)
    ensures Side5(line, n5) + Kept(line, n5, n3) + Side3(line, n3) == line
        <==> |line| == 0 || |line| >= n5 + n3 || n5 == 0 || n3 == 0
  {
    var a, b, c := Side5(line, n5), Kept(line, n5, n3), Side3(line, n3);
    if |line| == 0 || |line| >= n5 + n3 || n5 == 0 || n3 == 0 {
      if |line| >= n5 + n3 {
        assert a == line[..n5] && c == line[|line| - n3..];
        assert b == line[n5..|line| - n3];
        assert line[..n5] + line[n5..|line| - n3] == line[..|line| - n3];
      } else if n5 == 0 {
        assert a == [] && b == [] && c == line;
      } else if n3 == 0 {
        assert c == [] && b == [] && a == line;
      }
    } else {
      assert |a + b + c| > |line|;
    }
  }

  /** The line written to the primary output for line number i. */
  function PrimaryLine(i: nat, line: string, p: Policy): string
  {
    (if IsReadLine(i) then Kept(line, p.n5, p.n3) else line) + "\n"
  }

  /** The line written to the 5' side file for line number i. */
  function Side5Line(i: nat, line: string, p: Policy): string
  {
    (if IsReadLine(i) then Side5(line, p.n5) else line) + "\n"
  }

  /** The line written to the 3' side file for line number i. */
  function Side3Line(i: nat, line: string, p: Policy): string
  {
    (if IsReadLine(i) then Side3(line, p.n3) else line) + "\n"
  }

  /**
   * Everything written after the chunks `cs` have been read, one line per
   * chunk in the primary output and in each active side file.
   */
  function Trimmed(cs: seq<string>, p: Policy, s: SideSinks): (o: Outputs)
    ensures |o.primary| == |cs|
    ensures |o.side5| == if Active5(p, s) then |cs| else 0
    ensures |o.side3| == if Active3(p, s) then |cs| else 0
    decreases |cs|
  {
    if cs == [] then Outputs([], [], [])
    else
      var i := |cs| - 1;
      var o := Trimmed(cs[..i], p, s);
      var line := Line(cs[i]);
      Outputs(o.primary + [PrimaryLine(i, line, p)],
              if Active5(p, s) then o.side5 + [Side5Line(i, line, p)] else o.side5,
              if Active3(p, s) then o.side3 + [Side3Line(i, line, p)] else o.side3)
  }

  /** Line i of every sink is the one written for chunk i. */
  lemma {:induction false} TrimmedAt(cs: seq<string>, p: Policy, s: SideSinks, i: nat)
    requires i < |cs|
    ensures Trimmed(cs, p, s).primary[i] == PrimaryLine(i, Line(cs[i]), p)
    ensures Active5(p, s) ==> Trimmed(cs, p, s).side5[i] == Side5Line(i, Line(cs[i]), p)
    ensures Active3(p, s) ==> Trimmed(cs, p, s).side3[i] == Side3Line(i, Line(cs[i]), p)
    decreases |cs|
  {
    if i < |cs| - 1 {
      var init := cs[..|cs| - 1];
      TrimmedAt(init, p, s, i);
      assert init[i] == cs[i];
    }
  }

  /** The side files see only the policy's effect: which of them are active. */
  lemma {:induction false} TrimmedDependsOnActiveSides(cs: seq<string>, p: Policy, s: SideSinks, s': SideSinks)
    requires Active5(p, s) == Active5(p, s') && Active3(p, s) == Active3(p, s')
    ensures Trimmed(cs, p, s) == Trimmed(cs, p, s')
    decreases |cs|
  {
    if cs != [] {
      TrimmedDependsOnActiveSides(cs[..|cs| - 1], p, s, s');
    }
  }

  /** The primary output does not depend on which side files are open. */
  lemma {:induction false} PrimaryIndependentOfSinks(cs: seq<string>, p: Policy, s: SideSinks, s': SideSinks)
    ensures Trimmed(cs, p, s).primary == Trimmed(cs, p, s').primary
    decreases |cs|
  {
    if cs != [] {
      PrimaryIndependentOfSinks(cs[..|cs| - 1], p, s, s');
    }
  }

  /**
   * Identifier and separator lines (i % 4 in {0, 2}) reach the primary output,
   * and every active side file, as read, with one newline.
   */
  lemma PassThroughLines(cs: seq<string>, p: Policy, s: SideSinks, i: nat)
    requires i < |cs| && (i % 4 == 0 || i % 4 == 2)
    ensures Trimmed(cs, p, s).primary[i] == Line(cs[i]) + "\n"
    ensures Active5(p, s) ==> Trimmed(cs, p, s).side5[i] == Line(cs[i]) + "\n"
    ensures Active3(p, s) ==> Trimmed(cs, p, s).side3[i] == Line(cs[i]) + "\n"
  {
    TrimmedAt(cs, p, s, i);
  }

  /**
   * A sequence or quality line of length L comes out with max(L - n5 - n3, 0)
   * characters, those at positions n5, n5 + 1, ... of the line.
   */
  lemma ReadLineKept(cs: seq<string>, p: Policy, s: SideSinks, i: nat)
    requires i < |cs| && IsReadLine(i)
    ensures var out, line := Trimmed(cs, p, s).primary[i], Line(cs[i]);
      |out| == 1 + (if |line| > p.n5 + p.n3 then |line| - p.n5 - p.n3 else 0) &&
      out[|out| - 1] == '\n' &&
      forall j :: 0 <= j < |out| - 1 ==> out[j] == line[p.n5 + j]
  {
    TrimmedAt(cs, p, s, i);
    var line := Line(cs[i]);
    var kept := Kept(line, p.n5, p.n3);
    var out := kept + "\n";
    assert Trimmed(cs, p, s).primary[i] == out;
    forall j | 0 <= j < |out| - 1
      ensures out[j] == line[p.n5 + j]
    {
      assert out[j] == kept[j];
    }
  }

  /** A written line: text without a newline, then exactly one newline. */
  predicate IsWrittenLine(w: string)
  {
    |w| > 0 && w[|w| - 1] == '\n' && '\n' !in w[..|w| - 1]
  }

  /** The lines written for a newline-free line each end in exactly one newline. */
  lemma PieceLinesWritten(i: nat, line: string, p: Policy)
    requires '\n' !in line
    ensures IsWrittenLine(PrimaryLine(i, line, p))
    ensures IsWrittenLine(Side5Line(i, line, p)) && IsWrittenLine(Side3Line(i, line, p))
  {
    if IsReadLine(i) {
      if |line| > p.n5 + p.n3 {
        assert Kept(line, p.n5, p.n3) == line[p.n5..|line| - p.n3];
        NoNewlineIn(line, p.n5, |line| - p.n3);
      } else {
        assert Kept(line, p.n5, p.n3) == line[0..0];
        NoNewlineIn(line, 0, 0);
      }
      SideShape(line, p.n5, p.n3);
      NoNewlineIn(line, 0, Min(|line|, p.n5));
      NoNewlineIn(line, |line| - Min(|line|, p.n3), |line|);
    } else {
      assert line[0..|line|] == line;
      NoNewlineIn(line, 0, |line|);
    }
  }

  /** Every line written for chunk i, to any sink, ends in exactly one newline. */
  lemma WrittenLinesAt(cs: seq<string>, p: Policy, s: SideSinks, i: nat)
    requires i < |cs| && IsChunk(cs[i])
    ensures IsWrittenLine(Trimmed(cs, p, s).primary[i])
    ensures Active5(p, s) ==> IsWrittenLine(Trimmed(cs, p, s).side5[i])
    ensures Active3(p, s) ==> IsWrittenLine(Trimmed(cs, p, s).side3[i])
  {
    TrimmedAt(cs, p, s, i);
    LineHasNoNewline(cs[i]);
    PieceLinesWritten(i, Line(cs[i]), p);
  }

  /**
   * One primary line per chunk read, and every line written to any sink ends
   * in exactly one newline, whether or not the chunk had one.
   */
  lemma EveryWrittenLineTerminated(cs: seq<string>, p: Policy, s: SideSinks)
    requires forall i :: 0 <= i < |cs| ==> IsChunk(cs[i])
    ensures |Trimmed(cs, p, s).primary| == |cs|
    ensures forall i :: 0 <= i < |cs| ==> IsWrittenLine(Trimmed(cs, p, s).primary[i])
    ensures forall i :: 0 <= i < |Trimmed(cs, p, s).side5| ==> IsWrittenLine(Trimmed(cs, p, s).side5[i])
    ensures forall i :: 0 <= i < |Trimmed(cs, p, s).side3| ==> IsWrittenLine(Trimmed(cs, p, s).side3[i])
  {
    forall i | 0 <= i < |cs|
      ensures IsWrittenLine(Trimmed(cs, p, s).primary[i])
      ensures Active5(p, s) ==> IsWrittenLine(Trimmed(cs, p, s).side5[i])
      ensures Active3(p, s) ==> IsWrittenLine(Trimmed(cs, p, s).side3[i])
    {
      WrittenLinesAt(cs, p, s, i);
    }
  }

  /** A piece cut out of a newline-free line holds no newline, so piece + "\n" is a written line. */
  lemma NoNewlineIn(line: string, lo: nat, hi: nat)
    requires '\n' !in line && lo <= hi <= |line|
    ensures IsWrittenLine(line[lo..hi] + "\n")
  {
    var piece := line[lo..hi];
    assert (piece + "\n")[..|piece|] == piece;
    assert forall j :: 0 <= j < |piece| ==> piece[j] == line[lo + j];
  }

  /**
   * With --keep and both side files active, the 5' side line, the primary
   * line and the 3' side line of a sequence or quality line at least n5 + n3
   * long spell that line again once their newlines are removed.
   */
  lemma SidesReconstruct(cs: seq<string>, p: Policy, s: SideSinks, i: nat)
    requires i < |cs| && IsReadLine(i) && Active5(p, s) && Active3(p, s)
    requires |Line(cs[i])| >= p.n5 + p.n3
    ensures var o := Trimmed(cs, p, s);
      StripNewline(o.side5[i]) + StripNewline(o.primary[i]) + StripNewline(o.side3[i]) == Line(cs[i])
  {
    TrimmedAt(cs, p, s, i);
    var line := Line(cs[i]);
    ReconstructIff(line, p.n5, p.n3);
    assert StripNewline(Side5(line, p.n5) + "\n") == Side5(line, p.n5);
    assert StripNewline(Kept(line, p.n5, p.n3) + "\n") == Kept(line, p.n5, p.n3);
    assert StripNewline(Side3(line, p.n3) + "\n") == Side3(line, p.n3);
  }

  /** Without --keep, without the side file, or with that side's count 0, the side file receives nothing. */
  lemma SideSinksGated(cs: seq<string>, p: Policy, s: SideSinks)
    ensures !p.keep || !s.has5 || p.n5 == 0 ==> Trimmed(cs, p, s).side5 == []
    ensures !p.keep || !s.has3 || p.n3 == 0 ==> Trimmed(cs, p, s).side3 == []
  {
  }
}
