/**
 * Worked cases of the trimming transform on a whole (short) file, read
 * through the same chunking the trim loops use.
 */
module Scenarios {
  import opened LineReader
  import opened TrimSpec

  /**
   * A file holding an identifier line and a sequence line a + k + b, cut with
   * N5 = |a|, N3 = |b| and keep, and cut short after its second line: the
   * identifier goes to all three outputs, k to the primary output, a to the
   * 5' side file and b to the 3' side file (for NNNNACGTACGTNNNN with 4 and 4:
   * ACGTACGT, NNNN and NNNN).
   */
  lemma TrimBothEnds(id: string, a: string, k: string, b: string)
    requires PlainLine(id) && PlainLine(a + k + b) && |a| > 0 && |b| > 0
    ensures Trimmed(Chunks(Lines([id, a + k + b])), Policy(|a|, |b|, true), SideSinks(true, true))
      == Outputs([id + "\n", k + "\n"], [id + "\n", a + "\n"], [id + "\n", b + "\n"])
  {
    var line := a + k + b;
    TwoLines(id, line);
    var cs := [id + "\n", line + "\n"];
    var p := Policy(|a|, |b|, true);
    var s := SideSinks(true, true);
    ChunkOfLine(id);
    ChunkOfLine(line);
    TrimmedAt(cs, p, s, 0);
    TrimmedAt(cs, p, s, 1);
    KeptShape(line, |a|, |b|);
    assert Kept(line, |a|, |b|) == k;
    assert Side5(line, |a|) == a;
    assert Side3(line, |b|) == b;
    var o := Trimmed(cs, p, s);
    assert o.primary == [id + "\n", k + "\n"];
    assert o.side5 == [id + "\n", a + "\n"];
    assert o.side3 == [id + "\n", b + "\n"];
  }

  /**
   * N5 = 0 and N3 at least the length of the sequence line (5 on ACG, say):
   * the primary output gets an empty line, the 3' side file the whole line,
   * and no 5' side file is written.
   */
  lemma TrimMoreThanLine(id: string, line: string, n3: nat)
    requires PlainLine(id) && PlainLine(line) && |line| <= n3 && n3 > 0
    ensures Trimmed(Chunks(Lines([id, line])), Policy(0, n3, true), SideSinks(true, true))
      == Outputs([id + "\n", "\n"], [], [id + "\n", line + "\n"])
  {
    TwoLines(id, line);
    var cs := [id + "\n", line + "\n"];
    var p := Policy(0, n3, true);
    var s := SideSinks(true, true);
    ChunkOfLine(id);
    ChunkOfLine(line);
    TrimmedAt(cs, p, s, 0);
    TrimmedAt(cs, p, s, 1);
    assert Kept(line, 0, n3) == [];
    assert Side3(line, n3) == line;
    assert IsReadLine(1) && PrimaryLine(1, line, p) == [] + "\n" == "\n";
    var o := Trimmed(cs, p, s);
    assert o.primary == [id + "\n", "\n"];
    assert o.side3 == [id + "\n", line + "\n"];
  }
}
