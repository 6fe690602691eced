/**
 * processFile: the paths one input file gives rise to, the side files each
 * variant opens, and what the file's processing produces once the files it
 * needs could be opened.
 */
module FileTask {
  import opened Wrappers
  import opened LineReader
  import opened FormatDetect
  import opened TrimSpec
  import opened TrimEngine

  datatype Format = Plain | Gzipped

  /** `dir + "/" + name`, the way every path in the tool is built. */
  function JoinPath(dir: string, name: string): (r: string)
    ensures |r| == |dir| + 1 + |name|
    ensures r[..|dir|] == dir && r[|dir|] == '/' && r[|dir| + 1..] == name
  {
    dir + "/" + name
  }

  function InputPath(inDir: string, name: string): string
  {
    JoinPath(inDir, name)
  }

  function OutputPath(outDir: string, name: string): string
  {
    JoinPath(outDir, name)
  }

  /** The side-file directories main and trimFastqFilesInDirectory create. */
  function Dir3(outDir: string): string
  {
    outDir + "/3-prime"
  }

  function Dir5(outDir: string): string
  {
    outDir + "/5-prime"
  }

  function Trim3Path(outDir: string, name: string): string
  {
    outDir + "/3-prime/trim3_" + name
  }

  function Trim5Path(outDir: string, name: string): string
  {
    outDir + "/5-prime/trim5_" + name
  }

  /** Within one directory, different file names give different paths, and equal names equal ones. */
  lemma JoinPathInjective(dir: string, a: string, b: string)
    ensures JoinPath(dir, a) == JoinPath(dir, b) <==> a == b
  {
    if JoinPath(dir, a) == JoinPath(dir, b) {
      assert a == JoinPath(dir, a)[|dir| + 1..] == JoinPath(dir, b)[|dir| + 1..] == b;
    }
  }

  /**
   * The same file name joined to two directory strings gives the same path
   * exactly when the strings are equal: an input file is never its own
   * output unless the two directory arguments are spelled the same.
   */
  lemma InputOutputDistinct(inDir: string, outDir: string, name: string)
    ensures InputPath(inDir, name) == OutputPath(outDir, name) <==> inDir == outDir
  {
    if InputPath(inDir, name) == OutputPath(outDir, name) {
      assert |inDir| == |outDir|;
      assert inDir == InputPath(inDir, name)[..|inDir|] == OutputPath(outDir, name)[..|outDir|] == outDir;
    }
  }

  /** The primary output and the two side files of one input are three different paths. */
  lemma TaskPathsDistinct(outDir: string, name: string)
    ensures OutputPath(outDir, name) != Trim3Path(outDir, name)
    ensures OutputPath(outDir, name) != Trim5Path(outDir, name)
    ensures Trim3Path(outDir, name) != Trim5Path(outDir, name)
  {
    assert |OutputPath(outDir, name)| == |outDir| + 1 + |name|;
    assert |Trim3Path(outDir, name)| == |outDir| + 15 + |name|;
    assert |Trim5Path(outDir, name)| == |outDir| + 15 + |name|;
    assert Trim3Path(outDir, name)[|outDir| + 1] == '3';
    assert Trim5Path(outDir, name)[|outDir| + 1] == '5';
  }

  /**
   * A side file of any name m is never the output path of a name n holding
   * no '/', as every name readdir reports: the output lies directly in the
   * output directory, the side file one level below it.
   */
  lemma SideFilesNotOutputs(outDir: string, m: string, n: string)
    requires '/' !in n
    ensures Trim3Path(outDir, m) != OutputPath(outDir, n)
    ensures Trim5Path(outDir, m) != OutputPath(outDir, n)
  {
    var o := OutputPath(outDir, n);
    assert o[|outDir| + 1..] == n;
    assert Trim3Path(outDir, m)[|outDir| + 8] == '/' && Trim5Path(outDir, m)[|outDir| + 8] == '/';
    if |n| > 7 {
      assert o[|outDir| + 8] == n[7] != '/';
    }
  }

  /** Each side file lies in its side directory, under the input's name with a prefix. */
  lemma SidePathsInSideDirs(outDir: string, name: string)
    ensures Trim3Path(outDir, name) == JoinPath(Dir3(outDir), "trim3_" + name)
    ensures Trim5Path(outDir, name) == JoinPath(Dir5(outDir), "trim5_" + name)
  {
  }

  /**
   * The side files processFile opens. The gzip branch opens a side file only
   * when keep is set and its trim count is positive; the plain branch opens
   * both whenever keep is set.
   */
  function SideFilesOpened(fmt: Format, p: Policy): (s: SideSinks)
    ensures s.has5 || s.has3 ==> p.keep
    ensures fmt == Gzipped ==> (s.has5 <==> p.keep && p.n5 > 0) && (s.has3 <==> p.keep && p.n3 > 0)
    ensures fmt == Plain ==> s.has5 == s.has3 == p.keep
  {
    match fmt
    case Gzipped => SideSinks(p.keep && p.n5 > 0, p.keep && p.n3 > 0)
    case Plain => SideSinks(p.keep, p.keep)
  }

  /** Whichever branch runs, a side file is written to iff keep is set and its trim count is positive. */
  lemma SideFilesWrittenAgree(fmt: Format, p: Policy)
    ensures Active5(p, SideFilesOpened(fmt, p)) <==> p.keep && p.n5 > 0
    ensures Active3(p, SideFilesOpened(fmt, p)) <==> p.keep && p.n3 > 0
  {
  }

  datatype SideDirs = SideDirs(dir5: bool, dir3: bool)

  /** The side directories main creates: only with keep, and only for a positive trim count. */
  function SideDirsCreated(p: Policy): (d: SideDirs)
    ensures d.dir5 <==> p.keep && p.n5 > 0
    ensures d.dir3 <==> p.keep && p.n3 > 0
  {
    SideDirs(p.keep && p.n5 > 0, p.keep && p.n3 > 0)
  }

  /** Every side file that receives lines lies in a directory main created. */
  lemma WrittenSideFilesHaveDirs(fmt: Format, p: Policy)
    ensures Active5(p, SideFilesOpened(fmt, p)) ==> SideDirsCreated(p).dir5
    ensures Active3(p, SideFilesOpened(fmt, p)) ==> SideDirsCreated(p).dir3
  {
  }

  /**
   * With keep and N5 = 0 the plain branch still opens a 5' side file, in a
   * directory main did not create, and then writes nothing to it.
   */
  lemma PlainOpensIdleSideFile(p: Policy)
    requires p.keep && p.n5 == 0
    ensures SideFilesOpened(Plain, p).has5 && !SideDirsCreated(p).dir5
    ensures !Active5(p, SideFilesOpened(Plain, p)) && !SideFilesOpened(Gzipped, p).has5
  {
  }

  /** Which of the files processFile asks for could be opened: the file system's answer. */
  datatype Opens = Opens(input: bool, output: bool, side5: bool, side3: bool)

  datatype Outcome = Processed(fmt: Format, outputs: Outputs) | Failed(fmt: Format)

  /**
   * The condition under which processFile's outputs are defined by the
   * model: a gzip input's side reads (with every side file it asks for)
   * stay inside their lines. A plain input is always covered.
   */
  predicate Modelled(probe: Option<seq<byte>>, text: string, p: Policy)
  {
    IsLikelyGzipped(probe) ==> GzSideReadsInBounds(Chunks(text), p, SideFilesOpened(Gzipped, p))
  }

  /**
   * processFile for an input whose first bytes are `probe` and whose text
   * (after decompression, for a gzip file) is `text`. The trim runs only
   * when both the input and the output could be opened; a side file takes
   * lines only when it was both asked for and opened. A gzip input is
   * covered only where TrimGzipped is, when its side reads stay inside their
   * lines.
   */
  function ProcessFile(probe: Option<seq<byte>>, text: string, p: Policy, opens: Opens): (r: Outcome)
    requires Modelled(probe, text, p)
    ensures r.fmt == Gzipped <==> IsLikelyGzipped(probe)
    ensures r.Processed? <==> opens.input && opens.output
    ensures r.Processed? ==> |r.outputs.primary| == |Chunks(text)|
  {
    var fmt := if IsLikelyGzipped(probe) then Gzipped else Plain;
    var asked := SideFilesOpened(fmt, p);
    if opens.input && opens.output then
      Processed(fmt, Trimmed(Chunks(text), p, SideSinks(asked.has5 && opens.side5, asked.has3 && opens.side3)))
    else
      Failed(fmt)
  }

  /**
   * A gzip input's side reads stay inside their lines with only the side
   * files that could be opened whenever they do with all it asks for, so the
   * loop TrimGzipped runs over the files processFile opened is covered by
   * Modelled, and gives ProcessFile's outputs.
   */
  lemma GzipBranchModelled(probe: Option<seq<byte>>, text: string, p: Policy, opens: Opens)
    requires IsLikelyGzipped(probe) && opens.input && opens.output && Modelled(probe, text, p)
    ensures var asked := SideFilesOpened(Gzipped, p);
      GzSideReadsInBounds(Chunks(text), p, SideSinks(asked.has5 && opens.side5, asked.has3 && opens.side3))
  {
    var cs := Chunks(text);
    var asked := SideFilesOpened(Gzipped, p);
    var s := SideSinks(asked.has5 && opens.side5, asked.has3 && opens.side3);
    forall i | 0 <= i < |cs|
      ensures GzLineReadsInBounds(i, Line(cs[i]), p, s)
    {
      assert GzLineReadsInBounds(i, Line(cs[i]), p, asked);
    }
  }

  /**
   * When all the files it asks for can be opened, and a gzip input's side
   * reads stay inside their lines, processing a file gives the same outputs
   * whichever branch the format check picks.
   */
  lemma OutputsIndependentOfFormat(probe: Option<seq<byte>>, probe': Option<seq<byte>>,
                                   text: string, p: Policy)
    requires Modelled(probe, text, p) && Modelled(probe', text, p)
    ensures var o := Opens(true, true, true, true);
      ProcessFile(probe, text, p, o).Processed? && ProcessFile(probe', text, p, o).Processed? &&
      ProcessFile(probe, text, p, o).outputs == ProcessFile(probe', text, p, o).outputs
  {
    var fmt := if IsLikelyGzipped(probe) then Gzipped else Plain;
    var fmt' := if IsLikelyGzipped(probe') then Gzipped else Plain;
    TrimmedDependsOnActiveSides(Chunks(text), p, SideFilesOpened(fmt, p), SideFilesOpened(fmt', p));
  }

  /**
   * A side file that could not be opened gets nothing, and the primary
   * output does not depend on whether it could.
   */
  lemma PrimaryIndependentOfSideFiles(probe: Option<seq<byte>>, text: string, p: Policy, o: Opens, o': Opens)
    requires Modelled(probe, text, p)
    requires o.input && o.output && o'.input && o'.output
    ensures ProcessFile(probe, text, p, o).outputs.primary == ProcessFile(probe, text, p, o').outputs.primary
    ensures !o.side5 ==> ProcessFile(probe, text, p, o).outputs.side5 == []
    ensures !o.side3 ==> ProcessFile(probe, text, p, o).outputs.side3 == []
  {
    var fmt := if IsLikelyGzipped(probe) then Gzipped else Plain;
    var asked := SideFilesOpened(fmt, p);
    var s := SideSinks(asked.has5 && o.side5, asked.has3 && o.side3);
    var s' := SideSinks(asked.has5 && o'.side5, asked.has3 && o'.side3);
    PrimaryIndependentOfSinks(Chunks(text), p, s, s');
    SideSinksGated(Chunks(text), p, s);
  }
}
