/**
 * trimFastqFilesInDirectory's choice of work: which directory entries are
 * FASTQ files (getFilesWithExtensions) and which of them are processed or
 * skipped because their output already exists.
 */
module Batch {
  import opened FileTask

  /** A directory entry as readdir reports it: its name and whether it is a regular file. */
  datatype DirEntry = DirEntry(name: string, regular: bool)

  const SupportedExtensions: seq<string> := [".fq", ".fq.gz", ".fastq", ".fastq.gz"]

  /** The suffix test: the name is at least as long as the extension and its tail equals it. */
  predicate EndsWith(name: string, ext: string)
  {
    |name| >= |ext| && name[|name| - |ext|..] == ext
  }

  predicate HasExtension(name: string, exts: seq<string>)
  {
    exists k :: 0 <= k < |exts| && EndsWith(name, exts[k])
  }

  /** The names getFilesWithExtensions returns, in readdir order. */
  function Selected(entries: seq<DirEntry>, exts: seq<string>): (names: seq<string>)
    ensures |names| <= |entries|
    decreases |entries|
  {
    if entries == [] then []
    else
      var e := entries[|entries| - 1];
      Selected(entries[..|entries| - 1], exts) +
        (if e.regular && HasExtension(e.name, exts) then [e.name] else [])
  }

  /** The inner loop over the extensions, which stops at the first that matches. */
  method MatchesExtension(name: string, exts: seq<string>) returns (found: bool)
    ensures found <==> HasExtension(name, exts)
  {
    found := false;
    var k := 0;
    while k < |exts|
      invariant k <= |exts|
      invariant !found
      invariant forall j :: 0 <= j < k ==> !EndsWith(name, exts[j])
    {
      if |name| >= |exts[k]| && name[|name| - |exts[k]|..] == exts[k] {
        found := true;
        return;
      }
      k := k + 1;
    }
  }

  /** getFilesWithExtensions over the entries readdir returns. */
  method GetFilesWithExtensions(entries: seq<DirEntry>, extensions: seq<string>)
    returns (fileNames: seq<string>)
    ensures fileNames == Selected(entries, extensions)
  {
    fileNames := [];
    var i := 0;
    while i < |entries|
      invariant i <= |entries|
      invariant fileNames == Selected(entries[..i], extensions)
    {
      var entry := entries[i];
      if entry.regular {
        var found := MatchesExtension(entry.name, extensions);
        if found {
          fileNames := fileNames + [entry.name];
        }
      }
      assert entries[..i + 1][..i] == entries[..i];
      i := i + 1;
    }
    assert entries[..i] == entries;
  }

  /** A name is selected iff some regular entry has it and it ends with one of the extensions. */
  lemma {:induction false} SelectedIff(entries: seq<DirEntry>, exts: seq<string>, name: string)
    ensures name in Selected(entries, exts) <==>
      HasExtension(name, exts) && exists i :: 0 <= i < |entries| && entries[i].regular && entries[i].name == name
    decreases |entries|
  {
    if entries != [] {
      var init := entries[..|entries| - 1];
      var last := entries[|entries| - 1];
      SelectedIff(init, exts, name);
      assert Selected(entries, exts) ==
        Selected(init, exts) + (if last.regular && HasExtension(last.name, exts) then [last.name] else []);
      if exists i :: 0 <= i < |init| && init[i].regular && init[i].name == name {
        var i :| 0 <= i < |init| && init[i].regular && init[i].name == name;
        assert entries[i] == init[i];
      }
      if exists i :: 0 <= i < |entries| && entries[i].regular && entries[i].name == name {
        var i :| 0 <= i < |entries| && entries[i].regular && entries[i].name == name;
        if i < |init| {
          assert init[i] == entries[i];
        }
      }
    }
  }

  /** Names a directory lists only once are selected at most once each. */
  lemma {:induction false} SelectedNoDuplicates(entries: seq<DirEntry>, exts: seq<string>)
    requires forall i, j :: 0 <= i < j < |entries| ==> entries[i].name != entries[j].name
    ensures forall i, j :: 0 <= i < j < |Selected(entries, exts)| ==>
      Selected(entries, exts)[i] != Selected(entries, exts)[j]
    decreases |entries|
  {
    if entries != [] {
      var init := entries[..|entries| - 1];
      var last := entries[|entries| - 1];
      SelectedNoDuplicates(init, exts);
      SelectedIff(init, exts, last.name);
      assert forall i :: 0 <= i < |init| ==> init[i].name == entries[i].name != last.name;
    }
  }

  /** When a name ends with two extensions, the shorter extension ends the longer one. */
  lemma SuffixOfSuffix(name: string, a: string, b: string)
    requires EndsWith(name, a) && EndsWith(name, b) && |a| <= |b|
    ensures EndsWith(b, a)
  {
    assert b[|b| - |a|..] == name[|name| - |a|..];
  }

  /**
   * No name ends with two of the supported extensions, so stopping at the
   * first match changes nothing about which extension was matched.
   */
  lemma SupportedExtensionsExclusive(name: string, j: nat, k: nat)
    requires j < k < |SupportedExtensions|
    ensures !(EndsWith(name, SupportedExtensions[j]) && EndsWith(name, SupportedExtensions[k]))
  {
    var a, b := SupportedExtensions[j], SupportedExtensions[k];
    if EndsWith(name, a) && EndsWith(name, b) {
      if |a| <= |b| {
        SuffixOfSuffix(name, a, b);
      } else {
        SuffixOfSuffix(name, b, a);
      }
      assert false;
    }
  }

  /** A FASTQ file is skipped exactly when force is off and its output path already exists. */
  predicate Skip(outDir: string, name: string, existing: set<string>, force: bool)
  {
    !force && OutputPath(outDir, name) in existing
  }

  /** The names handed to processFile, in order. */
  function Submitted(names: seq<string>, outDir: string, existing: set<string>, force: bool): (r: seq<string>)
    ensures |r| <= |names|
    decreases |names|
  {
    if names == [] then []
    else
      var n := names[|names| - 1];
      Submitted(names[..|names| - 1], outDir, existing, force) +
        (if Skip(outDir, n, existing, force) then [] else [n])
  }

  /** The names logged as skipped, in order. */
  function Skipped(names: seq<string>, outDir: string, existing: set<string>, force: bool): (r: seq<string>)
    ensures |r| <= |names|
    decreases |names|
  {
    if names == [] then []
    else
      var n := names[|names| - 1];
      Skipped(names[..|names| - 1], outDir, existing, force) +
        (if Skip(outDir, n, existing, force) then [n] else [])
  }

  /**
   * The dispatch loop: for each selected name, check whether its output
   * exists and either skip it or submit it for processing. `existing` is the
   * set of paths that exist when the loop looks.
   */
  method Schedule(fileNames: seq<string>, outDir: string, existing: set<string>, force: bool)
    returns (submitted: seq<string>, skipped: seq<string>)
    ensures submitted == Submitted(fileNames, outDir, existing, force)
    ensures skipped == Skipped(fileNames, outDir, existing, force)
  {
    submitted, skipped := [], [];
    var i := 0;
    while i < |fileNames|
      invariant i <= |fileNames|
      invariant submitted == Submitted(fileNames[..i], outDir, existing, force)
      invariant skipped == Skipped(fileNames[..i], outDir, existing, force)
    {
      var filename := fileNames[i];
      var outputFile := OutputPath(outDir, filename);
      var fileExists := outputFile in existing;
      assert fileNames[..i + 1][..i] == fileNames[..i];
      if !force && fileExists {
        skipped := skipped + [filename];
        i := i + 1;
        continue;
      }
      submitted := submitted + [filename];
      i := i + 1;
    }
    assert fileNames[..i] == fileNames;
  }

  /** Every selected name is either submitted or skipped, never both, never lost. */
  lemma {:induction false} ScheduleComplete(names: seq<string>, outDir: string, existing: set<string>, force: bool)
    ensures multiset(Submitted(names, outDir, existing, force)) + multiset(Skipped(names, outDir, existing, force))
      == multiset(names)
    decreases |names|
  {
    if names != [] {
      var init := names[..|names| - 1];
      var n := names[|names| - 1];
      ScheduleComplete(init, outDir, existing, force);
      assert names == init + [n];
      assert multiset(names) == multiset(init) + multiset{n};
    }
  }

  /** A name is skipped iff it is selected, force is off and its output exists. */
  lemma {:induction false} SkippedIff(names: seq<string>, outDir: string, existing: set<string>, force: bool, n: string)
    ensures n in Skipped(names, outDir, existing, force) <==> n in names && Skip(outDir, n, existing, force)
    decreases |names|
  {
    if names != [] {
      var init := names[..|names| - 1];
      SkippedIff(init, outDir, existing, force, n);
      assert names == init + [names[|names| - 1]];
    }
  }

  /** With force, every selected name is processed. */
  lemma {:induction false} ForceSubmitsAll(names: seq<string>, outDir: string, existing: set<string>)
    ensures Submitted(names, outDir, existing, true) == names
    ensures Skipped(names, outDir, existing, true) == []
    decreases |names|
  {
    if names != [] {
      ForceSubmitsAll(names[..|names| - 1], outDir, existing);
      assert names == names[..|names| - 1] + [names[|names| - 1]];
    }
  }

  /** Names submitted are exactly the selected names not skipped. */
  lemma {:induction false} SubmittedIff(names: seq<string>, outDir: string, existing: set<string>, force: bool, n: string)
    ensures n in Submitted(names, outDir, existing, force) <==> n in names && !Skip(outDir, n, existing, force)
    decreases |names|
  {
    if names != [] {
      var init := names[..|names| - 1];
      SubmittedIff(init, outDir, existing, force, n);
      assert names == init + [names[|names| - 1]];
    }
  }

  /**
   * Running again without force, once every file processed in the first run
   * has its output (and the outputs present before are still there), does
   * nothing: every name is skipped.
   */
  lemma {:induction false} RerunSkipsAll(names: seq<string>, outDir: string, existing: set<string>,
                                        force: bool, existing': set<string>)
    requires existing <= existing'
    requires forall n :: n in Submitted(names, outDir, existing, force) ==> OutputPath(outDir, n) in existing'
    ensures Submitted(names, outDir, existing', false) == []
    ensures Skipped(names, outDir, existing', false) == names
    decreases |names|
  {
    if names != [] {
      var init := names[..|names| - 1];
      var n := names[|names| - 1];
      forall m | m in Submitted(init, outDir, existing, force)
        ensures OutputPath(outDir, m) in existing'
      {
        assert m in Submitted(names, outDir, existing, force);
      }
      RerunSkipsAll(init, outDir, existing, force, existing');
      if !Skip(outDir, n, existing, force) {
        assert n in Submitted(names, outDir, existing, force);
      }
      assert names == init + [n];
    }
  }
}
