/**
 * main's check of the parsed command line: both directories given, neither
 * trim count negative, and at least one of them positive.
 */
module Cli {
  import opened Wrappers
  import opened TrimSpec

  /** The values getopt_long and std::stoi leave behind (empty string and 0 when absent). */
  datatype Args = Args(inDir: string, outDir: string, n3: int, n5: int, force: bool, keep: bool)

  /** The trimming policy main runs with, or None when it prints the usage and returns 1. */
  function CheckArgs(a: Args): (r: Option<Policy>)
    ensures r.Some? <==> a.inDir != [] && a.outDir != [] && a.n3 >= 0 && a.n5 >= 0 && a.n3 + a.n5 > 0
    ensures r.Some? ==> r.value.n3 == a.n3 && r.value.n5 == a.n5 && r.value.keep == a.keep
  {
    if a.inDir == [] || a.outDir == [] || a.n3 < 0 || a.n5 < 0 || (a.n3 == 0 && a.n5 == 0) then None
    else Some(Policy(a.n5, a.n3, a.keep))
  }

  /**
   * Every accepted command line trims something: each non-empty sequence or
   * quality line loses at least one character from the primary output.
   */
  lemma AcceptedPolicyShortens(a: Args, line: string)
    requires CheckArgs(a).Some? && line != []
    ensures |Kept(line, CheckArgs(a).value.n5, CheckArgs(a).value.n3)| < |line|
  {
    var p := CheckArgs(a).value;
    KeptShape(line, p.n5, p.n3);
  }

  /** Running without any trim count, the tool's defaults, is rejected. */
  lemma DefaultsRejected(inDir: string, outDir: string, force: bool, keep: bool)
    ensures CheckArgs(Args(inDir, outDir, 0, 0, force, keep)) == None
  {
  }
}
