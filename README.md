# fastq_trimmer in Dafny

A model of the core of `fastq_trimmer`, a command-line tool. It takes every
FASTQ file (`.fq`, `.fq.gz`, `.fastq`, `.fastq.gz`) in an input directory and
cuts a fixed number of bases from the 5' end (N5) and the 3' end (N3) of every
sequence and quality line. Each result goes to a file of the same name in an
output directory. With `--keep`, the cut-off pieces are also written to side
files, `3-prime/trim3_<name>` and `5-prime/trim5_<name>`. Existing outputs are
skipped unless `--force` is given.

Modules, one concern each:

- `LineReader` (`line_reader.dfy`) covers how the trim loops see their input.
  `fgets`/`gzgets` hand out chunks of at most 4095 characters, each ending
  after its first newline. `strlen` stops at the first NUL. One trailing
  newline is then dropped. A line of 4095 characters or more is split into
  several chunks, and the model keeps that: every chunk counts as a line,
  exactly as in the C code (`LineReader.LongLineSplit`).
- `FormatDetect` (`format_detect.dfy`) is the gzip magic-number check: the
  first two bytes are 0x1F 0x8B, as section 2.3.1 of RFC 1952 specifies.
- `TrimSpec` (`trim_spec.dfy`) is the line-by-line specification. It defines
  the kept part, the two side pieces, the output line for line number i, and
  `Trimmed`: everything written to the primary output and the two side sinks
  after a sequence of chunks has been read.
- `TrimEngine` (`trim_engine.dfy`) holds the two loops. `trimNonGzippedFastq`
  and `trimGzippedFastq` become methods with `while` loops and a line counter.
  They append to three sequence-valued sinks. The plain loop is proved equal
  to `Trimmed` on every input. The gzip loop is proved equal to it only when
  its unclamped side reads stay inside each line (see Findings).
- `FileTask` (`file_task.dfy`) is `processFile`. It covers path composition,
  which side files each branch opens, and the outcome for one file.
- `Batch` (`batch.dfy`) covers `getFilesWithExtensions` (the suffix filter, as
  a loop) and the skip-if-output-exists dispatch loop of
  `trimFastqFilesInDirectory`.
- `Cli` (`cli.dfy`) is the argument check in `main`.
- `Scenarios` (`scenarios.dfy`) holds worked cases on whole two-line files.

A sink, whether the primary output or a side file, is the sequence of lines
written to it. Each element is one line including its `"\n"`. A side file
whose `FILE*`/`gzFile` is null is an inactive sink (`SideSinks`).

Notes on behaviour the model follows from the code:

- An input file that cannot be opened, or has fewer than two bytes, is treated
  as plain text.
- The 5' + kept + 3' pieces spell the line again only when they do not
  overlap: the line is empty, at least N5 + N3 long, or one count is 0
  (`TrimSpec.ReconstructIff`).
- A failure to open a file is not reported with a distinct reason.
- With `--keep`, the plain branch opens both side files even when a count is
  0. The gzip branch does not.

## Model

| member | source | states |
|---|---|---|
| `LineReader.TakeLen` | fastq_trimmer.cpp:117-120 | fgets takes at most `room` characters and stops after the first newline. A shorter-than-room, shorter-than-input take ends in a newline; none of the earlier characters is a newline. |
| `LineReader.NextChunk` | fastq_trimmer.cpp:117-120 | One fgets/gzgets call returns a non-empty prefix of the rest of the input, below the 4096-byte buffer. The prefix ends at a newline, or holds 4095 characters, or is the whole rest. |
| `LineReader.Chunks` | fastq_trimmer.cpp:74 | Calling fgets/gzgets until it returns null gives a list of chunks, empty iff the input is empty. Every chunk but the last ends with a newline or holds 4095 characters. |
| `LineReader.LongLineSplit` | fastq_trimmer.cpp:117-120 | A line of 4095 characters or more is read as its first 4095 characters, then reading resumes mid-line. A line of exactly 4095 characters is followed by a chunk that is only its newline. |
| `LineReader.ChunksConcat` | fastq_trimmer.cpp:74 | The chunks concatenate back to the whole input: nothing is lost or duplicated by reading. |
| `LineReader.ShortLineFirst` | fastq_trimmer.cpp:117-120 | A line shorter than 4095 characters at the front of the input is read as one chunk, the line and its newline, and reading continues with the next line. |
| `LineReader.ShortLinesReadWhole` | fastq_trimmer.cpp:117-120 | A file of lines shorter than the buffer is read one chunk per line, each chunk being the line plus its newline. |
| `LineReader.CTextShape` | fastq_trimmer.cpp:121 | strlen gives a NUL-free prefix of the buffer, ending at its first NUL; it is the whole buffer when the buffer holds no NUL. |
| `LineReader.LineHasNoNewline` | fastq_trimmer.cpp:121-128 | After strlen and dropping one trailing newline, the line of a chunk holds no newline. |
| `LineReader.LineRoundTrip` | fastq_trimmer.cpp:121-128 | A NUL-free chunk ending in a newline is its line plus that newline. |
| `LineReader.ChunkOfLine` | fastq_trimmer.cpp:121-128 | A short NUL-free line read with its newline is given back unchanged. |
| `LineReader.FileOfShortLines` | fastq_trimmer.cpp:117-128 | A file of short NUL-free lines yields one chunk per line, and each chunk's line is the line as written. |
| `LineReader.TwoLines` | fastq_trimmer.cpp:117-120 | A two-line file is read as exactly those two lines with their newlines. |
| `FormatDetect.IsLikelyGzipped` | fastq_trimmer.cpp:14-24 | True iff the file opens, at least two bytes can be read, and they are 0x1F then 0x8B. |
| `FormatDetect.GzipMemberDetected` | fastq_trimmer.cpp:14-24 | Every gzip member, which starts with the magic, is detected. |
| `FormatDetect.FastqTextNotDetected` | fastq_trimmer.cpp:14-24 | A FASTQ text file, whose first byte is '@', is never taken for gzip. |
| `FormatDetect.UnreadableNotDetected` | fastq_trimmer.cpp:15-18 | A file that cannot be opened or is shorter than two bytes is treated as plain. |
| `TrimSpec.KeptShape` | fastq_trimmer.cpp:81-86 | The kept part has max(len - N5 - N3, 0) characters, the line's characters from position N5 on. It is never negative-length and never out of bounds. |
| `TrimSpec.SideShape` | fastq_trimmer.cpp:137-142 | The 5' piece is the prefix of length min(len, N5). The 3' piece is the suffix of length min(len, N3). |
| `TrimSpec.ReconstructIff` | fastq_trimmer.cpp:130-146 | 5' piece + kept part + 3' piece equals the line iff the line is empty, at least N5 + N3 long, or a count is 0. Both directions are proved. |
| `TrimSpec.Trimmed` | fastq_trimmer.cpp:116-161 | One primary line per chunk read. Each active side sink also gets one line per chunk; an inactive one gets none. |
| `TrimSpec.TrimmedAt` | fastq_trimmer.cpp:130-157 | Line i of each sink is what line number i produces: the cut pieces for lines with i % 4 in {1, 3}, the line unchanged otherwise. |
| `TrimSpec.TrimmedDependsOnActiveSides` | fastq_trimmer.cpp:134-156 | Outputs depend on the open side files only through which sides are active (keep, file open, count > 0). |
| `TrimSpec.PrimaryIndependentOfSinks` | fastq_trimmer.cpp:146-148 | The primary output does not depend on which side files are open. |
| `TrimSpec.PassThroughLines` | fastq_trimmer.cpp:147-156 | Identifier and separator lines (i % 4 in {0, 2}) reach the primary output and every active side file unchanged, plus one newline. |
| `TrimSpec.ReadLineKept` | fastq_trimmer.cpp:130-146 | A sequence/quality line of length L comes out as 1 + max(L - N5 - N3, 0) characters: the line's characters from N5 on, then a newline. |
| `TrimSpec.PieceLinesWritten` | fastq_trimmer.cpp:137-148 | For a newline-free line, each line written for it, to any sink, ends in exactly one newline. |
| `TrimSpec.WrittenLinesAt` | fastq_trimmer.cpp:130-157 | Every line written for chunk i ends in exactly one newline, whether or not the chunk had one. |
| `TrimSpec.EveryWrittenLineTerminated` | fastq_trimmer.cpp:120-160 | Exactly one primary line per chunk, and every line in every sink ends in exactly one newline. |
| `TrimSpec.SidesReconstruct` | fastq_trimmer.cpp:134-146 | With keep and both sides active, on a read line at least N5 + N3 long: 5' side line + primary line + 3' side line, without newlines, spell the line. |
| `TrimSpec.SideSinksGated` | fastq_trimmer.cpp:134-156 | Without keep, without the side file, or with that side's count 0, a side file receives nothing. |
| `TrimEngine.WriteLine` | fastq_trimmer.cpp:121-157 | One iteration of the plain loop appends, to each sink that gets a line, exactly the specified line for line number i. Other sinks are left unchanged. |
| `TrimEngine.TrimNonGzipped` | fastq_trimmer.cpp:116-161 | After the loop the three sinks equal `Trimmed` of the chunks read (invariant: equal to `Trimmed` of the chunks read so far). |
| `TrimEngine.GzWriteLine` | fastq_trimmer.cpp:75-111 | One iteration of the gzip loop, with its unclamped side reads. When they stay inside the line it appends the same lines as the plain loop. |
| `TrimEngine.TrimGzipped` | fastq_trimmer.cpp:70-114 | When every side read stays inside its line, the gzip loop's sinks equal `Trimmed`, so they equal the plain loop's. |
| `TrimEngine.TwoLineFile` | fastq_trimmer.cpp:74-79 | The file "@r\nACG\n" is read as the lines "@r" and "ACG". |
| `TrimEngine.GzSide5ReadPastLine` | fastq_trimmer.cpp:89-90 | On that file, with keep and N5 = 4, the gzip loop's 5' read leaves the 3-byte line "ACG". |
| `TrimEngine.GzBufferBytes` | fastq_trimmer.cpp:74-79 | For a NUL-free chunk, the gzip loop's buffer after the strip starts with the line and continues with NULs up to one byte past the chunk: the NUL that replaced the newline and gzgets's terminator. |
| `TrimEngine.GzSide5WritesNul` | fastq_trimmer.cpp:89-91 | On that file, with keep and N5 = 4, the gzip loop's 5' side file gets "ACG\0\n" where the plain loop's gets "ACG\n". |
| `TrimEngine.GzSide3ReadBeforeLine` | fastq_trimmer.cpp:93-94 | On that file, with keep and N3 = 4, the gzip loop's 3' read starts one byte before the buffer. |
| `FileTask.JoinPath` | fastq_trimmer.cpp:164-165 | A joined path splits back into the directory, a '/', and the file name. |
| `FileTask.JoinPathInjective` | fastq_trimmer.cpp:165 | In one output directory, different file names get different output paths, and equal names equal ones. |
| `FileTask.InputOutputDistinct` | fastq_trimmer.cpp:164-165 | A file's input and output paths coincide iff the two directory strings are equal. |
| `FileTask.TaskPathsDistinct` | fastq_trimmer.cpp:165-179 | The primary output and the two side files of one input are three different paths. |
| `FileTask.SideFilesNotOutputs` | fastq_trimmer.cpp:292-300 | A side file, 3' or 5', of any name is never the output path the dispatch loop tests for a name without '/'. |
| `FileTask.SidePathsInSideDirs` | fastq_trimmer.cpp:173-180 | Each side file is `trim3_`/`trim5_` + name inside the `3-prime`/`5-prime` directory main creates. |
| `FileTask.SideFilesOpened` | fastq_trimmer.cpp:171-210 | The gzip branch opens a side file iff keep and its count > 0. The plain branch opens both iff keep. |
| `FileTask.SideFilesWrittenAgree` | fastq_trimmer.cpp:171-210 | In either branch a side file receives lines iff keep is set and its count is positive. |
| `FileTask.SideDirsCreated` | fastq_trimmer.cpp:398-409 | main creates a side directory iff keep is set and that side's count is positive. |
| `FileTask.WrittenSideFilesHaveDirs` | fastq_trimmer.cpp:398-409 | Every side file that receives lines lies in a directory main created. |
| `FileTask.PlainOpensIdleSideFile` | fastq_trimmer.cpp:205-210 | With keep and N5 = 0 the plain branch still opens a 5' file, in a directory main did not create, and writes nothing to it. The gzip branch does not open it. |
| `FileTask.ProcessFile` | fastq_trimmer.cpp:163-229 | The branch follows the gzip check. The trim runs, giving one primary line per chunk, iff the input and the output both open. A gzip input is covered only when its side reads stay inside its lines. |
| `FileTask.GzipBranchModelled` | fastq_trimmer.cpp:168-184 | When a gzip input's side reads stay inside its lines with all side files open, they also do with only the side files that did open, so the gzip loop's proved equality holds for the run processFile makes. |
| `FileTask.OutputsIndependentOfFormat` | fastq_trimmer.cpp:167-229 | When all files open and a gzip input's side reads stay inside its lines, both branches give the same outputs. |
| `FileTask.PrimaryIndependentOfSideFiles` | fastq_trimmer.cpp:183-226 | Whether a side file opens does not change the primary output. An unopened side file gets nothing. |
| `Batch.Selected` | fastq_trimmer.cpp:48-57 | At most one name per directory entry is returned. |
| `Batch.MatchesExtension` | fastq_trimmer.cpp:51-56 | The inner loop with its break finds a match iff the name ends with one of the extensions. |
| `Batch.GetFilesWithExtensions` | fastq_trimmer.cpp:39-61 | The loop over readdir's entries returns exactly `Selected`: the regular files with a matching suffix, in directory order. |
| `Batch.SelectedIff` | fastq_trimmer.cpp:49-54 | A name is returned iff it belongs to a regular entry and ends with one of the extensions. |
| `Batch.SelectedNoDuplicates` | fastq_trimmer.cpp:52-55 | Thanks to the break, names listed once by the directory are returned once. |
| `Batch.SupportedExtensionsExclusive` | fastq_trimmer.cpp:283 | No name ends with two of `.fq`, `.fq.gz`, `.fastq`, `.fastq.gz`. |
| `Batch.Submitted` | fastq_trimmer.cpp:290-312 | No more names are submitted than were selected. |
| `Batch.Skipped` | fastq_trimmer.cpp:295-300 | No more names are skipped than were selected. |
| `Batch.Schedule` | fastq_trimmer.cpp:290-312 | The dispatch loop submits exactly `Submitted` and skips exactly `Skipped`, in order. |
| `Batch.ScheduleComplete` | fastq_trimmer.cpp:290-312 | Submitted and skipped together are the selected names as a multiset: none is lost, none handled twice. |
| `Batch.SkippedIff` | fastq_trimmer.cpp:292-300 | A name is skipped iff force is off and its output path exists. |
| `Batch.SubmittedIff` | fastq_trimmer.cpp:292-309 | A name is submitted iff force is on or its output path does not exist. |
| `Batch.ForceSubmitsAll` | fastq_trimmer.cpp:295 | With force every selected name is submitted and none is skipped. |
| `Batch.RerunSkipsAll` | fastq_trimmer.cpp:290-300 | A second run without force, after every submitted file got its output, submits nothing and skips every name. |
| `Cli.CheckArgs` | fastq_trimmer.cpp:383-386 | Arguments are accepted iff both directories are non-empty, neither count is negative, and not both are 0. The policy carries the given counts and keep flag. |
| `Cli.AcceptedPolicyShortens` | fastq_trimmer.cpp:383-386 | Under any accepted command line, every non-empty sequence/quality line loses at least one character. |
| `Cli.DefaultsRejected` | fastq_trimmer.cpp:333-386 | Without -3 or -5 (both counts default to 0) the tool refuses to run. |
| `Scenarios.TrimBothEnds` | fastq_trimmer.cpp:130-156 | Take a two-line file with sequence line a + k + b, N5 = \|a\|, N3 = \|b\| and keep. The identifier goes to all three sinks, k to the primary, a to 5', b to 3'. The truncated record is handled line by line. |
| `Scenarios.TrimMoreThanLine` | fastq_trimmer.cpp:130-146 | With N5 = 0 and N3 of at least the line's length, the primary gets an empty line, 3' the whole line, and 5' nothing. |

## Left out

- zlib and stdio calls are not modelled: opening, reading, writing and closing files, and gzip decompression. Each input is its (decompressed) text and each sink a sequence of lines. A read error or a corrupt gzip stream ends the C loops like end-of-file does, and the model has no such event.
- The file system is not modelled. Directory enumeration is the sequence of entries `readdir` returns. `mkdir`, `access`, `stat` and `createDirectoryIfNotExists` are left out, and so is the side-directory creation that `trimFastqFilesInDirectory` does when the output directory is new. Whether a file opens is a parameter (`FileTask.Opens`).
- Batch.Schedule: existence is a fixed set of paths. The concurrently running tasks create only the outputs and side files of other names. A `readdir` name holds no '/', so these are other paths than the output this loop tests (`FileTask.JoinPathInjective`, `FileTask.SideFilesNotOutputs`). Files created by other processes during the run are not modelled.
- The bounded `std::async` window, the `hardware_concurrency()` core count and the unsynchronised `completedIterations` progress counter are left out. They are concurrency and console output.
- `writeToLog`, every console message and the log file are left out.
- `getopt_long` and `std::stoi` are left out. `Cli.Args` holds the values they produce.
- The `realpath` comparison of input and output directories is left out. `FileTask.InputOutputDistinct` covers only the spelled directory strings.
- The model's integers are unbounded. C `int` overflow is not modelled: of `lineCount` beyond 2^31 lines, of `N3 + N5`, and of the `(int)` cast of the printed length.
- TrimEngine.TrimGzipped: proved only under the requirement that its unclamped side reads stay inside the line. Outside it the C code writes bytes that are not part of the line. For a chunk without NUL bytes, a 5' read that passes the line's end by one byte, or two after a newline strip, writes the NUL terminators (`TrimEngine.GzBufferBytes`, `TrimEngine.GzSide5WritesNul`). For such a chunk, a longer 5' read, up to the 4096-byte array's end, writes bytes that earlier reads left in the buffer or that were never written, whose values are indeterminate. A chunk with an embedded NUL has its line end at that NUL (strlen), so a 5' read past the line first writes the rest of the chunk and gzgets's terminator: the chunk "AC\0GT\n" with N5 = 4 gives "AC\0G". An N5 above 4096 reads past the array, and a 3' read starting before the buffer reads before it: both are undefined behaviour. The model does not compute the gzip sinks in these cases (see Findings).
- TrimEngine.GzWriteLine: same requirement as `TrimEngine.TrimGzipped`, for one line.
- FileTask.ProcessFile: for a gzip input it requires every side read to stay inside its line (`FileTask.Modelled`), where the gzip loop equals `TrimSpec.Trimmed`. It does not give the NUL bytes, stale bytes or undefined reads the C code writes otherwise.
- FileTask.OutputsIndependentOfFormat: holds only under the same requirement. A gzip input whose side reads leave its lines gives side files that differ from the plain branch's (`TrimEngine.GzSide5WritesNul`).
- FileTask.PrimaryIndependentOfSideFiles: stated under the same requirement, since it is about `FileTask.ProcessFile`.

## Findings

| source | as written | input that shows it | evidently intended | confidence | as-written member | corrected member |
|---|---|---|---|---|---|---|
| fastq_trimmer.cpp:90 | The gzip loop writes N5 bytes from the start of the buffer to the 5' file, whatever the line's length. | A gzip file holding "@r\nACG\n", run with --keep and N5 = 4: the sequence line "ACG" has 3 bytes, so the write takes one byte past the line, a NUL, and the 5' line is "ACG\0" where the plain loop writes "ACG". | Write min(len, N5) bytes, as the plain loop does (line 137). | high, not executed | `TrimEngine.GzSide5WritesNul` | `TrimSpec.SideShape` |
| fastq_trimmer.cpp:94 | The gzip loop writes N3 bytes starting at buffer + len - N3 to the 3' file. | The same file with --keep and N3 = 4: the write starts at buffer - 1, before the buffer. | Start at max(len - N3, 0), as the plain loop does (line 141). | high, not executed | `TrimEngine.GzSide3ReadBeforeLine` | `TrimSpec.SideShape` |
