# codemd assembler, modelled in Dafny

codemd pulls fenced code blocks out of a Markdown document and stitches them
into source files. Each block carries JSON metadata that names a target file
and a mode: Append (add the lines at the end), Insert (put them at a line) or
Diff (replace an inclusive line range). It may also list extra removals, which
are applied after the edit. This project models the part that decides the
final lines of every target file. That part has two pieces:

- the chunk data model and the order in which the metadata decoder tries the
  modes (`src/codechunk.rs`), in `codechunk.dfy` (module `CodeChunks`);
- the assembler (`src/codefile.rs`), in `codefile.dfy` (module `CodeFiles`).
  The assembler is the class `CodeFile`, whose `Add`, `PerformRemovals` and
  `FromBlocks` work on its `lines` in place, loop by loop, as the source does.

`vecops.dfy` (module `VecOps`) gives `Vec::insert` and `Vec::remove`. It also
gives the three loops the assembler builds from them as recursive functions
that take one step per iteration. `None` stands for the panic Rust raises on
an out-of-range index. `InsertRun` and `RemoveRun` have closed-form
contracts. `StrideRemove`'s contract gives when it succeeds, how many lines
it removes, and that an empty range changes nothing. Its closed form is the lemma `StrideRemoveDeletesEveryOther`.

`assembly.dfy` (module `Assembly`) proves what each mode does to a file. It also proves that
different targets never interact, and it checks the scenarios from the
source's tests. `options.dfy` holds `Option`.

Where the code behaves in a surprising way, the model follows the code:

- The first chunk for a target creates the file from its lines verbatim. Its
  mode and its removals are ignored.
- A removal `{first, last}` calls `remove(rdx)` for `rdx` in `first..=last` on
  a vector that shrinks as it goes. So it deletes the original positions
  `first, first+2, …, first+2(last-first)`, not a contiguous range. It needs
  `first + 2(last-first) < len`.
- A Diff with `last < first` removes nothing and acts as an Insert at `first`.
  It replaces no lines, although src/codechunk.rs:23 describes a Diff as
  replacing the given set of lines with the lines in the chunk.
- Out-of-range indices are not reported as errors: `Vec::insert` and
  `Vec::remove` panic. The model returns an explicit `IndexPanic` failure. An
  Insert (or a Diff's insertion) of an empty block never touches the vector,
  so it never panics, whatever its position.
- The unnamed target is written to the default file name. A target that is
  explicitly given that name is written to the same path
  (`DefaultNameCollides`).

## Model

| member | source | states |
|---|---|---|
| `CodeChunks.NewChunk` | src/codechunk.rs:103-115 | A new chunk has no lines, keeps `lang` and `meta` as given, and takes `file` from whichever variant `meta` holds |
| `CodeChunks.DecodeRemoveList` | src/codechunk.rs:69-83 | A removal list decodes exactly when every entry has `first` and `last` fitting a usize; the result keeps the listed order and the given values |
| `CodeChunks.DecodeRemove` | src/codechunk.rs:76-83 | A removal decodes exactly when both `first` and `last` fit a usize, and keeps the given values |
| `CodeChunks.DecodeRemovals` | src/codechunk.rs:69-71 | A missing `removals` key is the empty list; a present one decodes exactly when every entry does, with one removal per entry, in listed order, each with the entry's values |
| `CodeChunks.DecodeMeta` | src/codechunk.rs:20-31 | Decoding succeeds exactly when `removals` decodes; a complete `first`/`last` pair gives Diff, otherwise a `line` gives Insert, otherwise Append, each carrying the decoded fields |
| `CodeChunks.EmptyObjectIsAppend` | src/codechunk.rs:27-30 | `{}` decodes as an Append to the unnamed file with no removals |
| `CodeChunks.MissingRemovalsAreEmpty` | src/codechunk.rs:40-72 | Without a `removals` key every variant decodes, with an empty removal list |
| `CodeChunks.DiffWinsOverInsert` | src/codechunk.rs:22-26 | A record with `first`, `last` and `line` decodes as Diff with its `first`/`last` |
| `CodeChunks.HalfRangeFallsThroughToInsert` | src/codechunk.rs:22-26 | `first` without `last`, plus `line`, decodes as Insert at `line` |
| `CodeChunks.BadRemovalIsDecodeError` | src/codechunk.rs:40-72 | A removal entry missing `first` fails every variant, Append included |
| `CodeChunks.DecodeRemoveExample` | src/codechunk.rs:123-128 | `{first:10,last:20}` decodes to exactly `CodeRemove(10, 20)` |
| `CodeChunks.DecodeDiffExample` | src/codechunk.rs:131-141 | The `deser_diff` record decodes as Diff 10..=20 whose removals are in listed order (`[0].first == 24`, `[1].last == 31`) |
| `VecOps.VecInsert` | src/codefile.rs:67 | `Vec::insert` at `i <= len`: one element longer, `x` at `i`, earlier elements in place, later ones shifted right by one |
| `VecOps.VecRemove` | src/codefile.rs:50 | `Vec::remove` at `i < len`: one element shorter, earlier elements in place, later ones shifted left by one |
| `VecOps.InsertRun` | src/codefile.rs:66-68 | The insertion loop succeeds exactly when the block is empty or the position is within the vector; then the block lands contiguously at the position, with the old lines before and after it |
| `VecOps.RemoveRun` | src/codefile.rs:72-74 | Removing position `at` n times succeeds exactly when `at + n <= len`, and deletes the n lines starting at `at` |
| `VecOps.StrideRemove` | src/codefile.rs:49-51 | The removal loop succeeds exactly when `last < first` or `first + 2(last-first) < len`, and then deletes exactly `last-first+1` lines; when `last < first` it leaves the lines unchanged |
| `VecOps.StrideRemoveDeletesEveryOther` | src/codefile.rs:47-53 | A removal deletes the original positions `first, first+2, …, first+2(last-first)`: earlier lines stay, the skipped ones close up, and the tail shifts left |
| `VecOps.RemovalsCompoundExample` | src/codefile.rs:47-53 | Two removals of line 2 on five lines delete original lines 2 and 3 |
| `CodeFiles.ApplyRemovals` | src/codefile.rs:47-53 | A successful removal list shortens the file by the sum of its removals' widths |
| `CodeFiles.ApplyEdit` | src/codefile.rs:60-79 | The primary edit of `add` panics exactly when one of its indices is out of range (never for Append; for Insert when the block is non-empty and `line > len`; for Diff when the range or the insertion point runs past the end); on success the file grows by the block and shrinks by the Diff's range |
| `CodeFiles.ApplyMeta` | src/codefile.rs:60-80 | `add` after the name check succeeds only when its edit does, equals the edit when there are no removals, and on success changes the length by the block, the Diff's range and the removals' widths |
| `CodeFiles.Step` | src/codefile.rs:36-41 | The first chunk for a target gives its lines verbatim; a later one gives `add`'s result, and fails, with an index panic, exactly when `add` does |
| `CodeFiles.OutputPath` | src/codefile.rs:86-90 | The path is the output directory, a `/`, then the target's name, or the default file name for the unnamed target |
| `CodeFiles.AssembleFrom` | src/codefile.rs:33-42 | The loop fails only by an index panic; on success it holds the files it started with plus one file per target named in the chunks |
| `CodeFiles.Assemble` | src/codefile.rs:28-45 | An empty chunk list is exactly the "No code blocks found" error; any other failure is an index panic; a success has exactly one file per distinct target, with None as its own key |
| `CodeFiles.DistinctTargetsDistinctPaths` | src/codefile.rs:85-90 | Two different named targets are written to different paths |
| `CodeFiles.DefaultNameCollides` | src/codefile.rs:86-90 | The unnamed target and a target named like the default file share one path |
| `CodeFiles.CodeFile.constructor` | src/codefile.rs:21-26 | A new file takes the chunk's target and its lines verbatim |
| `CodeFiles.CodeFile.PerformRemovals` | src/codefile.rs:47-53 | In place, the lines become `ApplyRemovals` of the old lines, and the call fails exactly when that panics; the name is unchanged |
| `CodeFiles.CodeFile.InsertLines` | src/codefile.rs:65-68 | In place, the lines become `InsertRun` of the old lines, and the call fails exactly when that panics |
| `CodeFiles.CodeFile.RemoveLines` | src/codefile.rs:71-74 | In place, the lines become `RemoveRun` of the old lines over the Diff's width, and the call fails exactly when that panics |
| `CodeFiles.CodeFile.Add` | src/codefile.rs:55-83 | A chunk for another file gives "Filename doesn't match" and leaves the lines unchanged; otherwise the call succeeds exactly when the edit and the removals stay in range, and the lines become their result |
| `CodeFiles.CodeFile.FromBlocks` | src/codefile.rs:28-45 | The run fails exactly when `Assemble` does, with the same error; on success there is one `CodeFile` per target, named by its key, newly created and holding the lines `Assemble` gives |
| `Assembly.AppendEdit` | src/codefile.rs:61-64 | Append without removals gives the old lines followed by the block |
| `Assembly.InsertEdit` | src/codefile.rs:65-70 | Insert at L without removals succeeds exactly when the block is empty or `L <= len`; lines before L are unchanged, the block sits at L, and the rest shift right by its length |
| `Assembly.DiffEdit` | src/codefile.rs:71-79 | Diff with `first <= last < len` gives `old[..first] + code + old[last+1..]` |
| `Assembly.DiffPastEndPanics` | src/codefile.rs:72-74 | A Diff whose range reaches past the end panics |
| `Assembly.EmptyDiffIsInsert` | src/codefile.rs:71-79 | A Diff with `last < first` is an Insert at `first`, removals included |
| `Assembly.OneForOneDiffKeepsLength` | src/codefile.rs:71-79 | Replacing one existing line with one line updates that line and keeps the length |
| `Assembly.ApplyRemovalsSplit` | src/codefile.rs:47-53 | A removal list runs left to right: a list split in two runs its second part on what the first part left, and a panic in the first part ends the run |
| `Assembly.SingleRemoval` | src/codefile.rs:48-52 | A one-entry removal list is the removal loop over that entry's range |
| `Assembly.CompoundRemovalsExample` | src/codefile.rs:47-53 | The removal list `{2,2}, {2,2}` on five lines leaves original lines 0, 1 and 4 |
| `Assembly.AppendWithRemovalExample` | src/codefile.rs:61-64 | Appending `e` to `a b c d` with the removal `{0,1}` leaves `b d e`: positions 0 and then 1 of the shrunk vector go |
| `Assembly.AssembleFromPerTarget` | src/codefile.rs:33-42 | The whole run succeeds exactly when every target's own chunks succeed in isolation, and each target then ends with what its own run gives |
| `Assembly.TargetInIsolation` | src/codefile.rs:33-44 | Running only one target's chunks yields that target alone, with the same lines as in the full run |
| `Assembly.TargetPanicAbortsRun` | src/codefile.rs:35-42 | A panic in any one target's chunks makes the whole run fail |
| `Assembly.FirstSightingSeedsVerbatim` | src/codefile.rs:36-41 | Wherever the first chunk for a target comes in the run, it adds that target with the chunk's lines verbatim, whatever its mode and removals, and the run goes on from there |
| `Assembly.FirstChunkSeedsVerbatim` | src/codefile.rs:36-41 | A run of one chunk gives one file, equal to that chunk's lines, whatever its mode and removals |
| `Assembly.AppendsConcatenate` | src/codefile.rs:61-64 | A target seeded by any chunk and then given only Appends without removals ends with the concatenation of all their lines, in order |
| `Assembly.AppendTestExample` | src/codefile.rs:117-133 | Two two-line Appends to the unnamed file give the four lines in order |
| `Assembly.AppendThenDiffExample` | src/codefile.rs:61-78 | Appending `a b c d`, then a Diff of lines 1..=2 with `x`, gives `a x d` |
| `Assembly.AppendCodefileTest` | src/codefile.rs:117-133 | Through the object's own constructor and `Add`, two two-line Appends give the four lines in order |
| `Assembly.DiffAsFirstChunkIsNotApplied` | src/codefile.rs:21-26 | A Diff that is the first chunk for its target is not applied: the file is the block's lines |

## Left out

- Block scanning (`find_codeblocks` in src/codegrab.rs) relies on the `regex` crate, so it is not part of this model.
- JSON parsing (`CodeMeta::from_json`) is serde_json. The model starts from an abstract record of the keys the decoder reads. A `file` value of the wrong type (a number, say) and non-integer numbers are not represented.
- `BlockMeta` is declared but never used, so it is not modelled.
- src/main.rs (argument parsing, reading the document, the write loop) is I/O glue and is not modelled.
- `write_to_file` creates files and writes bytes. Only its path resolution is modelled, as `OutputPath`.
- The `println!` diagnostic in `from_blocks` is output only and is left out.
- `name()` and `lines()` are plain accessors. The model reads the fields directly.
- `from_blocks` returns the files in HashMap order, which is unspecified. The model returns a map keyed by target.
- `usize` is modelled as an unbounded `nat`. The decoder still rejects values outside the `usize` range. Overflow of `line + code.len()` in the insertion loop's range is not modelled.
- CodeFiles.CodeFile.Add: does not state the lines left behind after an `IndexPanic`, because in the source the panic ends the process.
- CodeFiles.CodeFile.FromBlocks: does not state the files' contents after a failure, because the source returns no files then.
