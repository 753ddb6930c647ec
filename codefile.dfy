/**
  The line-based file assembler (src/codefile.rs): what one chunk does to a
  file's lines, the `CodeFile` object that applies it in place, and
  `from_blocks`, which routes every chunk to the file named by its target.
 */
module CodeFiles {

  import opened Options
  import opened CodeChunks
  import opened VecOps

  /**
    Why a run stops. `NoCodeBlocks` and `FilenameMismatch` are the errors the
    source returns; `IndexPanic` stands for the panic of an out-of-range
    `Vec::insert` or `Vec::remove`, which aborts the whole process.
   */
  datatype Failure = NoCodeBlocks | FilenameMismatch | IndexPanic

  datatype Result<T> = Ok(value: T) | Err(error: Failure)

  /** The assembled files, keyed by target; None is the unnamed file. */
  type Files = map<Option<string>, seq<string>>

  // ---------------------------------------------------------------------------
  // What one chunk does to the lines of an existing file
  // ---------------------------------------------------------------------------

  /** How many lines a removal list takes away when it runs without a panic. */
  function RemovedCount(removals: seq<CodeRemove>): nat {
    if removals == [] then 0
    else StrideWidth(removals[0].first, removals[0].last) + RemovedCount(removals[1..])
  }

  /**
    `perform_removals`: each removal in listed order, each against the lines
    the previous one left.
   */
  function ApplyRemovals(s: seq<string>, removals: seq<CodeRemove>): (r: Option<seq<string>>)
    decreases |removals|
    ensures r.Some? ==> |r.value| + RemovedCount(removals) == |s|
  {
    if removals == [] then Some(s)
    else match StrideRemove(s, removals[0].first, removals[0].last)
      case None => None
      case Some(t) => ApplyRemovals(t, removals[1..])
  }

  /** The removals a chunk's metadata carries. */
  function MetaRemovals(meta: CodeMeta): seq<CodeRemove> {
    match meta
    case Diff(d) => d.removals
    case Insert(i) => i.removals
    case Append(a) => a.removals
  }

  /** The number of lines a Diff replaces. */
  function DiffWidth(d: CodeDiff): nat {
    StrideWidth(d.first, d.last)
  }

  /** How many existing lines the primary edit replaces: only a Diff replaces any. */
  function EditWidth(meta: CodeMeta): nat {
    if meta.Diff? then DiffWidth(meta.diff) else 0
  }

  /** The primary edit stays within the vector: the indices its `insert` and `remove` calls use exist. */
  predicate EditInRange(s: seq<string>, meta: CodeMeta, code: seq<string>) {
    match meta
    case Append(_) => true
    case Insert(i) => code == [] || i.line <= |s|
    case Diff(d) =>
      (DiffWidth(d) == 0 || d.first + DiffWidth(d) <= |s|) &&
      (code == [] || d.first + DiffWidth(d) <= |s|)
  }

  /**
    The primary edit of `add`, before the chunk's removals. It panics exactly
    when an index is out of range, and otherwise the file grows by the block
    and shrinks by the lines a Diff replaces.
   */
  function ApplyEdit(s: seq<string>, meta: CodeMeta, code: seq<string>): (r: Option<seq<string>>)
    ensures r.Some? <==> EditInRange(s, meta, code)
    ensures r.Some? ==> |r.value| + EditWidth(meta) == |s| + |code|
  {
    match meta
    case Append(_) => Some(s + code)
    case Insert(i) => InsertRun(s, i.line, code)
    case Diff(d) =>
      match RemoveRun(s, d.first, DiffWidth(d))
      case None => None
      case Some(t) => InsertRun(t, d.first, code)
  }

  /**
    `add` once the file name has matched: the edit, then the removals. It
    succeeds only when the edit does; without removals it is the edit alone;
    and a success changes the length by the block, the Diff's range and the
    removals' widths.
   */
  function ApplyMeta(s: seq<string>, meta: CodeMeta, code: seq<string>): (r: Option<seq<string>>)
    ensures r.Some? ==> ApplyEdit(s, meta, code).Some?
    ensures MetaRemovals(meta) == [] ==> r == ApplyEdit(s, meta, code)
    ensures r.Some? ==> |r.value| + EditWidth(meta) + RemovedCount(MetaRemovals(meta)) == |s| + |code|
  {
    match ApplyEdit(s, meta, code)
    case None => None
    case Some(t) => ApplyRemovals(t, MetaRemovals(meta))
  }

  // ---------------------------------------------------------------------------
  // What `from_blocks` computes
  // ---------------------------------------------------------------------------

  function Lookup(files: Files, k: Option<string>): Option<seq<string>> {
    if k in files then Some(files[k]) else None
  }

  /**
    One chunk against the slot of its target: the first chunk for a target
    creates the file from its lines verbatim, ignoring its mode and removals;
    every later one goes through `add`.
   */
  function Step(slot: Option<seq<string>>, c: CodeChunk): (r: Result<seq<string>>)
    ensures slot.None? ==> r == Ok(c.code)
    ensures r.Err? ==> slot.Some? && r.error == IndexPanic
    ensures slot.Some? ==> (r.Ok? <==> ApplyMeta(slot.value, c.meta, c.code).Some?)
    ensures slot.Some? && r.Ok? ==> r.value == ApplyMeta(slot.value, c.meta, c.code).value
  {
    match slot
    case None => Ok(c.code)
    case Some(s) =>
      match ApplyMeta(s, c.meta, c.code)
      case None => Err(IndexPanic)
      case Some(t) => Ok(t)
  }

  /** The targets `bs` names. */
  function Targets(bs: seq<CodeChunk>): set<Option<string>> {
    set i | 0 <= i < |bs| :: bs[i].file
  }

  /** The loop of `from_blocks`, from the files `acc` already holds. */
  function AssembleFrom(acc: Files, bs: seq<CodeChunk>): (r: Result<Files>)
    decreases |bs|
    ensures r.Err? ==> r.error == IndexPanic
    ensures r.Ok? ==> r.value.Keys == acc.Keys + Targets(bs)
  {
    if bs == [] then Ok(acc)
    else
      match Step(Lookup(acc, bs[0].file), bs[0])
      case Err(e) => Err(e)
      case Ok(t) =>
        var r := AssembleFrom(acc[bs[0].file := t], bs[1..]);
        assert Targets(bs) == {bs[0].file} + Targets(bs[1..]) by {
          forall k | k in Targets(bs) ensures k in {bs[0].file} + Targets(bs[1..]) {
            var i :| 0 <= i < |bs| && bs[i].file == k;
            if i > 0 { assert bs[1..][i - 1] == bs[i]; }
          }
          forall k | k in Targets(bs[1..]) ensures k in Targets(bs) {
            var i :| 0 <= i < |bs[1..]| && bs[1..][i].file == k;
            assert bs[i + 1] == bs[1..][i];
          }
        }
        r
  }

  /**
    `from_blocks`: an empty chunk list is an error; otherwise there is one file
    per distinct target, and a panic in any `add` aborts the whole run.
   */
  function Assemble(bs: seq<CodeChunk>): (r: Result<Files>)
    ensures bs == [] <==> r == Err(NoCodeBlocks)
    ensures r.Err? && bs != [] ==> r.error == IndexPanic
    ensures r.Ok? ==> r.value.Keys == Targets(bs)
  {
    if bs == [] then Err(NoCodeBlocks) else AssembleFrom(map[], bs)
  }

  // ---------------------------------------------------------------------------
  // Where `write_to_file` puts a file (the writing itself is not modelled)
  // ---------------------------------------------------------------------------

  /** `output_dir/name`, with the default file name for the unnamed target. */
  function OutputPath(name: Option<string>, outputDir: string, defaultFilename: string): (p: string)
    ensures |p| > |outputDir| && p[..|outputDir|] == outputDir && p[|outputDir|] == '/'
    ensures name.Some? ==> p[|outputDir| + 1..] == name.value
    ensures name.None? ==> p[|outputDir| + 1..] == defaultFilename
  {
    outputDir + "/" + match name
      case Some(n) => n
      case None => defaultFilename
  }

  /** Two different named targets are written to two different paths. */
  lemma DistinctTargetsDistinctPaths(n1: string, n2: string, outputDir: string, defaultFilename: string)
    requires n1 != n2
    ensures OutputPath(Some(n1), outputDir, defaultFilename) != OutputPath(Some(n2), outputDir, defaultFilename)
  {
    var prefix := outputDir + "/";
    assert (prefix + n1)[|prefix|..] == n1;
    assert (prefix + n2)[|prefix|..] == n2;
  }

  /** A target named like the default file is written to the same path as the unnamed target. */
  lemma DefaultNameCollides(outputDir: string, defaultFilename: string)
    ensures OutputPath(None, outputDir, defaultFilename) == OutputPath(Some(defaultFilename), outputDir, defaultFilename)
  {
  }

  // ---------------------------------------------------------------------------
  // The object
  // ---------------------------------------------------------------------------

  class CodeFile {
    var name: Option<string>
    var lines: seq<string>

    /** `CodeFile::new`: the chunk's lines as they are; its mode and removals are not applied. */
    constructor (chunk: CodeChunk)
      ensures name == chunk.file && lines == chunk.code
    {
      name := chunk.file;
      lines := chunk.code;
    }

    /** `perform_removals`. False when a `remove` would have panicked. */
    method PerformRemovals(removals: seq<CodeRemove>) returns (ok: bool)
      modifies this
      ensures name == old(name)
      ensures ok <==> ApplyRemovals(old(lines), removals).Some?
      ensures ok ==> lines == ApplyRemovals(old(lines), removals).value
    {
      for ri := 0 to |removals|
        invariant name == old(name)
        invariant ApplyRemovals(old(lines), removals) == ApplyRemovals(lines, removals[ri..])
      {
        var r := removals[ri];
        ghost var before := lines;
        var rdx := r.first;
        while rdx <= r.last
          invariant name == old(name)
          invariant r.first <= rdx
          invariant StrideRemove(lines, rdx, r.last) == StrideRemove(before, r.first, r.last)
          decreases r.last + 1 - rdx
        {
          if rdx >= |lines| {
            assert removals[ri..][0] == r;
            return false;
          }
          lines := VecRemove(lines, rdx);
          rdx := rdx + 1;
        }
        assert removals[ri..][0] == r && removals[ri..][1..] == removals[ri + 1..];
      }
      ok := true;
    }

    /** The insertion loop shared by Insert and Diff. False when an `insert` would have panicked. */
    method InsertLines(at: nat, code: seq<string>) returns (ok: bool)
      modifies this
      ensures name == old(name)
      ensures ok <==> InsertRun(old(lines), at, code).Some?
      ensures ok ==> lines == InsertRun(old(lines), at, code).value
    {
      for k := 0 to |code|
        invariant name == old(name)
        invariant InsertRun(lines, at + k, code[k..]) == InsertRun(old(lines), at, code)
      {
        if at + k > |lines| {
          return false;
        }
        assert code[k..][1..] == code[k + 1..];
        lines := VecInsert(lines, at + k, code[k]);
      }
      ok := true;
    }

    /** The Diff loop that removes position `first` once per index of `first..=last`. */
    method RemoveLines(first: nat, last: nat) returns (ok: bool)
      modifies this
      ensures name == old(name)
      ensures ok <==> RemoveRun(old(lines), first, StrideWidth(first, last)).Some?
      ensures ok ==> lines == RemoveRun(old(lines), first, StrideWidth(first, last)).value
    {
      var remaining := StrideWidth(first, last);
      while remaining > 0
        invariant name == old(name)
        invariant RemoveRun(lines, first, remaining) == RemoveRun(old(lines), first, StrideWidth(first, last))
      {
        if first >= |lines| {
          return false;
        }
        lines := VecRemove(lines, first);
        remaining := remaining - 1;
      }
      ok := true;
    }

    /**
      `add`: a chunk for another file is refused and changes nothing;
      otherwise the edit and the removals are applied in place.
     */
    method Add(chunk: CodeChunk) returns (r: Result<()>)
      modifies this
      ensures name == old(name)
      ensures chunk.file != name ==> r == Err(FilenameMismatch) && lines == old(lines)
      ensures chunk.file == name ==> (r.Ok? <==> ApplyMeta(old(lines), chunk.meta, chunk.code).Some?)
      ensures chunk.file == name && r.Err? ==> r.error == IndexPanic
      ensures r.Ok? ==> lines == ApplyMeta(old(lines), chunk.meta, chunk.code).value
    {
      if chunk.file != name {
        return Err(FilenameMismatch);
      }
      var ok: bool;
      match chunk.meta {
        case Append(a) =>
          lines := lines + chunk.code;
          ok := PerformRemovals(a.removals);
        case Insert(i) =>
          ok := InsertLines(i.line, chunk.code);
          if ok {
            ok := PerformRemovals(i.removals);
          }
        case Diff(d) =>
          ok := RemoveLines(d.first, d.last);
          if ok {
            ok := InsertLines(d.first, chunk.code);
          }
          if ok {
            ok := PerformRemovals(d.removals);
          }
      }
      r := if ok then Ok(()) else Err(IndexPanic);
    }

    /** The lines each file holds, by target. */
    static ghost function Snapshot(cfs: map<Option<string>, CodeFile>): Files
      reads set k | k in cfs :: cfs[k]
    {
      map k | k in cfs :: cfs[k].lines
    }

    /**
      `from_blocks`: one `CodeFile` per distinct target, each holding what
      `Assemble` says; the run fails exactly when `Assemble` does, for the
      same reason.
     */
    static method FromBlocks(blocks: seq<CodeChunk>) returns (r: Result<map<Option<string>, CodeFile>>)
      ensures r.Err? <==> Assemble(blocks).Err?
      ensures r.Err? ==> r.error == Assemble(blocks).error
      ensures r.Ok? ==> r.value.Keys == Assemble(blocks).value.Keys
      ensures r.Ok? ==> forall k | k in r.value :: fresh(r.value[k])
      ensures r.Ok? ==> forall k | k in r.value :: r.value[k].name == k && r.value[k].lines == Assemble(blocks).value[k]
    {
      if blocks == [] {
        return Err(NoCodeBlocks);
      }
      var cfs: map<Option<string>, CodeFile> := map[];
      for i := 0 to |blocks|
        invariant forall k | k in cfs :: fresh(cfs[k]) && cfs[k].name == k
        invariant forall k1, k2 | k1 in cfs && k2 in cfs && k1 != k2 :: cfs[k1] != cfs[k2]
        invariant AssembleFrom(map[], blocks) == AssembleFrom(Snapshot(cfs), blocks[i..])
      {
        var block := blocks[i];
        assert blocks[i..][0] == block && blocks[i..][1..] == blocks[i + 1..];
        ghost var was := Snapshot(cfs);
        if block.file in cfs {
          var f := cfs[block.file];
          var res := f.Add(block);
          if res.Err? {
            return Err(res.error);
          }
          assert Snapshot(cfs) == was[block.file := f.lines];
        } else {
          var f := new CodeFile(block);
          cfs := cfs[block.file := f];
          assert Snapshot(cfs) == was[block.file := block.code];
        }
      }
      assert blocks[|blocks|..] == [];
      r := Ok(cfs);
    }
  }
}
