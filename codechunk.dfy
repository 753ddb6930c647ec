/**
  The data model of one fenced code block (src/codechunk.rs): the metadata
  variants, the chunk record and its constructor, and the order in which the
  untagged metadata decoder tries the variants.
 */
module CodeChunks {

  import opened Options

  /** One more than the largest value of a 64-bit `usize`. */
  const UsizeLimit: int := 0x1_0000_0000_0000_0000

  /** An inclusive pair of line indices to remove after the chunk's own edit. */
  datatype CodeRemove = CodeRemove(first: nat, last: nat)

  /** Add the chunk's lines at the end of the file. */
  datatype CodeAppend = CodeAppend(file: Option<string>, removals: seq<CodeRemove>)

  /** Insert the chunk's lines so that the first one lands on `line`. */
  datatype CodeInsert = CodeInsert(file: Option<string>, line: nat, removals: seq<CodeRemove>)

  /** Replace the inclusive line range `first..=last` with the chunk's lines. */
  datatype CodeDiff = CodeDiff(file: Option<string>, first: nat, last: nat, removals: seq<CodeRemove>)

  /** The three modes, in the order the untagged decoder tries them. */
  datatype CodeMeta =
    | Diff(diff: CodeDiff)
    | Insert(insert: CodeInsert)
    | Append(append: CodeAppend)

  /** A code block: its target file, language tag, metadata and literal lines. */
  datatype CodeChunk = CodeChunk(file: Option<string>, lang: string, meta: CodeMeta, code: seq<string>)

  /** `CodeChunk::new`: no lines yet, and the target file taken from whichever variant `meta` holds. */
  function NewChunk(lang: string, meta: CodeMeta): (c: CodeChunk)
    ensures c.lang == lang && c.code == [] && c.meta == meta
    ensures meta.Diff? ==> c.file == meta.diff.file
    ensures meta.Insert? ==> c.file == meta.insert.file
    ensures meta.Append? ==> c.file == meta.append.file
  {
    var file := match meta
      case Diff(d) => d.file
      case Insert(i) => i.file
      case Append(a) => a.file;
    CodeChunk(file, lang, meta, [])
  }

  // ---------------------------------------------------------------------------
  // Decoding order. A metadata object is abstracted to the keys the decoder
  // looks at; a missing key (or `null` for `file`) is None. Numbers are JSON
  // integers, which may be negative or too large for a `usize`.
  // ---------------------------------------------------------------------------

  datatype RawRemove = RawRemove(first: Option<int>, last: Option<int>)

  datatype RawMeta = RawMeta(
    file: Option<string>,
    line: Option<int>,
    first: Option<int>,
    last: Option<int>,
    removals: Option<seq<RawRemove>>)

  /** The key is present and its integer fits a `usize`. */
  predicate IsUsize(n: Option<int>) {
    n.Some? && 0 <= n.value < UsizeLimit
  }

  /** A removal decodes exactly when both bounds fit a `usize`, and keeps them as given. */
  function DecodeRemove(r: RawRemove): (d: Option<CodeRemove>)
    ensures d.Some? <==> IsUsize(r.first) && IsUsize(r.last)
    ensures d.Some? ==> d.value.first == r.first.value && d.value.last == r.last.value
  {
    if IsUsize(r.first) && IsUsize(r.last) then Some(CodeRemove(r.first.value, r.last.value)) else None
  }

  /** A list of removals decodes when every entry does, keeping the listed order. */
  function DecodeRemoveList(rs: seq<RawRemove>): (d: Option<seq<CodeRemove>>)
    ensures d.Some? <==> forall i :: 0 <= i < |rs| ==> DecodeRemove(rs[i]).Some?
    ensures d.Some? ==> |d.value| == |rs| && forall i :: 0 <= i < |rs| ==> d.value[i] == DecodeRemove(rs[i]).value
  {
    if rs == [] then Some([])
    else match (DecodeRemove(rs[0]), DecodeRemoveList(rs[1..]))
      case (Some(r), Some(tail)) => Some([r] + tail)
      case _ => None
  }

  /** `#[serde(default)]`: a missing `removals` key is the empty list. */
  function DecodeRemovals(rs: Option<seq<RawRemove>>): (d: Option<seq<CodeRemove>>)
    ensures rs.None? ==> d == Some([])
    ensures d.Some? <==> rs.None? || forall i :: 0 <= i < |rs.value| ==> DecodeRemove(rs.value[i]).Some?
    ensures rs.Some? && d.Some? ==> |d.value| == |rs.value|
    ensures rs.Some? && d.Some? ==> forall i :: 0 <= i < |rs.value| ==> d.value[i] == DecodeRemove(rs.value[i]).value
  {
    match rs
    case None => Some([])
    case Some(list) => DecodeRemoveList(list)
  }

  function TryDiff(m: RawMeta): Option<CodeDiff> {
    if IsUsize(m.first) && IsUsize(m.last) then
      match DecodeRemovals(m.removals)
      case Some(rs) => Some(CodeDiff(m.file, m.first.value, m.last.value, rs))
      case None => None
    else None
  }

  function TryInsert(m: RawMeta): Option<CodeInsert> {
    if IsUsize(m.line) then
      match DecodeRemovals(m.removals)
      case Some(rs) => Some(CodeInsert(m.file, m.line.value, rs))
      case None => None
    else None
  }

  function TryAppend(m: RawMeta): Option<CodeAppend> {
    match DecodeRemovals(m.removals)
    case Some(rs) => Some(CodeAppend(m.file, rs))
    case None => None
  }

  /**
    The untagged decoder: the first variant, in declaration order, that
    decodes wins. None is the decode error.
   */
  function DecodeMeta(m: RawMeta): (r: Option<CodeMeta>)
    ensures r.Some? <==> DecodeRemovals(m.removals).Some?
    ensures r.Some? && IsUsize(m.first) && IsUsize(m.last) ==>
      r.value == Diff(CodeDiff(m.file, m.first.value, m.last.value, DecodeRemovals(m.removals).value))
    ensures r.Some? && !(IsUsize(m.first) && IsUsize(m.last)) && IsUsize(m.line) ==>
      r.value == Insert(CodeInsert(m.file, m.line.value, DecodeRemovals(m.removals).value))
    ensures r.Some? && !(IsUsize(m.first) && IsUsize(m.last)) && !IsUsize(m.line) ==>
      r.value == Append(CodeAppend(m.file, DecodeRemovals(m.removals).value))
  {
    match TryDiff(m)
    case Some(d) => Some(Diff(d))
    case None =>
      match TryInsert(m)
      case Some(i) => Some(Insert(i))
      case None =>
        match TryAppend(m)
        case Some(a) => Some(Append(a))
        case None => None
  }

  /** The empty object `{}` is an Append to the unnamed file with no removals. */
  lemma EmptyObjectIsAppend()
    ensures DecodeMeta(RawMeta(None, None, None, None, None)) == Some(Append(CodeAppend(None, [])))
  {
  }

  /** Without a `removals` key every variant decodes with an empty removal list. */
  lemma MissingRemovalsAreEmpty(m: RawMeta)
    requires m.removals.None?
    ensures DecodeMeta(m).Some?
    ensures match DecodeMeta(m).value
      case Diff(d) => d.removals == []
      case Insert(i) => i.removals == []
      case Append(a) => a.removals == []
  {
  }

  /** A `line` key loses to a complete `first`/`last` pair. */
  lemma DiffWinsOverInsert(m: RawMeta)
    requires IsUsize(m.first) && IsUsize(m.last) && IsUsize(m.line)
    requires DecodeRemovals(m.removals).Some?
    ensures DecodeMeta(m).Some? && DecodeMeta(m).value.Diff?
    ensures DecodeMeta(m).value.diff.first == m.first.value && DecodeMeta(m).value.diff.last == m.last.value
  {
  }

  /** `first` without `last` is not a Diff: with a `line` key it decodes as Insert. */
  lemma HalfRangeFallsThroughToInsert(file: Option<string>, first: int, line: nat)
    requires line < UsizeLimit
    ensures DecodeMeta(RawMeta(file, Some(line), Some(first), None, None)) == Some(Insert(CodeInsert(file, line, [])))
  {
  }

  /** The `deser_remove` test: `{ "first": 10, "last": 20 }`. */
  lemma DecodeRemoveExample()
    ensures DecodeRemove(RawRemove(Some(10), Some(20))) == Some(CodeRemove(10, 20))
  {
  }

  /** The `deser_diff` test: a Diff keeps its range and its removals in listed order. */
  lemma DecodeDiffExample()
    ensures var m := DecodeMeta(RawMeta(None, None, Some(10), Some(20),
                                        Some([RawRemove(Some(24), Some(27)), RawRemove(Some(30), Some(31))])));
      m.Some? && m.value.Diff? && m.value.diff.first == 10 && m.value.diff.last == 20 &&
      |m.value.diff.removals| == 2 && m.value.diff.removals[0].first == 24 && m.value.diff.removals[1].last == 31
  {
    var raw := [RawRemove(Some(24), Some(27)), RawRemove(Some(30), Some(31))];
    assert DecodeRemove(raw[0]) == Some(CodeRemove(24, 27));
    assert DecodeRemove(raw[1]) == Some(CodeRemove(30, 31));
  }

  /** A malformed removal entry makes every variant fail, Append included. */
  lemma BadRemovalIsDecodeError(m: RawMeta, i: nat)
    requires m.removals.Some? && i < |m.removals.value|
    requires m.removals.value[i].first.None?
    ensures DecodeMeta(m).None?
  {
    assert DecodeRemove(m.removals.value[i]).None?;
  }
}
