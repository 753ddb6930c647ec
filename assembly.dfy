/**
  Properties of the assembler: what each mode does to a file, that files with
  different targets never interact, and the scenarios of the source's tests and a
  few worked examples.
 */
module Assembly {

  import opened Options
  import opened CodeChunks
  import opened VecOps
  import opened CodeFiles

  // ---------------------------------------------------------------------------
  // One chunk on one file
  // ---------------------------------------------------------------------------

  /** Append without removals puts the block after the existing lines. */
  lemma AppendEdit(s: seq<string>, file: Option<string>, code: seq<string>)
    ensures ApplyMeta(s, Append(CodeAppend(file, [])), code) == Some(s + code)
  {
  }

  /**
    Insert at `line` without removals: defined exactly when the block is empty
    or `line` is within the file; then the lines before `line` stay, the block
    follows, and the rest shifts right by the block's length.
   */
  lemma InsertEdit(s: seq<string>, file: Option<string>, line: nat, code: seq<string>)
    ensures var r := ApplyMeta(s, Insert(CodeInsert(file, line, [])), code);
      (r.Some? <==> code == [] || line <= |s|) &&
      (r.Some? && code != [] ==>
         |r.value| == |s| + |code| &&
         (forall j :: 0 <= j < line ==> r.value[j] == s[j]) &&
         (forall j :: 0 <= j < |code| ==> r.value[line + j] == code[j]) &&
         (forall j :: line <= j < |s| ==> r.value[j + |code|] == s[j]))
  {
  }

  /**
    Diff over an existing inclusive range without removals: the range is
    replaced by the block.
   */
  lemma DiffEdit(s: seq<string>, file: Option<string>, first: nat, last: nat, code: seq<string>)
    requires first <= last < |s|
    ensures ApplyMeta(s, Diff(CodeDiff(file, first, last, [])), code) == Some(s[..first] + code + s[last + 1..])
  {
    var t := s[..first] + s[last + 1..];
    assert RemoveRun(s, first, last - first + 1) == Some(t);
    assert t[..first] == s[..first] && t[first..] == s[last + 1..];
    if code == [] {
      assert t == s[..first] + code + s[last + 1..];
    }
  }

  /** A Diff whose range runs past the end of the file panics. */
  lemma DiffPastEndPanics(s: seq<string>, d: CodeDiff, code: seq<string>)
    requires d.first <= d.last && |s| <= d.last
    ensures ApplyMeta(s, Diff(d), code).None?
  {
  }

  /** A Diff with `last < first` removes nothing: it is an Insert at `first`. */
  lemma EmptyDiffIsInsert(s: seq<string>, d: CodeDiff, code: seq<string>)
    requires d.last < d.first
    ensures ApplyMeta(s, Diff(d), code) == ApplyMeta(s, Insert(CodeInsert(d.file, d.first, d.removals)), code)
  {
  }

  /** Replacing one existing line with one line keeps the length. */
  lemma OneForOneDiffKeepsLength(s: seq<string>, file: Option<string>, at: nat, line: string)
    requires at < |s|
    ensures ApplyMeta(s, Diff(CodeDiff(file, at, at, [])), [line]) == Some(s[at := line])
  {
    DiffEdit(s, file, at, at, [line]);
    assert s[..at] + [line] + s[at + 1..] == s[at := line];
  }

  // ---------------------------------------------------------------------------
  // Removal lists
  // ---------------------------------------------------------------------------

  /**
    A removal list runs left to right: the second part sees exactly what the
    first part left, and a panic in the first part ends the run.
   */
  lemma {:induction false} ApplyRemovalsSplit(s: seq<string>, a: seq<CodeRemove>, b: seq<CodeRemove>)
    decreases |a|
    ensures ApplyRemovals(s, a + b) ==
      match ApplyRemovals(s, a)
      case None => None
      case Some(t) => ApplyRemovals(t, b)
  {
    if a == [] {
      assert a + b == b;
    } else {
      assert (a + b)[0] == a[0];
      assert (a + b)[1..] == a[1..] + b;
      match StrideRemove(s, a[0].first, a[0].last)
      case None =>
      case Some(t) =>
        ApplyRemovalsSplit(t, a[1..], b);
    }
  }

  /** A single removal is the removal loop over its range. */
  lemma SingleRemoval(s: seq<string>, r: CodeRemove)
    ensures ApplyRemovals(s, [r]) == StrideRemove(s, r.first, r.last)
  {
  }

  /** Removals `{2,2}` then `{2,2}` on five lines delete original lines 2 and 3. */
  lemma CompoundRemovalsExample(s: seq<string>)
    requires |s| == 5
    ensures ApplyRemovals(s, [CodeRemove(2, 2), CodeRemove(2, 2)]) == Some([s[0], s[1], s[4]])
  {
    RemovalsCompoundExample(s);
    var t := StrideRemove(s, 2, 2).value;
    ApplyRemovalsSplit(s, [CodeRemove(2, 2)], [CodeRemove(2, 2)]);
    SingleRemoval(s, CodeRemove(2, 2));
    SingleRemoval(t, CodeRemove(2, 2));
  }

  /**
    An Append that carries a removal `{0,1}`: after appending `e` to
    `a b c d`, the loop removes position 0 (`a`) and then position 1 of what
    is left (`c`), leaving `b d e`.
   */
  lemma AppendWithRemovalExample()
    ensures ApplyMeta(["a", "b", "c", "d"], Append(CodeAppend(None, [CodeRemove(0, 1)])), ["e"]) == Some(["b", "d", "e"])
  {
    var s := ["a", "b", "c", "d", "e"];
    assert ["a", "b", "c", "d"] + ["e"] == s;
    SingleRemoval(s, CodeRemove(0, 1));
    var t := VecRemove(s, 0);
    assert t == ["b", "c", "d", "e"];
    assert StrideRemove(s, 0, 1) == StrideRemove(t, 1, 1);
    assert VecRemove(t, 1) == ["b", "d", "e"];
    assert StrideRemove(t, 1, 1) == StrideRemove(VecRemove(t, 1), 2, 1);
  }

  // ---------------------------------------------------------------------------
  // Targets never interact
  // ---------------------------------------------------------------------------

  /** The chunks of `bs` aimed at target `k`, in order. */
  function Filter(bs: seq<CodeChunk>, k: Option<string>): (r: seq<CodeChunk>)
    ensures forall c :: c in r ==> c in bs && c.file == k
  {
    if bs == [] then [] else (if bs[0].file == k then [bs[0]] else []) + Filter(bs[1..], k)
  }

  /** The chunks of one target, run from the slot that target starts with. */
  function KeyRun(slot: Option<seq<string>>, cs: seq<CodeChunk>): Result<Option<seq<string>>>
    decreases |cs|
  {
    if cs == [] then Ok(slot)
    else
      match Step(slot, cs[0])
      case Err(e) => Err(e)
      case Ok(t) => KeyRun(Some(t), cs[1..])
  }

  /**
    The whole loop succeeds exactly when every target's own chunks, run on
    their own, succeed; and then each target ends with what its own run gives.
   */
  lemma {:induction false} AssembleFromPerTarget(acc: Files, bs: seq<CodeChunk>)
    decreases |bs|
    ensures AssembleFrom(acc, bs).Ok? <==> forall k :: KeyRun(Lookup(acc, k), Filter(bs, k)).Ok?
    ensures AssembleFrom(acc, bs).Ok? ==>
      forall k :: KeyRun(Lookup(acc, k), Filter(bs, k)).value == Lookup(AssembleFrom(acc, bs).value, k)
  {
    if bs == [] {
      forall k ensures KeyRun(Lookup(acc, k), Filter(bs, k)) == Ok(Lookup(acc, k)) {
        assert Filter(bs, k) == [];
      }
    } else {
      var b := bs[0];
      assert Filter(bs, b.file) == [b] + Filter(bs[1..], b.file);
      assert ([b] + Filter(bs[1..], b.file))[1..] == Filter(bs[1..], b.file);
      match Step(Lookup(acc, b.file), b)
      case Err(e) =>
        assert KeyRun(Lookup(acc, b.file), Filter(bs, b.file)).Err?;
      case Ok(t) =>
        var acc' := acc[b.file := t];
        AssembleFromPerTarget(acc', bs[1..]);
        forall k
          ensures KeyRun(Lookup(acc, k), Filter(bs, k)) == KeyRun(Lookup(acc', k), Filter(bs[1..], k))
        {
          if k != b.file {
            assert Filter(bs, k) == Filter(bs[1..], k);
          }
        }
    }
  }

  lemma MapsEqualByLookup(m1: Files, m2: Files)
    requires forall k :: Lookup(m1, k) == Lookup(m2, k)
    ensures m1 == m2
  {
    assert forall k :: k in m1 <==> Lookup(m1, k).Some?;
    assert forall k :: k in m2 <==> Lookup(m2, k).Some?;
  }

  lemma {:induction false} FilterTwice(bs: seq<CodeChunk>, k: Option<string>, k': Option<string>)
    decreases |bs|
    ensures Filter(Filter(bs, k), k') == if k == k' then Filter(bs, k) else []
  {
    if bs != [] {
      FilterTwice(bs[1..], k, k');
      var rest := Filter(bs[1..], k);
      if bs[0].file == k {
        assert Filter(bs, k) == [bs[0]] + rest;
        assert ([bs[0]] + rest)[1..] == rest;
        assert Filter([bs[0]] + rest, k') == (if k == k' then [bs[0]] else []) + Filter(rest, k');
      } else {
        assert Filter(bs, k) == rest;
      }
    }
  }

  /**
    Running only the chunks of one target gives that target alone, with the
    same lines it ends with in the full run.
   */
  lemma TargetInIsolation(bs: seq<CodeChunk>, k: Option<string>)
    requires Assemble(bs).Ok? && k in Assemble(bs).value
    ensures Assemble(Filter(bs, k)) == Ok(map[k := Assemble(bs).value[k]])
  {
    var full := Assemble(bs).value;
    var only := Filter(bs, k);
    AssembleFromPerTarget(map[], bs);
    assert KeyRun(None, only).value == Some(full[k]);
    assert only != [];
    forall k' ensures KeyRun(Lookup(map[], k'), Filter(only, k')).Ok? {
      FilterTwice(bs, k, k');
      if k' == k {
      } else {
        assert Filter(only, k') == [];
      }
    }
    AssembleFromPerTarget(map[], only);
    var iso := Assemble(only).value;
    forall k' ensures Lookup(iso, k') == Lookup(map[k := full[k]], k') {
      FilterTwice(bs, k, k');
    }
    MapsEqualByLookup(iso, map[k := full[k]]);
  }

  /** A panic in one target's chunks, run on their own, aborts the whole run. */
  lemma TargetPanicAbortsRun(bs: seq<CodeChunk>, k: Option<string>)
    requires KeyRun(None, Filter(bs, k)).Err?
    ensures Assemble(bs) == Err(IndexPanic)
  {
    AssembleFromPerTarget(map[], bs);
  }

  // ---------------------------------------------------------------------------
  // Seeding and runs of Appends
  // ---------------------------------------------------------------------------

  /**
    The first chunk for a target, wherever it comes in the run, creates the
    file from its lines verbatim, whatever its mode and removals; the run then
    goes on from there.
   */
  lemma FirstSightingSeedsVerbatim(acc: Files, c: CodeChunk, rest: seq<CodeChunk>)
    requires c.file !in acc
    ensures AssembleFrom(acc, [c] + rest) == AssembleFrom(acc[c.file := c.code], rest)
  {
  }

  /** A run of one chunk is that chunk's lines, under its target. */
  lemma FirstChunkSeedsVerbatim(c: CodeChunk)
    ensures Assemble([c]) == Ok(map[c.file := c.code])
  {
    FirstSightingSeedsVerbatim(map[], c, []);
    assert [c] + [] == [c];
    assert map[][c.file := c.code] == map[c.file := c.code];
  }

  /** The lines of all chunks of `cs`, in order. */
  function Concat(cs: seq<CodeChunk>): (r: seq<string>)
    decreases |cs|
  {
    if cs == [] then [] else cs[0].code + Concat(cs[1..])
  }

  /** Every chunk targets `k` and appends without removals. */
  predicate PlainAppends(cs: seq<CodeChunk>, k: Option<string>) {
    forall i :: 0 <= i < |cs| ==> cs[i].file == k && cs[i].meta.Append? && cs[i].meta.append.removals == []
  }

  lemma {:induction false} AppendsFrom(s: seq<string>, cs: seq<CodeChunk>, k: Option<string>)
    requires PlainAppends(cs, k)
    decreases |cs|
    ensures AssembleFrom(map[k := s], cs) == Ok(map[k := s + Concat(cs)])
  {
    if cs != [] {
      var c := cs[0];
      assert ApplyMeta(s, c.meta, c.code) == Some(s + c.code);
      assert Step(Lookup(map[k := s], c.file), c) == Ok(s + c.code);
      assert forall i :: 0 <= i < |cs[1..]| ==> cs[1..][i] == cs[i + 1];
      assert c.file == k;
      assert map[k := s][k := s + c.code] == map[k := s + c.code];
      assert AssembleFrom(map[k := s], cs) == AssembleFrom(map[k := s + c.code], cs[1..]);
      AppendsFrom(s + c.code, cs[1..], k);
      assert s + c.code + Concat(cs[1..]) == s + Concat(cs);
    } else {
      assert s + Concat(cs) == s;
    }
  }

  /**
    A target seeded by any chunk and then given only Appends without removals
    yields the concatenation of all their lines, the seed's first.
   */
  lemma AppendsConcatenate(cs: seq<CodeChunk>, k: Option<string>)
    requires cs != [] && cs[0].file == k && PlainAppends(cs[1..], k)
    ensures Assemble(cs) == Ok(map[k := Concat(cs)])
  {
    assert cs == [cs[0]] + cs[1..];
    FirstSightingSeedsVerbatim(map[], cs[0], cs[1..]);
    assert map[][k := cs[0].code] == map[k := cs[0].code];
    AppendsFrom(cs[0].code, cs[1..], k);
    assert cs[0].code + Concat(cs[1..]) == Concat(cs);
  }

  // ---------------------------------------------------------------------------
  // Scenarios
  // ---------------------------------------------------------------------------

  /** The `append_codefile` test: two two-line Appends to the unnamed file give four lines. */
  lemma AppendTestExample()
    ensures var cb0 := CodeChunk(None, "rust", Append(CodeAppend(None, [])), ["line 0", "line 1"]);
      var cb1 := CodeChunk(None, "rust", Append(CodeAppend(None, [])), ["line 2", "line 3"]);
      Assemble([cb0, cb1]) == Ok(map[None := ["line 0", "line 1", "line 2", "line 3"]])
  {
    var cb0 := CodeChunk(None, "rust", Append(CodeAppend(None, [])), ["line 0", "line 1"]);
    var cb1 := CodeChunk(None, "rust", Append(CodeAppend(None, [])), ["line 2", "line 3"]);
    assert [cb0, cb1][1..] == [cb1] && [cb1][1..] == [];
    AppendsConcatenate([cb0, cb1], None);
    assert Concat([cb1]) == cb1.code;
    assert Concat([cb0, cb1]) == cb0.code + cb1.code == ["line 0", "line 1", "line 2", "line 3"];
  }

  /** Four appended lines, then a Diff of lines 1..=2 with one line. */
  lemma AppendThenDiffExample()
    ensures var c0 := CodeChunk(None, "rust", Append(CodeAppend(None, [])), ["a", "b", "c", "d"]);
      var c1 := CodeChunk(None, "rust", Diff(CodeDiff(None, 1, 2, [])), ["x"]);
      Assemble([c0, c1]) == Ok(map[None := ["a", "x", "d"]])
  {
    var s := ["a", "b", "c", "d"];
    var c0 := CodeChunk(None, "rust", Append(CodeAppend(None, [])), s);
    var c1 := CodeChunk(None, "rust", Diff(CodeDiff(None, 1, 2, [])), ["x"]);
    DiffEdit(s, None, 1, 2, ["x"]);
    assert s[..1] + ["x"] + s[3..] == ["a", "x", "d"];
    assert [c0, c1][1..] == [c1] && [c1][1..] == [];
    assert AssembleFrom(map[], [c0, c1]) == AssembleFrom(map[None := s], [c1]);
    assert Step(Lookup(map[None := s], None), c1) == Ok(["a", "x", "d"]);
    var none: Option<string> := None;
    assert map[none := s][none := ["a", "x", "d"]] == map[none := ["a", "x", "d"]];
    assert AssembleFrom(map[none := s], [c1]) == AssembleFrom(map[none := ["a", "x", "d"]], []);
  }

  /** A Diff as the first chunk of a target is not applied: the file is its lines. */
  lemma DiffAsFirstChunkIsNotApplied()
    ensures var c := CodeChunk(Some("main.rs"), "rust", Diff(CodeDiff(Some("main.rs"), 1, 2, [])), ["x", "y"]);
      Assemble([c]) == Ok(map[Some("main.rs") := ["x", "y"]])
  {
    var c := CodeChunk(Some("main.rs"), "rust", Diff(CodeDiff(Some("main.rs"), 1, 2, [])), ["x", "y"]);
    FirstChunkSeedsVerbatim(c);
  }

  /** The `append_codefile` test, driven through the object's own methods. */
  method AppendCodefileTest() returns (lines: seq<string>)
    ensures lines == ["line 0", "line 1", "line 2", "line 3"]
  {
    var cb0 := CodeChunk(None, "rust", Append(CodeAppend(None, [])), ["line 0", "line 1"]);
    var cb1 := CodeChunk(None, "rust", Append(CodeAppend(None, [])), ["line 2", "line 3"]);
    var cf := new CodeFile(cb0);
    var r := cf.Add(cb1);
    assert r.Ok?;
    lines := cf.lines;
  }
}
