/**
  The `Vec` operations the assembler uses and the three loop shapes built from
  them in src/codefile.rs. Each loop shape is a recursive function that takes
  one step per loop iteration; None stands for the panic Rust raises on an
  out-of-range `insert` or `remove`.
 */
module VecOps {

  import opened Options

  /** `Vec::insert(i, x)`; Rust panics when `i > len`. */
  function VecInsert<T>(s: seq<T>, i: nat, x: T): (r: seq<T>)
    requires i <= |s|
    ensures |r| == |s| + 1 && r[i] == x
    ensures forall j :: 0 <= j < i ==> r[j] == s[j]
    ensures forall j :: i < j < |r| ==> r[j] == s[j - 1]
  {
    s[..i] + [x] + s[i..]
  }

  /** `Vec::remove(i)`; Rust panics when `i >= len`. */
  function VecRemove<T>(s: seq<T>, i: nat): (r: seq<T>)
    requires i < |s|
    ensures |r| == |s| - 1
    ensures forall j :: 0 <= j < i ==> r[j] == s[j]
    ensures forall j :: i <= j < |r| ==> r[j] == s[j + 1]
  {
    s[..i] + s[i + 1..]
  }

  /**
    Insert `code[k]` at `at + k` for k = 0, 1, ... in turn: the block lands
    contiguously at `at`. An empty block never touches the vector, so it never
    panics, whatever `at` is.
   */
  function InsertRun<T>(s: seq<T>, at: nat, code: seq<T>): (r: Option<seq<T>>)
    decreases |code|
    ensures r.Some? <==> code == [] || at <= |s|
    ensures r.Some? && code == [] ==> r.value == s
    ensures r.Some? && code != [] ==> r.value == s[..at] + code + s[at..]
  {
    if code == [] then Some(s)
    else if at <= |s| then
      var t := VecInsert(s, at, code[0]);
      var r := InsertRun(t, at + 1, code[1..]);
      assert t[..at + 1] == s[..at] + [code[0]];
      assert t[at + 1..] == s[at..];
      assert code == [code[0]] + code[1..];
      r
    else None
  }

  /**
    Remove position `at` `n` times in a row (the Diff loop): the `n` lines
    starting at `at` go, and all of them must exist.
   */
  function RemoveRun<T>(s: seq<T>, at: nat, n: nat): (r: Option<seq<T>>)
    ensures r.Some? <==> n == 0 || at + n <= |s|
    ensures r.Some? && n == 0 ==> r.value == s
    ensures r.Some? && n > 0 ==> r.value == s[..at] + s[at + n..]
  {
    if n == 0 then Some(s)
    else if at < |s| then
      var t := VecRemove(s, at);
      var r := RemoveRun(t, at, n - 1);
      assert t[..at] == s[..at];
      assert t[at..] == s[at + 1..];
      r
    else None
  }

  /**
    Remove position `rdx`, then `rdx + 1`, ... up to `last` inclusive, each on
    the vector the previous removal left (the removal loop). Nothing happens
    when `last < rdx`.
   */
  function StrideRemove<T>(s: seq<T>, rdx: nat, last: nat): (r: Option<seq<T>>)
    decreases last + 1 - rdx
    ensures r.Some? <==> last < rdx || rdx + 2 * (last - rdx) < |s|
    ensures last < rdx ==> r == Some(s)
    ensures r.Some? ==> |r.value| == |s| - StrideWidth(rdx, last)
  {
    if last < rdx then Some(s)
    else if rdx < |s| then StrideRemove(VecRemove(s, rdx), rdx + 1, last)
    else None
  }

  /** How many iterations `first..=last` runs. */
  function StrideWidth(first: nat, last: nat): nat {
    if first <= last then last - first + 1 else 0
  }

  /**
    The removal loop over `first..=last` deletes the ORIGINAL positions
    first, first + 2, ..., first + 2 * (last - first): the lines before
    `first` stay, the lines in between close up, and the tail shifts left by
    the number removed.
   */
  lemma {:induction false} StrideRemoveDeletesEveryOther<T>(s: seq<T>, first: nat, last: nat)
    requires first <= last && first + 2 * (last - first) < |s|
    ensures var r := StrideRemove(s, first, last).value;
      var n := last - first + 1;
      |r| == |s| - n &&
      (forall j :: 0 <= j < first ==> r[j] == s[j]) &&
      (forall k :: 0 <= k < n - 1 ==> r[first + k] == s[first + 2 * k + 1]) &&
      (forall j :: first + n - 1 <= j < |r| ==> r[j] == s[j + n])
  {
    var t := VecRemove(s, first);
    var r := StrideRemove(s, first, last).value;
    var n := last - first + 1;
    assert r == StrideRemove(t, first + 1, last).value;
    if first == last {
      assert r == t;
    } else {
      StrideRemoveDeletesEveryOther(t, first + 1, last);
      forall k | 0 <= k < n - 1
        ensures r[first + k] == s[first + 2 * k + 1]
      {
        if k == 0 {
          assert r[first] == t[first];
        } else {
          assert r[first + 1 + (k - 1)] == t[first + 1 + 2 * (k - 1) + 1];
        }
      }
      forall j | first + n - 1 <= j < |r|
        ensures r[j] == s[j + n]
      {
        assert r[j] == t[j + n - 1];
      }
    }
  }

  /** Two removals of the single line 2 on five lines delete original lines 2 and 3. */
  lemma RemovalsCompoundExample<T>(s: seq<T>)
    requires |s| == 5
    ensures StrideRemove(s, 2, 2).Some?
    ensures StrideRemove(StrideRemove(s, 2, 2).value, 2, 2) == Some([s[0], s[1], s[4]])
  {
    assert StrideRemove(s, 2, 2) == Some(VecRemove(s, 2));
    var t := VecRemove(s, 2);
    assert StrideRemove(t, 2, 2) == Some(VecRemove(t, 2));
    assert VecRemove(t, 2) == [s[0], s[1], s[4]];
  }
}
