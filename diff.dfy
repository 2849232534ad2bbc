/**
 * The patch text attached to a changed file (src/core.js): the equal-width
 * revision labels (`prefixPad`), the arguments handed to the diff library, and
 * the post-processing of the patch it returns (`getDiff`).
 *
 * The diff library's `createTwoFilesPatch` is not part of this model: it is a
 * parameter, a function from the request to the patch text.
 */
module Diff {
  import opened Wrappers
  import opened Text

  // ---------------------------------------------------------------------------
  // prefixPad

  function Max(a: nat, b: nat): nat {
    if a < b then b else a
  }

  /** The length of the longest item, folded from the left as `reduce` does. */
  function MaxLength(items: seq<string>): (n: nat)
    requires |items| > 0
    ensures forall i :: 0 <= i < |items| ==> |items[i]| <= n
    ensures exists i :: 0 <= i < |items| && |items[i]| == n
  {
    if |items| == 1 then |items[0]|
    else
      var init := items[..|items| - 1];
      assert forall i :: 0 <= i < |init| ==> init[i] == items[i];
      Max(MaxLength(init), |items[|items| - 1]|)
  }

  /**
   * `s.padStart(n)`: leading spaces up to length `n`; a string already that
   * long comes back unchanged.
   */
  function PadStart(s: string, n: nat): (r: string)
    ensures |r| == Max(|s|, n)
    ensures EndsWith(r, s)
    ensures forall i :: 0 <= i < |r| - |s| ==> r[i] == ' '
    ensures |s| >= n ==> r == s
  {
    if |s| >= n then s else Spaces(n - |s|) + s
  }

  /** What `prefixPad` yields: every item padded on the left to the length of the longest one. */
  function PadAll(items: seq<string>): (out: seq<string>)
    requires |items| > 0
    ensures |out| == |items|
  {
    seq(|items|, i requires 0 <= i < |items| => PadStart(items[i], MaxLength(items)))
  }

  /**
   * Every output of `PadAll` has the longest length, ends with its item, adds
   * only spaces, and an item already of that length is kept as it is.
   */
  lemma PadAllPads(items: seq<string>)
    requires |items| > 0
    ensures var out := PadAll(items);
            && (forall i :: 0 <= i < |out| ==> |out[i]| == MaxLength(items))
            && (forall i :: 0 <= i < |out| ==> EndsWith(out[i], items[i]))
            && (forall i, k :: 0 <= i < |out| && 0 <= k < |out[i]| - |items[i]| ==> out[i][k] == ' ')
            && (forall i :: 0 <= i < |out| && |items[i]| == MaxLength(items) ==> out[i] == items[i])
  {
    var out := PadAll(items);
    forall i | 0 <= i < |out| ensures |out[i]| == MaxLength(items) {
      assert |items[i]| <= MaxLength(items);
    }
  }

  /** The `reduce` of `prefixPad`, done right: the longest length, scanning left to right. */
  method LongestLength(items: seq<string>) returns (length: nat)
    requires |items| > 0
    ensures length == MaxLength(items)
  {
    length := |items[0]|;
    var i := 1;
    while i < |items|
      invariant 1 <= i <= |items|
      invariant length == MaxLength(items[..i])
    {
      assert items[..i + 1][..i] == items[..i];
      length := Max(length, |items[i]|);
      i := i + 1;
    }
    assert items[..i] == items;
  }

  /**
   * `prefixPad(...items)`: first the longest length (the `reduce`), then each
   * item, padded when it is shorter (the generator's loop).
   */
  method PrefixPad(items: seq<string>) returns (out: seq<string>)
    requires |items| > 0
    ensures out == PadAll(items)
  {
    var length := LongestLength(items);
    ghost var padded := PadAll(items);
    out := [];
    for j := 0 to |items|
      invariant out == padded[..j]
    {
      var item := items[j];
      assert padded[j] == PadStart(item, length);
      out := out + [if |item| == length then item else PadStart(item, length)];
      assert padded[..j + 1] == padded[..j] + [padded[j]];
    }
    assert padded[..|items|] == padded;
  }

  /**
   * The value `reduce((a, b) => Math.max(a.length, b.length))` leaves behind
   * without an initial value: the first item itself, then a number, and once
   * the accumulator is a number its `length` is undefined and `Math.max`
   * gives NaN.
   */
  datatype Reduced = FirstItem(s: string) | Number(n: nat) | NaN

  function ReduceAsWritten(items: seq<string>): (r: Reduced)
    requires |items| > 0
  {
    if |items| == 1 then FirstItem(items[0])
    else
      match ReduceAsWritten(items[..|items| - 1])
      case FirstItem(a) => Number(Max(|a|, |items[|items| - 1]|))
      case _ => NaN
  }

  /**
   * `prefixPad` as written, for two items or more: `padStart(NaN)` pads to
   * length 0, that is, not at all.
   */
  function PrefixPadAsWritten(items: seq<string>): (out: seq<string>)
    requires |items| >= 2
    ensures |out| == |items|
  {
    var length := ReduceAsWritten(items);
    seq(|items|, i requires 0 <= i < |items| =>
      match length
      case Number(n) => if |items[i]| == n then items[i] else PadStart(items[i], n)
      case _ => items[i])
  }

  /** With exactly two items, as every caller passes, the code as written pads correctly. */
  lemma PrefixPadAsWrittenAgreesOnPairs(a: string, b: string)
    ensures PrefixPadAsWritten([a, b]) == PadAll([a, b])
  {
    var items := [a, b];
    var n := Max(|a|, |b|);
    assert items[..|items| - 1] == [a];
    assert MaxLength(items) == n;
    assert ReduceAsWritten(items) == Number(n);
    var written, padded := PrefixPadAsWritten(items), PadAll(items);
    assert written[0] == padded[0] by {
      assert padded[0] == PadStart(a, n);
    }
    assert written[1] == padded[1] by {
      assert padded[1] == PadStart(b, n);
    }
  }

  /** With three items the reduced length is NaN and nothing gets padded. */
  lemma PrefixPadAsWrittenSkipsThree()
    ensures PrefixPadAsWritten(["a", "bb", "ccc"]) == ["a", "bb", "ccc"]
    ensures PadAll(["a", "bb", "ccc"]) == ["  a", " bb", "ccc"]
  {
    var items := ["a", "bb", "ccc"];
    assert items[..2] == ["a", "bb"];
    assert items[..2][..1] == ["a"];
    assert ReduceAsWritten(items) == NaN;
    assert MaxLength(items) == 3 by {
      assert MaxLength(items[..2]) == 2;
    }
    assert PadStart("a", 3) == "  a";
    assert PadStart("bb", 3) == " bb";
  }

  // ---------------------------------------------------------------------------
  // The request handed to createTwoFilesPatch

  /** The six arguments of `createTwoFilesPatch`. */
  datatype PatchRequest = PatchRequest(
    oldFileName: string, newFileName: string,
    oldStr: string, newStr: string,
    oldHeader: string, newHeader: string)

  const DevNull: string := "/dev/null"

  /**
   * The request for one changed file: an absent side is named `/dev/null` and
   * diffed as the empty text, and the two revision labels are padded with
   * leading spaces to the longer label's length.
   */
  function PatchRequestFor(file: string, pre: Option<string>, post: Option<string>, baseBranch: string): (req: PatchRequest)
    ensures req.oldFileName == (if pre.None? then DevNull else file)
    ensures req.newFileName == (if post.None? then DevNull else file)
    ensures req.oldStr == (if pre.None? then "" else pre.value)
    ensures req.newStr == (if post.None? then "" else post.value)
    ensures |req.oldHeader| == |req.newHeader|
    ensures EndsWith(req.oldHeader, "(" + baseBranch + " version)")
    ensures EndsWith(req.newHeader, "(new version)")
    ensures var width := Max(|baseBranch| + 10, 13);
            && req.oldHeader == PadStart("(" + baseBranch + " version)", width)
            && req.newHeader == PadStart("(new version)", width)
  {
    var labels := PadAll(["(" + baseBranch + " version)", "(new version)"]);
    assert ["(" + baseBranch + " version)", "(new version)"][..1] == ["(" + baseBranch + " version)"];
    PatchRequest(
      if pre.None? then DevNull else file,
      if post.None? then DevNull else file,
      if pre.None? then "" else pre.value,
      if post.None? then "" else post.value,
      labels[0], labels[1])
  }

  // ---------------------------------------------------------------------------
  // Post-processing the patch text

  /** Position `i` begins a line: the start of the text or just after a terminator. */
  predicate LineStart(s: string, i: int) {
    i == 0 || (0 < i <= |s| && IsLineTerminator(s[i - 1]))
  }

  /** `/^\\.+$/m` matches at `i`: a line that starts with a backslash and has more after it. */
  predicate MarkerAt(s: string, i: int) {
    0 <= i && i + 1 < |s| && LineStart(s, i) && s[i] == '\\' && !IsLineTerminator(s[i + 1])
  }

  /** `/^---/m` matches at `i`: a line that starts with three dashes. */
  predicate HeaderAt(s: string, i: int) {
    LineStart(s, i) && OccursAt(s, i, "---")
  }

  /** The end of the line holding position `i`: the next terminator, or the end of the text. */
  function LineEnd(s: string, i: nat): (j: nat)
    requires i <= |s|
    ensures i <= j <= |s|
    ensures j < |s| ==> IsLineTerminator(s[j])
    ensures forall k :: i <= k < j ==> !IsLineTerminator(s[k])
    decreases |s| - i
  {
    if i == |s| || IsLineTerminator(s[i]) then i else LineEnd(s, i + 1)
  }

  /**
   * `patch.replace(/^\\.+$/m, '')`: the first "no newline at end of file" line
   * loses its text (its terminator stays); a text without one is unchanged.
   */
  function BlankFirstMarker(s: string): (r: string)
    ensures (forall k :: 0 <= k < |s| ==> !MarkerAt(s, k)) ==> r == s
    ensures forall i :: 0 <= i < |s| && MarkerAt(s, i) && (forall k :: 0 <= k < i ==> !MarkerAt(s, k)) ==>
      r == s[..i] + s[LineEnd(s, i)..]
  {
    match FirstWhere(s, 0, MarkerAt)
    case None => s
    case Some(i) =>
      assert forall j :: 0 <= j < |s| && MarkerAt(s, j) && (forall k :: 0 <= k < j ==> !MarkerAt(s, k)) ==> j == i;
      s[..i] + s[LineEnd(s, i)..]
  }

  /** The text holds a line starting with `---`. */
  predicate HasHeaderLine(s: string) {
    exists k :: 0 <= k < |s| && HeaderAt(s, k)
  }

  /**
   * `r` is `s` cut at its first `---` line, or all of `s` when it has none:
   * a suffix of `s` that starts with `---` exactly when `s` has such a line,
   * and then begins at a line start with no `---` line before it.
   */
  predicate TrimmedAtFirstHeader(s: string, r: string) {
    && EndsWith(s, r)
    && (StartsWith(r, "---") <==> HasHeaderLine(s))
    && (!HasHeaderLine(s) ==> r == s)
    && (HasHeaderLine(s) ==> LineStart(s, |s| - |r|) && forall k :: 0 <= k < |s| - |r| ==> !HeaderAt(s, k))
  }

  /**
   * `index = p.search(/^---/m); index === -1 ? p : p.slice(index)`: the text
   * from its first `---` line on, or all of it when it has none.
   */
  function FromFirstHeader(s: string): (r: string)
    ensures TrimmedAtFirstHeader(s, r)
  {
    match FirstWhere(s, 0, HeaderAt)
    case None =>
      assert !HasHeaderLine(s);
      assert StartsWith(s, "---") ==> HeaderAt(s, 0);
      s
    case Some(i) =>
      assert s[i..][..3] == s[i..i + 3];
      s[i..]
  }

  /**
   * `getDiff`: the library's patch for the file, with the first
   * "no newline" marker line blanked only when one side is absent, trimmed to
   * start at its first `---` line.
   */
  function GetDiff(file: string, pre: Option<string>, post: Option<string>, baseBranch: string,
                   createTwoFilesPatch: PatchRequest -> string): (r: string)
    ensures var patch := createTwoFilesPatch(PatchRequestFor(file, pre, post, baseBranch));
            var text := if pre.None? || post.None? then BlankFirstMarker(patch) else patch;
            TrimmedAtFirstHeader(text, r)
  {
    var patch := createTwoFilesPatch(PatchRequestFor(file, pre, post, baseBranch));
    var p2 := if pre.None? || post.None? then BlankFirstMarker(patch) else patch;
    FromFirstHeader(p2)
  }

  /** When both sides exist the marker line is kept: the result is a plain suffix of the patch. */
  lemma GetDiffKeepsMarkerWhenBothPresent(file: string, pre: string, post: string, baseBranch: string,
                                          createTwoFilesPatch: PatchRequest -> string)
    ensures var patch := createTwoFilesPatch(PatchRequestFor(file, Some(pre), Some(post), baseBranch));
            GetDiff(file, Some(pre), Some(post), baseBranch, createTwoFilesPatch) == FromFirstHeader(patch)
  {
  }
}
