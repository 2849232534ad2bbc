/**
 * The CI glue of src/support.js: reading the base commit out of the commit
 * range, the comment posted on a pull request, and the `pull`, `push` and
 * default commands.
 *
 * The CI environment variables are an explicit record; `checkArtifacts`,
 * `putArtifacts` and `postComment` are parameters, each a function from its
 * arguments to how its promise settles.
 */
module Support {
  import opened Wrappers
  import opened Text
  import opened Keys
  import opened Reconcile

  // ---------------------------------------------------------------------------
  // parseRange

  /** The separator of a commit range. */
  const Dots: string := "..."

  predicate DotsAt(s: string, k: int) {
    OccursAt(s, k, Dots)
  }

  /**
   * `/^((?:(?!\.\.\.).)+?)\.\.\.((?:(?!\.\.\.).)+)$/` matches `s` with its
   * first group ending at `i`: a non-empty first group, the three dots, a
   * non-empty second group, where no character of either group starts `...`
   * or is a line terminator.
   */
  ghost predicate RangeMatchAt(s: string, i: int) {
    && 1 <= i && i + 3 < |s| && DotsAt(s, i)
    && (forall k :: 0 <= k < i ==> !DotsAt(s, k) && !IsLineTerminator(s[k]))
    && (forall k :: i + 3 <= k < |s| ==> !DotsAt(s, k) && !IsLineTerminator(s[k]))
  }

  /**
   * `parseRange`: the two sides of `X...Y`, or `null`. The first group may
   * not hold `...`, so the match can only split at the first `...`; the rest
   * is the check that both sides are non-empty and that neither holds `...`
   * or a line terminator.
   */
  function ParseRange(range: string): (r: Option<(string, string)>)
    ensures r.Some? ==> range == r.value.0 + Dots + r.value.1 && RangeMatchAt(range, |r.value.0|)
    ensures r.None? ==> forall i :: !RangeMatchAt(range, i)
  {
    match FirstWhere(range, 0, DotsAt)
    case None => None
    case Some(i) =>
      if CanSplitAt(range, i) then
        SplitAtDots(range, i);
        Some((range[..i], range[i + 3..]))
      else
        NoMatchElsewhere(range, i);
        None
  }

  /** What is left to check once `i` is the first `...`: both sides non-empty, no line terminator, no later `...`. */
  predicate CanSplitAt(range: string, i: int) {
    && 1 <= i && i + 3 < |range|
    && (forall k :: 0 <= k < |range| ==> !IsLineTerminator(range[k]))
    && (forall k :: i + 3 <= k < |range| ==> !DotsAt(range, k))
  }

  lemma SplitAtDots(range: string, i: int)
    requires CanSplitAt(range, i) && DotsAt(range, i)
    ensures range == range[..i] + Dots + range[i + 3..]
  {
    assert range[i..i + 3] == Dots;
    assert range == range[..i] + range[i..i + 3] + range[i + 3..];
  }

  /** A match can only split at the first `...`, and it does not when the remaining checks fail. */
  lemma NoMatchElsewhere(range: string, i: int)
    requires DotsAt(range, i) && forall k :: 0 <= k < i ==> !DotsAt(range, k)
    requires !CanSplitAt(range, i)
    ensures forall j :: !RangeMatchAt(range, j)
  {
    forall j | RangeMatchAt(range, j) ensures false {
      assert j == i;
      forall k | 0 <= k < |range| ensures !IsLineTerminator(range[k]) {
        if i <= k < i + 3 {
          assert range[k] == range[i..i + 3][k - i];
        }
      }
    }
  }

  /** The regular expression matches in at most one way. */
  lemma RangeMatchUnique(s: string, i: int, j: int)
    requires RangeMatchAt(s, i) && RangeMatchAt(s, j)
    ensures i == j
  {
  }

  /**
   * `X...Y` splits into `[X, Y]` when both sides are non-empty single-line
   * strings without `...`, and `X` does not end with a dot (otherwise the
   * first `...` starts inside `X`).
   */
  lemma ParseRangeSplits(x: string, y: string)
    requires x != "" && y != ""
    requires forall k :: 0 <= k < |x| ==> !DotsAt(x, k) && !IsLineTerminator(x[k])
    requires forall k :: 0 <= k < |y| ==> !DotsAt(y, k) && !IsLineTerminator(y[k])
    requires x[|x| - 1] != '.'
    ensures ParseRange(x + Dots + y) == Some((x, y))
  {
    var s := x + Dots + y;
    var i := |x|;
    forall k | 0 <= k < i ensures !DotsAt(s, k) && !IsLineTerminator(s[k]) {
      assert s[k] == x[k];
      if k + 3 <= i {
        assert s[k..k + 3] == x[k..k + 3];
        assert !DotsAt(x, k);
      } else if k + 3 <= |s| {
        assert s[k..k + 3][i - 1 - k] == x[i - 1];
        assert Dots[i - 1 - k] == '.';
      }
    }
    forall k | i + 3 <= k < |s| ensures !DotsAt(s, k) && !IsLineTerminator(s[k]) {
      assert s[k] == y[k - i - 3];
      if k + 3 <= |s| {
        assert s[k..k + 3] == y[k - i - 3..k - i];
        assert !DotsAt(y, k - i - 3);
      }
    }
    assert s[i..i + 3] == Dots;
    assert RangeMatchAt(s, i);
    var r := ParseRange(s);
    RangeMatchUnique(s, i, |r.value.0|);
    assert r.value.0 == s[..i] == x;
    assert r.value.1 == s[i + 3..] == y;
  }

  /** No `...`, or nothing before the first one, or nothing after it: `null`. */
  lemma ParseRangeFails(s: string)
    ensures (forall k :: 0 <= k < |s| ==> !DotsAt(s, k)) ==> ParseRange(s).None?
    ensures StartsWith(s, Dots) ==> ParseRange(s).None?
    ensures forall i :: DotsAt(s, i) && i + 3 == |s| && (forall k :: 0 <= k < i ==> !DotsAt(s, k)) ==> ParseRange(s).None?
  {
  }

  /** A run of four dots splits at its first three. */
  lemma ParseRangeSplitsAtFirstDots()
    ensures ParseRange("a....b") == Some(("a", ".b"))
  {
    assert "a....b" == "a" + Dots + ".b";
    ParseRangeSplits("a", ".b");
  }

  // ---------------------------------------------------------------------------
  // formatComment

  /** "groundskeeper: the following artifacts have changed:", written in pieces the newline proof can read. */
  const HeaderLine: string := "groundskeeper:" + " the following" + " artifacts" + " have changed:"
  const CommentHeader: string := HeaderLine + "\n"
  const Fence: string := "```"
  const PatchFence: string := "```patch"

  /** `patches.get(file)` as `join` prints it: the patch, or nothing when the key is missing. */
  function PatchText(patches: map<string, string>, file: string): string {
    if file in patches then patches[file] else ""
  }

  /**
   * The lines of the comment: the header; then, with patches, a `patch`
   * fence holding each file's patch in the order of `files` (sorted, not the
   * map's order); without them, a plain fence holding the file names.
   */
  function CommentLines(files: seq<string>, patches: Option<map<string, string>>): (lines: seq<string>)
    ensures |lines| == |files| + 3
    ensures lines[0] == CommentHeader && lines[|lines| - 1] == Fence
    ensures lines[1] == if patches.Some? then PatchFence else Fence
    ensures forall i :: 0 <= i < |files| ==>
              lines[i + 2] == if patches.Some? then PatchText(patches.value, files[i]) else files[i]
  {
    [CommentHeader]
    + (if patches.Some? then [PatchFence] + seq(|files|, i requires 0 <= i < |files| => PatchText(patches.value, files[i]))
       else [Fence] + files)
    + [Fence]
  }

  /** `formatComment`: pushes the lines one by one, then joins them with newlines. */
  method FormatComment(files: seq<string>, patches: Option<map<string, string>>) returns (comment: string)
    ensures comment == Join(CommentLines(files, patches))
  {
    var lines := [CommentHeader];
    if patches.Some? {
      lines := lines + [PatchFence];
      for i := 0 to |files|
        invariant lines == [CommentHeader, PatchFence] + seq(i, k requires 0 <= k < i => PatchText(patches.value, files[k]))
      {
        lines := lines + [PatchText(patches.value, files[i])];
      }
      lines := lines + [Fence];
    } else {
      lines := lines + [Fence] + files + [Fence];
    }
    assert lines == CommentLines(files, patches);
    comment := Join(lines);
  }

  lemma {:induction false} JoinHeadNewline(a: string, rest: seq<string>)
    requires |rest| >= 1
    ensures Join([a + "\n"] + rest) == Join([a, ""] + rest)
  {
    assert ([a + "\n"] + rest)[1..] == rest;
    assert ([a, ""] + rest)[1..] == [""] + rest;
    assert ([""] + rest)[1..] == rest;
  }

  lemma HeaderLineHasNoNewline()
    ensures '\n' !in HeaderLine
  {
    var a, b, c, d := "groundskeeper:", " the following", " artifacts", " have changed:";
    assert '\n' !in a by { forall k | 0 <= k < |a| ensures a[k] != '\n' { } }
    assert '\n' !in b by { forall k | 0 <= k < |b| ensures b[k] != '\n' { } }
    assert '\n' !in c by { forall k | 0 <= k < |c| ensures c[k] != '\n' { } }
    assert '\n' !in d by { forall k | 0 <= k < |d| ensures d[k] != '\n' { } }
  }

  /** No line holds a newline. */
  predicate SingleLines(lines: seq<string>) {
    forall i :: 0 <= i < |lines| ==> '\n' !in lines[i]
  }

  /**
   * Without patches, reading the comment line by line gives the header, a
   * blank line, the opening fence, each file name on its own line in order,
   * and the closing fence.
   */
  lemma FileListLines(files: seq<string>)
    requires SingleLines(files)
    ensures Split(Join(CommentLines(files, None))) == [HeaderLine, "", Fence] + files + [Fence]
  {
    HeaderLineHasNoNewline();
    assert '\n' !in Fence;
    PlainCommentLines(files);
    FencedLines(HeaderLine, Fence, files);
  }

  /** A header line and a fenced list of single lines read back line by line. */
  lemma FencedLines(header: string, fence: string, files: seq<string>)
    requires '\n' !in header && '\n' !in fence && SingleLines(files)
    ensures Split(Join([header + "\n"] + ([fence] + files + [fence]))) == [header, "", fence] + files + [fence]
  {
    var rest := [fence] + files + [fence];
    assert SingleLines([fence]);
    SingleLinesAppend([fence], files);
    SingleLinesAppend([fence] + files, [fence]);
    LinesAfterHeader(header, rest);
    assert [header, ""] + rest == [header, "", fence] + files + [fence];
  }

  lemma PlainCommentLines(files: seq<string>)
    ensures CommentLines(files, None) == [HeaderLine + "\n"] + ([Fence] + files + [Fence])
  {
  }

  /** A first line ending in a newline reads back as that line and a blank one. */
  lemma LinesAfterHeader(header: string, rest: seq<string>)
    requires '\n' !in header && |rest| >= 1 && SingleLines(rest)
    ensures Split(Join([header + "\n"] + rest)) == [header, ""] + rest
  {
    JoinHeadNewline(header, rest);
    SingleLinesAppend([header, ""], rest);
    SplitJoin([header, ""] + rest);
  }

  lemma SingleLinesAppend(a: seq<string>, b: seq<string>)
    requires SingleLines(a) && SingleLines(b)
    ensures SingleLines(a + b)
  {
    forall i | 0 <= i < |a + b| ensures '\n' !in (a + b)[i] {
      if i >= |a| {
        assert (a + b)[i] == b[i - |a|];
      }
    }
  }

  // ---------------------------------------------------------------------------
  // pull, push and the default command

  /** The CI environment variables the commands read (absent when unset). */
  datatype Env = Env(
    commitRange: Option<string>,  // TRAVIS_COMMIT_RANGE
    branch: Option<string>,       // TRAVIS_BRANCH
    commit: Option<string>,       // TRAVIS_COMMIT
    eventType: Option<string>,    // TRAVIS_EVENT_TYPE
    s3Bucket: Option<string>)     // S3_BUCKET

  /** The options the CLI hands to the commands. */
  datatype Options = Options(files: seq<string>, storage: StorageOptions, diff: bool, postPositive: bool, postNegative: bool)

  /** The object a command resolves with; a missing field is `None`. */
  datatype Output = Output(action: Option<string>, result: bool, files: Option<seq<string>>,
                           patches: Option<map<string, string>>, uri: Option<string>)

  const PullAction: string := "pull"
  const PushAction: string := "push"
  const NoChangeComment: string := "groundskeeper: no artifacts have changed"
  const NoBaseCommitMessage: string := "could not identify the base commit for pull request"
  const NoBaseBranchMessage: string := "could not identify the base branch for the pull request"
  const NoPushCommitMessage: string := "could not identify base commit for push build"

  /** The arguments `pull` hands to `checkArtifacts`. */
  datatype CheckRequest = CheckRequest(policy: Policy, ctx: Context)

  /** A run of `pull`: how it settles, the check it asked for, and the comment it posted. */
  datatype PullRun = PullRun(outcome: Settled<Output>, checked: Option<CheckRequest>, posted: Option<string>)

  /** `regex.exec(value)` reads an unset variable as the string "undefined". */
  function EnvText(v: Option<string>): string {
    if v.Some? then v.value else "undefined"
  }

  /** Posting a comment, then settling with `output` unless the post failed. */
  function AfterPost(comment: string, output: Output, postComment: string -> Option<Error>): Settled<Output> {
    match postComment(comment)
    case Some(e) => Rejected(e)
    case None => Fulfilled(output)
  }

  /**
   * The part of `pull` after `checkArtifacts` settles: an unchanged verdict
   * resolves with `{ result: true }` and no `action`, a changed one with
   * `{ action: 'pull', result: false, files, patches? }`; a comment is posted
   * only when the flag for the observed outcome is set, and a failed post
   * rejects.
   */
  function Report(options: Options, request: CheckRequest, checked: CheckOutcome,
                  postComment: string -> Option<Error>): (run: PullRun)
    ensures run.checked == Some(request)
    ensures run.outcome.Fulfilled? || run.posted.Some? ==> checked.Fulfilled?
    ensures run.outcome.Fulfilled? && run.outcome.value.result ==>
              run.outcome.value == Output(None, true, None, None, None) && checked.value.Unchanged?
    ensures run.outcome.Fulfilled? && !run.outcome.value.result ==>
              checked.value.Changed?
              && run.outcome.value == Output(Some(PullAction), false, Some(checked.value.files), checked.value.patches, None)
    ensures checked.Fulfilled? && checked.value.Unchanged? ==>
              (run.posted.Some? <==> options.postPositive) && (run.posted.Some? ==> run.posted.value == NoChangeComment)
    ensures checked.Fulfilled? && checked.value.Changed? ==>
              && (run.posted.Some? <==> options.postNegative)
              && (run.posted.Some? ==> run.posted.value == Join(CommentLines(checked.value.files, checked.value.patches)))
    ensures checked.Fulfilled? ==> (run.outcome.Rejected? <==> run.posted.Some? && postComment(run.posted.value).Some?)
    ensures checked.Rejected? ==> run.outcome == Rejected(checked.error)
    ensures checked.Fulfilled? && (run.posted.None? || postComment(run.posted.value).None?) ==> run.outcome.Fulfilled?
    ensures checked.Pending? ==> run.outcome == Pending
    ensures checked.Fulfilled? && run.posted.Some? && postComment(run.posted.value).Some? ==>
              run.outcome == Rejected(postComment(run.posted.value).value)
  {
    match checked
    case Pending => PullRun(Pending, Some(request), None)
    case Rejected(e) => PullRun(Rejected(e), Some(request), None)
    case Fulfilled(Unchanged) =>
      var output := Output(None, true, None, None, None);
      if options.postPositive then PullRun(AfterPost(NoChangeComment, output, postComment), Some(request), Some(NoChangeComment))
      else PullRun(Fulfilled(output), Some(request), None)
    case Fulfilled(Changed(files, patches)) =>
      var output := Output(Some(PullAction), false, Some(files), patches, None);
      var comment := Join(CommentLines(files, patches));
      if options.postNegative then PullRun(AfterPost(comment, output, postComment), Some(request), Some(comment))
      else PullRun(Fulfilled(output), Some(request), None)
  }

  /**
   * `pull`: throws before checking anything when the base commit cannot be
   * read from the range or the base branch is unset or empty; otherwise
   * checks the policy against the snapshot of the range's base commit,
   * labelled with the branch, and reports.
   */
  function Pull(options: Options, env: Env,
                checkArtifacts: CheckRequest -> CheckOutcome,
                postComment: string -> Option<Error>): (run: PullRun)
    ensures ParseRange(EnvText(env.commitRange)).None? ==>
              run == PullRun(Rejected(Error("", NoBaseCommitMessage)), None, None)
    ensures ParseRange(EnvText(env.commitRange)).Some? && !Truthy(env.branch) ==>
              run == PullRun(Rejected(Error("", NoBaseBranchMessage)), None, None)
    ensures run.checked.Some? ==>
              && ParseRange(EnvText(env.commitRange)).Some?
              && run.checked.value.ctx.baseCommit == ParseRange(EnvText(env.commitRange)).value.0
              && Some(run.checked.value.ctx.baseBranch) == env.branch && run.checked.value.ctx.baseBranch != ""
              && run.checked.value.policy == Policy(options.files, options.diff, options.storage)
              && run == Report(options, run.checked.value, checkArtifacts(run.checked.value), postComment)
    ensures ParseRange(EnvText(env.commitRange)).Some? && Truthy(env.branch) ==>
              run.checked == Some(CheckRequest(Policy(options.files, options.diff, options.storage),
                                               Context(env.branch.value, ParseRange(EnvText(env.commitRange)).value.0)))
  {
    var parsed := ParseRange(EnvText(env.commitRange));
    if parsed.None? then
      PullRun(Rejected(Error("", NoBaseCommitMessage)), None, None)
    else if !Truthy(env.branch) then
      PullRun(Rejected(Error("", NoBaseBranchMessage)), None, None)
    else
      var request := CheckRequest(Policy(options.files, options.diff, options.storage), Context(env.branch.value, parsed.value.0));
      Report(options, request, checkArtifacts(request), postComment)
  }

  /**
   * `pull` as evidently intended: the unchanged verdict carries
   * `action: 'pull'` too, so the CLI can route it to its `pull` completion.
   */
  function PullCorrected(options: Options, env: Env,
                         checkArtifacts: CheckRequest -> CheckOutcome,
                         postComment: string -> Option<Error>): (run: PullRun)
    ensures run.outcome.Fulfilled? <==> Pull(options, env, checkArtifacts, postComment).outcome.Fulfilled?
    ensures run.outcome.Fulfilled? ==>
              && run.outcome.value.action == Some(PullAction)
              && run.outcome.value.(action := None) == Pull(options, env, checkArtifacts, postComment).outcome.value.(action := None)
    ensures !run.outcome.Fulfilled? ==> run.outcome == Pull(options, env, checkArtifacts, postComment).outcome
    ensures run.checked == Pull(options, env, checkArtifacts, postComment).checked
    ensures run.posted == Pull(options, env, checkArtifacts, postComment).posted
  {
    var run := Pull(options, env, checkArtifacts, postComment);
    if run.outcome.Fulfilled? && run.outcome.value.action.None? then
      run.(outcome := Fulfilled(run.outcome.value.(action := Some(PullAction))))
    else
      run
  }

  /** A run of `push`: how it settles and the commit it published under, if it got that far. */
  datatype PushRun = PushRun(outcome: Settled<Output>, published: Option<string>)

  /**
   * `push`: throws when the current commit is unset or empty; otherwise
   * publishes under that commit and resolves with
   * `{ action: 'push', result: true, uri }`.
   */
  function Push(options: Options, env: Env,
                putArtifacts: (seq<string>, StorageOptions, string) -> Result<string, Error>): (run: PushRun)
    ensures !Truthy(env.commit) ==> run == PushRun(Rejected(Error("", NoPushCommitMessage)), None)
    ensures Truthy(env.commit) ==> run.published == Some(env.commit.value)
    ensures run.outcome.Fulfilled? ==>
              && Truthy(env.commit)
              && putArtifacts(options.files, options.storage, env.commit.value).Success?
              && run.outcome.value == Output(Some(PushAction), true, None, None,
                                             Some(putArtifacts(options.files, options.storage, env.commit.value).value))
    ensures run.outcome.Rejected? && Truthy(env.commit) ==>
              putArtifacts(options.files, options.storage, env.commit.value) == Failure(run.outcome.error)
    ensures !run.outcome.Pending?
  {
    if !Truthy(env.commit) then
      PushRun(Rejected(Error("", NoPushCommitMessage)), None)
    else
      match putArtifacts(options.files, options.storage, env.commit.value)
      case Failure(e) => PushRun(Rejected(e), Some(env.commit.value))
      case Success(uri) => PushRun(Fulfilled(Output(Some(PushAction), true, None, None, Some(uri))), Some(env.commit.value))
  }

  /** A promise of an output, seen as a promise of an output or `null`. */
  function Nullable(s: Settled<Output>): Settled<Option<Output>> {
    match s
    case Fulfilled(o) => Fulfilled(Some(o))
    case Rejected(e) => Rejected(e)
    case Pending => Pending
  }

  /**
   * `defaultCommand`: a `pull_request` build runs `pull`, a `push` build runs
   * `push`, and any other event type (or none) resolves with `null`.
   */
  function DefaultCommand(options: Options, env: Env,
                          checkArtifacts: CheckRequest -> CheckOutcome,
                          putArtifacts: (seq<string>, StorageOptions, string) -> Result<string, Error>,
                          postComment: string -> Option<Error>): (r: Settled<Option<Output>>)
    ensures env.eventType == Some("pull_request") ==> r == Nullable(Pull(options, env, checkArtifacts, postComment).outcome)
    ensures env.eventType == Some("push") ==> r == Nullable(Push(options, env, putArtifacts).outcome)
    ensures env.eventType != Some("pull_request") && env.eventType != Some("push") ==> r == Fulfilled(None)
  {
    match env.eventType
    case Some("pull_request") => Nullable(Pull(options, env, checkArtifacts, postComment).outcome)
    case Some("push") => Nullable(Push(options, env, putArtifacts).outcome)
    case _ => Fulfilled(None)
  }
}
