/**
 * The command-line entry point (bin/src/index.js): the `--post` vocabulary,
 * the translation of parsed arguments into command options, and `handle`,
 * which turns the settled command promise into the process's exit code.
 *
 * Argument parsing itself (yargs) and console output are not modelled: the
 * arguments arrive parsed, with the boolean flags' defaults applied.
 */
module Cli {
  import opened Wrappers
  import opened Keys
  import opened Reconcile
  import opened Support

  const AlwaysValues: set<string> := {"any", "all", "always", "every", "yes"}
  const PositiveValues: set<string> := {"positive", "match", "matched", "matching", "equal", "same"} + AlwaysValues
  const NegativeValues: set<string> := {"fail", "failing", "mismatched", "differ", "differing", "negative"} + AlwaysValues
  const NeverValues: set<string> := {"never", "no"}
  /** The words `--post` accepts. */
  const AllFlags: set<string> := PositiveValues + NegativeValues + NeverValues
  const DefaultPost: string := "always"

  /** When `pull` posts a comment. */
  datatype PullFlags = PullFlags(diff: bool, postPositive: bool, postNegative: bool)

  /**
   * `interpretPullOptions`: a word of the `always` family posts on both
   * outcomes, a `never` word on neither, and every other accepted word on
   * exactly one of them.
   */
  function InterpretPullOptions(diff: bool, post: string): (r: PullFlags)
    ensures r.diff == diff
    ensures r.postPositive && r.postNegative <==> post in AlwaysValues
    ensures post in NeverValues ==> !r.postPositive && !r.postNegative
    ensures post in AllFlags && !r.postPositive && !r.postNegative ==> post in NeverValues
    ensures post !in AllFlags ==> !r.postPositive && !r.postNegative
    ensures r.postPositive && !r.postNegative <==> post in {"positive", "match", "matched", "matching", "equal", "same"}
    ensures !r.postPositive && r.postNegative <==> post in {"fail", "failing", "mismatched", "differ", "differing", "negative"}
  {
    PullFlags(diff, post in PositiveValues, post in NegativeValues)
  }

  /** The `post` option of `pull` and the default command: `always` when absent; a word outside the choices is refused. */
  function PostArgument(given: Option<string>): (r: Option<string>)
    ensures given.None? ==> r == Some(DefaultPost)
    ensures r.Some? ==> r.value in AllFlags
    ensures given.Some? ==> (r.Some? <==> given.value in AllFlags) && (r.Some? ==> r.value == given.value)
  {
    match given
    case None => Some(DefaultPost)
    case Some(w) => if w in AllFlags then Some(w) else None
  }

  /**
   * `interpretOptions`: the bucket comes from `--bucket`, else from the
   * `S3_BUCKET` variable (an empty value counts as missing), else the process
   * bails; region and prefix pass through and the positional arguments are
   * the file patterns.
   */
  function InterpretOptions(bucket: Option<string>, region: Option<string>, prefix: Option<string>,
                            env: Env): (r: Option<StorageOptions>)
    ensures r.None? <==> !Truthy(bucket) && !Truthy(env.s3Bucket)
    ensures r.Some? ==> r.value.region == region && r.value.prefix == prefix && r.value.bucket != ""
    ensures r.Some? ==> Some(r.value.bucket) == if Truthy(bucket) then bucket else env.s3Bucket
  {
    if Truthy(bucket) then Some(StorageOptions(bucket.value, region, prefix))
    else if Truthy(env.s3Bucket) then Some(StorageOptions(env.s3Bucket.value, region, prefix))
    else None
  }

  /** How the process ends. */
  datatype ProcessEnd =
    | Exit(code: int)        // `process.exit(code)`, or the natural exit (code 0)
    | UnhandledRejection     // the fulfilment handler threw
    | StillWaiting           // the command's promise never settles

  /** The `pull` completion: a changed verdict fails the build when `--fail` is set. */
  function CompletePull(result: bool, fail: bool): (code: int)
    ensures code == 1 <==> !result && fail
    ensures code == 0 <==> result || !fail
  {
    if !result && fail then 1 else 0
  }

  /**
   * `handle`: a rejection exits with 2, a `null` output with 1 or 0 as
   * `--fail` says, an output is routed to the completion its `action` names
   * (`push` has nothing to report and the process ends normally), and an
   * output without a known action makes the handler throw.
   */
  function Handle(promise: Settled<Option<Output>>, fail: bool): (end: ProcessEnd)
    ensures end == Exit(2) <==> promise.Rejected?
    ensures end == StillWaiting <==> promise.Pending?
    ensures end.Exit? ==> 0 <= end.code <= 2
    ensures end == Exit(1) ==> fail
    ensures end == UnhandledRejection <==>
              promise.Fulfilled? && promise.value.Some?
              && promise.value.value.action != Some(PullAction) && promise.value.value.action != Some(PushAction)
    ensures promise.Fulfilled? && promise.value.Some? && promise.value.value.action == Some(PullAction) ==>
              end == Exit(CompletePull(promise.value.value.result, fail))
    ensures promise == Fulfilled(None) ==> end == Exit(if fail then 1 else 0)
    ensures promise.Fulfilled? && promise.value.Some? && promise.value.value.action == Some(PushAction) ==> end == Exit(0)
  {
    match promise
    case Rejected(_) => Exit(2)
    case Pending => StillWaiting
    case Fulfilled(None) => Exit(if fail then 1 else 0)
    case Fulfilled(Some(output)) =>
      if output.action == Some(PullAction) then Exit(CompletePull(output.result, fail))
      else if output.action == Some(PushAction) then Exit(0)
      else UnhandledRejection
  }

  /** The command on the command line. */
  datatype Command = DefaultCmd | PushCmd | PullCmd

  /** The parsed arguments: `--fail` and `--diff` with their defaults applied, `--post` as given. */
  datatype Args = Args(command: Command, fail: bool, bucket: Option<string>, region: Option<string>,
                       prefix: Option<string>, positional: seq<string>, diff: bool, post: Option<string>)

  /** The external operations the commands reach. */
  datatype Services = Services(
    checkArtifacts: CheckRequest -> CheckOutcome,
    putArtifacts: (seq<string>, StorageOptions, string) -> Result<string, Error>,
    postComment: string -> Option<Error>)

  /** The promise the chosen command returns, with `pull` as corrected (see `Support.PullCorrected`). */
  function Dispatch(command: Command, options: Options, env: Env, services: Services): (p: Settled<Option<Output>>)
    ensures p.Fulfilled? && p.value.Some? ==>
              p.value.value.action == Some(PullAction) || p.value.value.action == Some(PushAction)
    ensures p.Fulfilled? && p.value.None? ==>
              command == DefaultCmd && env.eventType != Some("pull_request") && env.eventType != Some("push")
  {
    var pull := Nullable(PullCorrected(options, env, services.checkArtifacts, services.postComment).outcome);
    var push := Nullable(Push(options, env, services.putArtifacts).outcome);
    match command
    case PullCmd => pull
    case PushCmd => push
    case DefaultCmd =>
      if env.eventType == Some("pull_request") then pull
      else DefaultCommand(options, env, services.checkArtifacts, services.putArtifacts, services.postComment)
  }

  /**
   * The dispatch as the source has it, with `pull` as written: it agrees with
   * `Dispatch` except that an unchanged `pull` verdict lacks its `action`.
   */
  lemma DispatchAsWritten(command: Command, options: Options, env: Env, services: Services)
    ensures var asWritten := match command
              case PullCmd => Nullable(Pull(options, env, services.checkArtifacts, services.postComment).outcome)
              case PushCmd => Nullable(Push(options, env, services.putArtifacts).outcome)
              case DefaultCmd => DefaultCommand(options, env, services.checkArtifacts, services.putArtifacts, services.postComment);
            var p := Dispatch(command, options, env, services);
            || p == asWritten
            || (&& asWritten.Fulfilled? && asWritten.value.Some? && asWritten.value.value.action.None?
                && p == Fulfilled(Some(asWritten.value.value.(action := Some(PullAction)))))
  {
  }

  /**
   * The options a command receives: the storage and the file patterns, and
   * for `pull` and the default command the `--diff` and `--post` choices
   * (`push` is not given them).
   */
  function CommandOptions(args: Args, storage: StorageOptions): (options: Options)
    requires args.command == PushCmd || PostArgument(args.post).Some?
    ensures options.files == args.positional && options.storage == storage
    ensures args.command == PushCmd ==> !options.diff && !options.postPositive && !options.postNegative
    ensures args.command != PushCmd ==>
              options.diff == args.diff
              && options.postPositive == (PostArgument(args.post).value in PositiveValues)
              && options.postNegative == (PostArgument(args.post).value in NegativeValues)
  {
    if args.command == PushCmd then Options(args.positional, storage, false, false, false)
    else
      var flags := InterpretPullOptions(args.diff, PostArgument(args.post).value);
      Options(args.positional, storage, flags.diff, flags.postPositive, flags.postNegative)
  }

  /**
   * The whole program: yargs refuses an unknown `--post` word (exit 1), a
   * missing bucket bails (exit 1), and otherwise the command runs and
   * `handle` decides how the process ends. `push` takes no pull options.
   */
  function Run(args: Args, env: Env, services: Services): (end: ProcessEnd)
    ensures args.command != PushCmd && PostArgument(args.post).None? ==> end == Exit(1)
    ensures InterpretOptions(args.bucket, args.region, args.prefix, env).None? ==> end == Exit(1)
    ensures (args.command == PushCmd || PostArgument(args.post).Some?)
            && InterpretOptions(args.bucket, args.region, args.prefix, env).Some? ==>
              var storage := InterpretOptions(args.bucket, args.region, args.prefix, env).value;
              end == Handle(Dispatch(args.command, CommandOptions(args, storage), env, services), args.fail)
  {
    var post := PostArgument(args.post);
    var storage := InterpretOptions(args.bucket, args.region, args.prefix, env);
    if args.command != PushCmd && post.None? then Exit(1)
    else if storage.None? then Exit(1)
    else Handle(Dispatch(args.command, CommandOptions(args, storage.value), env, services), args.fail)
  }

  /**
   * With `pull` corrected the process never dies of an unhandled rejection:
   * it exits with 0, 1 or 2, or waits on a command that never settles; 2
   * means the command rejected, and 1 means bad arguments, no bucket, or a
   * failing outcome under `--fail`.
   */
  lemma {:induction false} RunEnds(args: Args, env: Env, services: Services)
    ensures Run(args, env, services) != UnhandledRejection
    ensures Run(args, env, services).Exit? ==> Run(args, env, services).code in {0, 1, 2}
    ensures Run(args, env, services) == Exit(1) ==>
              || (args.command != PushCmd && PostArgument(args.post).None?)
              || InterpretOptions(args.bucket, args.region, args.prefix, env).None?
              || args.fail
  {
    var post := PostArgument(args.post);
    var storage := InterpretOptions(args.bucket, args.region, args.prefix, env);
    if (args.command == PushCmd || post.Some?) && storage.Some? {
      var p := Dispatch(args.command, CommandOptions(args, storage.value), env, services);
      assert Run(args, env, services) == Handle(p, args.fail);
    }
  }

  /**
   * As written, an unchanged `pull` verdict resolves without an `action`, so
   * `handle` looks up no completion and throws instead of exiting with 0.
   */
  lemma UnchangedPullIsUnhandled(options: Options, env: Env,
                                 checkArtifacts: CheckRequest -> CheckOutcome,
                                 postComment: string -> Option<Error>, fail: bool)
    requires Pull(options, env, checkArtifacts, postComment).outcome.Fulfilled?
    requires Pull(options, env, checkArtifacts, postComment).outcome.value.result
    ensures Handle(Nullable(Pull(options, env, checkArtifacts, postComment).outcome), fail) == UnhandledRejection
  {
  }

  /** A concrete pull-request build whose artifacts are unchanged, as written: the handler throws. */
  lemma UnchangedPullRequestBuild(checkArtifacts: CheckRequest -> CheckOutcome,
                                  putArtifacts: (seq<string>, StorageOptions, string) -> Result<string, Error>,
                                  postComment: string -> Option<Error>)
    requires forall request :: checkArtifacts(request) == Fulfilled(Unchanged)
    ensures var env := Env(Some("a1...b2"), Some("master"), Some("b2"), Some("pull_request"), Some("bucket"));
            var options := Options(["dist/**"], StorageOptions("bucket", None, None), true, false, false);
            Handle(DefaultCommand(options, env, checkArtifacts, putArtifacts, postComment), true) == UnhandledRejection
  {
    var env := Env(Some("a1...b2"), Some("master"), Some("b2"), Some("pull_request"), Some("bucket"));
    var options := Options(["dist/**"], StorageOptions("bucket", None, None), true, false, false);
    BuildRange();
    var run := Pull(options, env, checkArtifacts, postComment);
    assert run.checked.Some?;
    assert run.outcome == Fulfilled(Output(None, true, None, None, None));
  }

  /** The commit range of that build names `a1` as its base commit. */
  lemma BuildRange()
    ensures ParseRange("a1...b2") == Some(("a1", "b2"))
  {
    assert "a1...b2" == "a1" + Dots + "b2";
    ParseRangeSplits("a1", "b2");
  }

  /**
   * Corrected, every settled `pull` reaches its completion: an unchanged
   * verdict exits with 0, a changed one with 1 exactly when `--fail` is set.
   */
  lemma {:induction false} CorrectedPullExits(options: Options, env: Env,
                                              checkArtifacts: CheckRequest -> CheckOutcome,
                                              postComment: string -> Option<Error>, fail: bool)
    requires PullCorrected(options, env, checkArtifacts, postComment).outcome.Fulfilled?
    ensures var output := PullCorrected(options, env, checkArtifacts, postComment).outcome.value;
            Handle(Nullable(PullCorrected(options, env, checkArtifacts, postComment).outcome), fail)
              == Exit(if !output.result && fail then 1 else 0)
    ensures var run := Pull(options, env, checkArtifacts, postComment);
            var result := PullCorrected(options, env, checkArtifacts, postComment).outcome.value.result;
            run.checked.Some? && checkArtifacts(run.checked.value).Fulfilled? ==>
              (result <==> checkArtifacts(run.checked.value).value.Unchanged?)
  {
    var run := Pull(options, env, checkArtifacts, postComment);
    assert run.outcome.Fulfilled?;
  }
}
