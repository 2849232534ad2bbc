/**
 * Checking local build artifacts against a published snapshot, and publishing
 * one (`checkArtifacts` and `putArtifacts` in src/core.js).
 *
 * The file matcher, the object store and the diff library are parameters:
 * `globby` is a function from patterns to matched paths, fetching an object
 * is a function from its bucket and key to the events of its archive stream,
 * uploading is a function from the request to its error (if any), and the
 * local tree and the unpacked snapshot are maps from path to what reading
 * that path gives.
 */
module Reconcile {
  import opened Wrappers
  import opened Text
  import opened Keys
  import opened Diff
  import opened Extraction

  /** What reading each path gives: its text or an error; a path not in the map does not exist. */
  type FileSystem = map<string, Result<string, Error>>

  /** The local working tree and the snapshot unpacked under the scratch directory's `artifacts/`. */
  datatype Files = Files(local: FileSystem, extracted: FileSystem)

  const NotFound: string := "ENOENT"

  /**
   * `maybeReadFile`: the text of the file, `null` when it does not exist,
   * and any other read error passed on.
   */
  function MaybeReadFile(fs: FileSystem, path: string): (r: Result<Option<string>, Error>)
    ensures r == Success(None) <==> path !in fs || (fs[path].Failure? && fs[path].error.code == NotFound)
    ensures r.Failure? <==> path in fs && fs[path].Failure? && fs[path].error.code != NotFound
    ensures r.Failure? ==> r.error == fs[path].error
    ensures r.Success? && r.value.Some? ==> path in fs && fs[path] == Success(r.value.value)
  {
    if path !in fs then Success(None)
    else match fs[path]
      case Success(text) => Success(Some(text))
      case Failure(e) => if e.code == NotFound then Success(None) else Failure(e)
  }

  /**
   * `(baseCopy === null) !== (newCopy === null) || baseCopy !== newCopy`: the
   * two copies differ exactly when they are not the same, absent differing
   * from every text and two absent copies being the same.
   */
  function Differs(newCopy: Option<string>, baseCopy: Option<string>): (r: bool)
    ensures r <==> newCopy != baseCopy
    ensures newCopy.None? && baseCopy.Some? ==> r
    ensures newCopy.Some? && baseCopy.None? ==> r
    ensures newCopy.None? && baseCopy.None? ==> !r
  {
    (baseCopy.None? != newCopy.None?) || baseCopy != newCopy
  }

  /** What one comparison task ends with. */
  datatype TaskOutcome =
    | TaskFailed(error: Error)
    | Same
    | Differ(baseCopy: Option<string>, newCopy: Option<string>)

  /**
   * One comparison task: read the local copy and the snapshot's copy; a read
   * error fails the task (the local one is reported when both fail).
   */
  function CompareFile(path: string, files: Files): (r: TaskOutcome)
    ensures r.Differ? ==> r.newCopy != r.baseCopy
    ensures r.Differ? ==> MaybeReadFile(files.local, path) == Success(r.newCopy)
    ensures r.Differ? ==> MaybeReadFile(files.extracted, path) == Success(r.baseCopy)
    ensures r.Same? <==> MaybeReadFile(files.local, path).Success? && MaybeReadFile(files.local, path) == MaybeReadFile(files.extracted, path)
    ensures r.TaskFailed? <==> MaybeReadFile(files.local, path).Failure? || MaybeReadFile(files.extracted, path).Failure?
    ensures r.TaskFailed? ==>
              r.error == if MaybeReadFile(files.local, path).Failure? then MaybeReadFile(files.local, path).error
                         else MaybeReadFile(files.extracted, path).error
  {
    var newCopy := MaybeReadFile(files.local, path);
    var baseCopy := MaybeReadFile(files.extracted, path);
    if newCopy.Failure? then TaskFailed(newCopy.error)
    else if baseCopy.Failure? then TaskFailed(baseCopy.error)
    else if Differs(newCopy.value, baseCopy.value) then Differ(baseCopy.value, newCopy.value)
    else Same
  }

  /** How patches are made: the policy's `diff` flag, the base branch label, and the diff library. */
  datatype DiffSettings = DiffSettings(diff: bool, baseBranch: string, createTwoFilesPatch: PatchRequest -> string)

  /** The value stored for a changed file: `false`, or its patch text. */
  datatype PatchValue = NoPatch | Patch(text: string)

  /** `!!policy.diff && getDiff({ file, pre: baseCopy, post: newCopy }, context)`. */
  function PatchFor(path: string, baseCopy: Option<string>, newCopy: Option<string>, settings: DiffSettings): (v: PatchValue)
    ensures v.Patch? <==> settings.diff
  {
    if settings.diff then Patch(GetDiff(path, baseCopy, newCopy, settings.baseBranch, settings.createTwoFilesPatch))
    else NoPatch
  }

  /**
   * What the comparison loop has built: the errors the pool collected, the
   * keys of the `patches` map in insertion order, and the map.
   */
  datatype PoolState = PoolState(errors: seq<Error>, order: seq<string>, patches: map<string, PatchValue>)

  /** One task's effect on the loop's state. */
  function RunTask(state: PoolState, path: string, files: Files, settings: DiffSettings): PoolState {
    match CompareFile(path, files)
    case TaskFailed(e) => state.(errors := state.errors + [e])
    case Same => state
    case Differ(baseCopy, newCopy) =>
      PoolState(state.errors,
                if path in state.patches then state.order else state.order + [path],
                state.patches[path := PatchFor(path, baseCopy, newCopy, settings)])
  }

  /** The state after running one task per path, in order, none cancelling another. */
  function Pool(paths: seq<string>, files: Files, settings: DiffSettings): PoolState {
    if paths == [] then PoolState([], [], map[])
    else RunTask(Pool(paths[..|paths| - 1], files, settings), paths[|paths| - 1], files, settings)
  }

  /** The task for path `i` is the first to fail. */
  predicate FirstFailure(paths: seq<string>, files: Files, i: int) {
    0 <= i < |paths| && CompareFile(paths[i], files).TaskFailed?
    && forall k :: 0 <= k < i ==> !CompareFile(paths[k], files).TaskFailed?
  }

  /**
   * The pool's bookkeeping: the changed paths are listed once each in
   * insertion order, and each holds a diff exactly when diffs are on.
   */
  lemma {:induction false} PoolShape(paths: seq<string>, files: Files, settings: DiffSettings)
    ensures var s := Pool(paths, files, settings);
            && NoDuplicates(s.order) && Elements(s.order) == s.patches.Keys
            && (forall p :: p in s.patches ==> (s.patches[p].Patch? <==> settings.diff))
  {
    if paths != [] {
      PoolShape(paths[..|paths| - 1], files, settings);
    }
  }

  /**
   * The pool's patches: an entry for exactly the paths whose copies differ,
   * whether or not other tasks failed, each holding that path's patch value.
   */
  lemma {:induction false} PoolPatches(paths: seq<string>, files: Files, settings: DiffSettings)
    ensures var s := Pool(paths, files, settings);
            && (forall p :: p in s.patches <==> p in paths && CompareFile(p, files).Differ?)
            && (forall p :: p in s.patches ==>
                  s.patches[p] == PatchFor(p, CompareFile(p, files).baseCopy, CompareFile(p, files).newCopy, settings))
  {
    if paths != [] {
      var init, last := paths[..|paths| - 1], paths[|paths| - 1];
      PoolPatches(init, files, settings);
      var s0, s := Pool(init, files, settings), Pool(paths, files, settings);
      assert s == RunTask(s0, last, files, settings);
      forall p ensures p in paths <==> p in init || p == last {
        assert paths == init + [last];
      }
      if CompareFile(last, files).Differ? {
        assert s.patches == s0.patches[last := PatchFor(last, CompareFile(last, files).baseCopy,
                                                        CompareFile(last, files).newCopy, settings)];
      } else {
        assert s.patches == s0.patches;
      }
    }
  }

  /**
   * The pool's errors: every failing task's error is collected, and there are
   * none exactly when no task fails.
   */
  lemma {:induction false} PoolErrors(paths: seq<string>, files: Files, settings: DiffSettings)
    ensures var s := Pool(paths, files, settings);
            && (forall p :: p in paths && CompareFile(p, files).TaskFailed? ==> CompareFile(p, files).error in s.errors)
            && (|s.errors| == 0 <==> forall p :: p in paths ==> !CompareFile(p, files).TaskFailed?)
  {
    if paths != [] {
      var init, last := paths[..|paths| - 1], paths[|paths| - 1];
      PoolErrors(init, files, settings);
      assert paths == init + [last];
      var s := Pool(paths, files, settings);
      forall p | p in paths && CompareFile(p, files).TaskFailed?
        ensures CompareFile(p, files).error in s.errors
      {
        if p != last { assert p in init; }
      }
    }
  }

  /** The first collected error is the one of the first task that fails. */
  lemma {:induction false} PoolFirstError(paths: seq<string>, files: Files, settings: DiffSettings, i: int)
    requires FirstFailure(paths, files, i)
    ensures var s := Pool(paths, files, settings);
            |s.errors| > 0 && s.errors[0] == CompareFile(paths[i], files).error
  {
    var init, last := paths[..|paths| - 1], paths[|paths| - 1];
    assert paths == init + [last];
    if i < |init| {
      assert FirstFailure(init, files, i) by {
        forall k | 0 <= k < i ensures init[k] == paths[k] { }
      }
      PoolFirstError(init, files, settings, i);
    } else {
      PoolErrors(init, files, settings);
      forall p | p in init ensures !CompareFile(p, files).TaskFailed? {
        var k :| 0 <= k < |init| && init[k] == p;
        assert paths[k] == p;
      }
    }
  }

  /** The outcome of the whole check, as the caller's promise settles. */
  datatype Verdict =
    | Unchanged                                                      // `{ result: true }`
    | Changed(files: seq<string>, patches: Option<map<string, string>>)  // `{ result: false, files, patches? }`

  type CheckOutcome = Settled<Verdict>

  /**
   * The verdict built from the `patches` map: `{ result: true }` when it is
   * empty; otherwise the sorted keys, with the map of patch texts attached
   * exactly when the policy asks for diffs.
   */
  function Aggregate(order: seq<string>, patches: map<string, PatchValue>, diff: bool): (v: Verdict)
    requires NoDuplicates(order) && Elements(order) == patches.Keys
    requires diff ==> forall k :: k in patches ==> patches[k].Patch?
    ensures v.Unchanged? <==> patches == map[]
    ensures v.Changed? ==> StrictlySorted(v.files) && Elements(v.files) == patches.Keys
    ensures v.Changed? ==> (v.patches.Some? <==> diff)
    ensures v.Changed? && v.patches.Some? ==>
              v.patches.value.Keys == Elements(v.files)
              && forall k :: k in v.patches.value ==> patches[k] == Patch(v.patches.value[k])
  {
    if |patches| == 0 then
      Unchanged
    else
      var files := Sort(order);
      SortKeepsElements(order);
      Changed(files, if diff then Some(map k | k in patches :: patches[k].text) else None)
  }

  /** The verdict does not depend on the order the changed paths were found in. */
  lemma AggregateIgnoresOrder(o1: seq<string>, o2: seq<string>, patches: map<string, PatchValue>, diff: bool)
    requires NoDuplicates(o1) && Elements(o1) == patches.Keys
    requires NoDuplicates(o2) && Elements(o2) == patches.Keys
    requires diff ==> forall k :: k in patches ==> patches[k].Patch?
    ensures Aggregate(o1, patches, diff) == Aggregate(o2, patches, diff)
  {
    var v1, v2 := Aggregate(o1, patches, diff), Aggregate(o2, patches, diff);
    if v1.Changed? {
      StrictlySortedUnique(v1.files, v2.files);
    }
  }

  /** The policy of a check: the patterns to match, whether to compute diffs, and where snapshots live. */
  datatype Policy = Policy(files: seq<string>, diff: bool, storage: StorageOptions)

  /** The facts of one check: the base branch's label and the commit whose snapshot is the baseline. */
  datatype Context = Context(baseBranch: string, baseCommit: string)

  /** The paths compared: the local matches, then the snapshot's paths, each once. */
  function ComparedPaths(inputFiles: seq<string>, events: seq<StreamEvent>): (paths: seq<string>)
    ensures NoDuplicates(paths)
    ensures Elements(paths) == Elements(inputFiles) + Elements(Recorded(events))
  {
    Dedup(inputFiles + Recorded(events))
  }

  /** The settings the comparison uses for a policy and context. */
  function SettingsFor(policy: Policy, ctx: Context, createTwoFilesPatch: PatchRequest -> string): DiffSettings {
    DiffSettings(policy.diff, ctx.baseBranch, createTwoFilesPatch)
  }

  /**
   * What `checkArtifacts` settles with: the rejection of the extraction if it
   * failed; else, once every comparison ran, the first collected error; else
   * the verdict. A stream that never finishes nor fails leaves it pending.
   */
  function ExpectedCheck(policy: Policy, ctx: Context,
                         globby: seq<string> -> seq<string>,
                         fetch: BaseObject -> seq<StreamEvent>,
                         files: Files,
                         createTwoFilesPatch: PatchRequest -> string): CheckOutcome
  {
    var events := fetch(GetBaseObject(policy.storage, ctx.baseCommit));
    match SettlementOf(events)
    case Pending => Pending
    case Rejected(e) => Rejected(e)
    case Fulfilled(_) =>
      var paths := ComparedPaths(globby(policy.files), events);
      var settings := SettingsFor(policy, ctx, createTwoFilesPatch);
      var s := Pool(paths, files, settings);
      PoolShape(paths, files, settings);
      if |s.errors| > 0 then Rejected(s.errors[0])
      else Fulfilled(Aggregate(s.order, s.patches, policy.diff))
  }

  /**
   * `checkArtifacts`: builds the set of local matches, unpacks the snapshot
   * of the base commit into it, runs one comparison per path collecting
   * every error, then throws the first error or returns the verdict. The
   * scratch directory is removed on every path out (`finally`).
   */
  method CheckArtifacts(policy: Policy, ctx: Context,
                        globby: seq<string> -> seq<string>,
                        fetch: BaseObject -> seq<StreamEvent>,
                        files: Files,
                        createTwoFilesPatch: PatchRequest -> string) returns (outcome: CheckOutcome)
    ensures outcome == ExpectedCheck(policy, ctx, globby, fetch, files, createTwoFilesPatch)
  {
    var inputFiles := globby(policy.files);
    var allFiles := new PathSet();
    for i := 0 to |inputFiles|
      invariant allFiles.Valid()
      invariant allFiles.items == Dedup(inputFiles[..i])
    {
      assert inputFiles[..i + 1] == inputFiles[..i] + [inputFiles[i]];
      DedupSnoc(inputFiles[..i], inputFiles[i]);
      allFiles.Add(inputFiles[i]);
    }
    assert inputFiles[..|inputFiles|] == inputFiles;

    var source := fetch(GetBaseObject(policy.storage, ctx.baseCommit));
    var settled := Extract(source, allFiles);
    DedupAppend(inputFiles, Recorded(source));
    if settled.Pending? {
      return Pending;
    }
    if settled.Rejected? {
      return Rejected(settled.error);
    }

    var paths := allFiles.items;
    var settings := SettingsFor(policy, ctx, createTwoFilesPatch);
    var state := RunPool(paths, files, settings);
    PoolShape(paths, files, settings);
    if |state.errors| > 0 {
      return Rejected(state.errors[0]);
    }
    outcome := Fulfilled(Aggregate(state.order, state.patches, policy.diff));
  }

  /**
   * The comparison loop of `checkArtifacts`, one task per path in turn: a
   * failed read adds its error to the pool's list, a changed file adds its
   * patch value to the `patches` map.
   */
  method RunPool(paths: seq<string>, files: Files, settings: DiffSettings) returns (state: PoolState)
    ensures state == Pool(paths, files, settings)
  {
    var errors: seq<Error> := [];
    var order: seq<string> := [];
    var patches: map<string, PatchValue> := map[];
    for i := 0 to |paths|
      invariant PoolState(errors, order, patches) == Pool(paths[..i], files, settings)
    {
      assert paths[..i + 1][..i] == paths[..i];
      var filePath := paths[i];
      var newCopy := MaybeReadFile(files.local, filePath);
      var baseCopy := MaybeReadFile(files.extracted, filePath);
      if newCopy.Failure? {
        errors := errors + [newCopy.error];
      } else if baseCopy.Failure? {
        errors := errors + [baseCopy.error];
      } else if Differs(newCopy.value, baseCopy.value) {
        if filePath !in patches {
          order := order + [filePath];
        }
        patches := patches[filePath := PatchFor(filePath, baseCopy.value, newCopy.value, settings)];
      }
    }
    assert paths[..|paths|] == paths;
    state := PoolState(errors, order, patches);
  }

  /** Adding the elements of `b` to a set built from `a` gives the set built from `a + b`. */
  lemma {:induction false} DedupAppend(a: seq<string>, b: seq<string>)
    ensures Dedup(Dedup(a) + b) == Dedup(a + b)
  {
    if b == [] {
      assert Dedup(a) + b == Dedup(a) && a + b == a;
      DedupOfDistinct(Dedup(a));
    } else {
      var init, last := b[..|b| - 1], b[|b| - 1];
      DedupAppend(a, init);
      assert Dedup(a) + b == (Dedup(a) + init) + [last];
      assert a + b == (a + init) + [last];
      DedupSnoc(Dedup(a) + init, last);
      DedupSnoc(a + init, last);
    }
  }

  // ---------------------------------------------------------------------------
  // What a check promises

  /**
   * A check that returns a verdict returns `{ result: true }` exactly when
   * every compared path has the same copy locally and in the snapshot;
   * otherwise `files` lists, sorted, exactly the paths whose copies differ.
   */
  lemma CheckVerdict(policy: Policy, ctx: Context,
                     globby: seq<string> -> seq<string>,
                     fetch: BaseObject -> seq<StreamEvent>,
                     files: Files,
                     createTwoFilesPatch: PatchRequest -> string)
    requires ExpectedCheck(policy, ctx, globby, fetch, files, createTwoFilesPatch).Fulfilled?
    ensures var events := fetch(GetBaseObject(policy.storage, ctx.baseCommit));
            var paths := ComparedPaths(globby(policy.files), events);
            var v := ExpectedCheck(policy, ctx, globby, fetch, files, createTwoFilesPatch).value;
            && (v.Unchanged? <==> forall p :: p in paths ==> CompareFile(p, files).Same?)
            && (v.Changed? ==> StrictlySorted(v.files))
            && (v.Changed? ==> forall p :: p in v.files <==> p in paths && CompareFile(p, files).Differ?)
  {
    var events := fetch(GetBaseObject(policy.storage, ctx.baseCommit));
    var paths := ComparedPaths(globby(policy.files), events);
    PoolUnchanged(paths, files, SettingsFor(policy, ctx, createTwoFilesPatch));
    PoolFiles(paths, files, SettingsFor(policy, ctx, createTwoFilesPatch));
  }

  /**
   * A changed verdict carries `patches` exactly when the policy asks for
   * diffs, keyed by the changed files.
   */
  lemma CheckPatches(policy: Policy, ctx: Context,
                     globby: seq<string> -> seq<string>,
                     fetch: BaseObject -> seq<StreamEvent>,
                     files: Files,
                     createTwoFilesPatch: PatchRequest -> string)
    requires ExpectedCheck(policy, ctx, globby, fetch, files, createTwoFilesPatch).Fulfilled?
    ensures var v := ExpectedCheck(policy, ctx, globby, fetch, files, createTwoFilesPatch).value;
            && (v.Changed? ==> (v.patches.Some? <==> policy.diff))
            && (v.Changed? && v.patches.Some? ==> forall p :: p in v.patches.value <==> p in v.files)
  {
    var events := fetch(GetBaseObject(policy.storage, ctx.baseCommit));
    var paths := ComparedPaths(globby(policy.files), events);
    ReturnedVerdict(policy, ctx, globby, fetch, files, createTwoFilesPatch);
    PoolVerdictPatches(paths, files, SettingsFor(policy, ctx, createTwoFilesPatch));
  }

  /** A check that returns a verdict returns the aggregate of an error-free pool over the compared paths. */
  lemma ReturnedVerdict(policy: Policy, ctx: Context,
                        globby: seq<string> -> seq<string>,
                        fetch: BaseObject -> seq<StreamEvent>,
                        files: Files,
                        createTwoFilesPatch: PatchRequest -> string)
    requires ExpectedCheck(policy, ctx, globby, fetch, files, createTwoFilesPatch).Fulfilled?
    ensures var paths := ComparedPaths(globby(policy.files), fetch(GetBaseObject(policy.storage, ctx.baseCommit)));
            var s := Pool(paths, files, SettingsFor(policy, ctx, createTwoFilesPatch));
            && |s.errors| == 0
            && NoDuplicates(s.order) && Elements(s.order) == s.patches.Keys
            && (policy.diff ==> forall k :: k in s.patches ==> s.patches[k].Patch?)
            && ExpectedCheck(policy, ctx, globby, fetch, files, createTwoFilesPatch).value == Aggregate(s.order, s.patches, policy.diff)
  {
    var paths := ComparedPaths(globby(policy.files), fetch(GetBaseObject(policy.storage, ctx.baseCommit)));
    PoolShape(paths, files, SettingsFor(policy, ctx, createTwoFilesPatch));
  }

  /** Each patch of a changed verdict is its file's diff. */
  lemma CheckPatchTexts(policy: Policy, ctx: Context,
                        globby: seq<string> -> seq<string>,
                        fetch: BaseObject -> seq<StreamEvent>,
                        files: Files,
                        createTwoFilesPatch: PatchRequest -> string)
    requires ExpectedCheck(policy, ctx, globby, fetch, files, createTwoFilesPatch).Fulfilled?
    ensures var v := ExpectedCheck(policy, ctx, globby, fetch, files, createTwoFilesPatch).value;
            && (v.Changed? && v.patches.Some? ==> forall p :: p in v.patches.value ==> CompareFile(p, files).Differ?)
            && (v.Changed? && v.patches.Some? ==> forall p :: p in v.patches.value ==>
                  v.patches.value[p] == GetDiff(p, CompareFile(p, files).baseCopy, CompareFile(p, files).newCopy,
                                                ctx.baseBranch, createTwoFilesPatch))
  {
    var events := fetch(GetBaseObject(policy.storage, ctx.baseCommit));
    var paths := ComparedPaths(globby(policy.files), events);
    ReturnedVerdict(policy, ctx, globby, fetch, files, createTwoFilesPatch);
    PoolVerdictPatches(paths, files, SettingsFor(policy, ctx, createTwoFilesPatch));
  }

  /** The verdict of a pool in which no task failed is unchanged exactly when every comparison found the same copies. */
  lemma PoolUnchanged(paths: seq<string>, files: Files, settings: DiffSettings)
    requires |Pool(paths, files, settings).errors| == 0
    ensures var s := Pool(paths, files, settings);
            && NoDuplicates(s.order) && Elements(s.order) == s.patches.Keys
            && (settings.diff ==> forall k :: k in s.patches ==> s.patches[k].Patch?)
    ensures var s := Pool(paths, files, settings);
            Aggregate(s.order, s.patches, settings.diff).Unchanged? <==> forall p :: p in paths ==> CompareFile(p, files).Same?
  {
    PoolShape(paths, files, settings);
    PoolPatches(paths, files, settings);
    PoolErrors(paths, files, settings);
    var s := Pool(paths, files, settings);
    if forall p :: p in paths ==> CompareFile(p, files).Same? {
      assert s.patches == map[];
    } else {
      var p :| p in paths && !CompareFile(p, files).Same?;
      assert p in s.patches;
    }
  }

  /** The files of a changed verdict: sorted, and exactly the paths whose copies differ. */
  lemma PoolFiles(paths: seq<string>, files: Files, settings: DiffSettings)
    requires |Pool(paths, files, settings).errors| == 0
    ensures var s := Pool(paths, files, settings);
            && NoDuplicates(s.order) && Elements(s.order) == s.patches.Keys
            && (settings.diff ==> forall k :: k in s.patches ==> s.patches[k].Patch?)
    ensures var s := Pool(paths, files, settings);
            var v := Aggregate(s.order, s.patches, settings.diff);
            && (v.Changed? ==> StrictlySorted(v.files))
            && (v.Changed? ==> forall p :: p in v.files <==> p in paths && CompareFile(p, files).Differ?)
  {
    PoolShape(paths, files, settings);
    PoolPatches(paths, files, settings);
    var s := Pool(paths, files, settings);
    var v := Aggregate(s.order, s.patches, settings.diff);
    if v.Changed? {
      forall p ensures p in v.files <==> p in paths && CompareFile(p, files).Differ? {
        assert p in v.files <==> p in Elements(v.files);
      }
    }
  }

  /** The patches of the verdict of a pool in which no task failed: each changed file's diff. */
  lemma PoolVerdictPatches(paths: seq<string>, files: Files, settings: DiffSettings)
    requires |Pool(paths, files, settings).errors| == 0
    ensures var s := Pool(paths, files, settings);
            && NoDuplicates(s.order) && Elements(s.order) == s.patches.Keys
            && (settings.diff ==> forall k :: k in s.patches ==> s.patches[k].Patch?)
    ensures var s := Pool(paths, files, settings);
            var v := Aggregate(s.order, s.patches, settings.diff);
            && (v.Changed? ==> (v.patches.Some? <==> settings.diff))
            && (v.Changed? && v.patches.Some? ==> forall p :: p in v.patches.value <==> p in v.files)
            && (v.Changed? && v.patches.Some? ==> forall p :: p in v.patches.value ==> CompareFile(p, files).Differ?)
            && (v.Changed? && v.patches.Some? ==> forall p :: p in v.patches.value ==>
                  v.patches.value[p] == GetDiff(p, CompareFile(p, files).baseCopy, CompareFile(p, files).newCopy,
                                                settings.baseBranch, settings.createTwoFilesPatch))
  {
    PoolShape(paths, files, settings);
    PoolPatches(paths, files, settings);
    var s := Pool(paths, files, settings);
    var v := Aggregate(s.order, s.patches, settings.diff);
    if v.Changed? && v.patches.Some? {
      forall p ensures p in v.patches.value <==> p in v.files {
        assert p in v.files <==> p in Elements(v.files);
      }
      forall p | p in v.patches.value
        ensures CompareFile(p, files).Differ?
        ensures v.patches.value[p] == GetDiff(p, CompareFile(p, files).baseCopy, CompareFile(p, files).newCopy,
                                              settings.baseBranch, settings.createTwoFilesPatch)
      {
        assert p in s.patches;
        assert s.patches[p] == Patch(v.patches.value[p]);
      }
    }
  }

  /**
   * When the snapshot unpacks but some comparison fails, the check throws the
   * error of the first path whose comparison failed, after every comparison ran.
   */
  lemma CheckThrowsFirstFailure(policy: Policy, ctx: Context,
                                globby: seq<string> -> seq<string>,
                                fetch: BaseObject -> seq<StreamEvent>,
                                files: Files,
                                createTwoFilesPatch: PatchRequest -> string, i: int)
    requires SettlementOf(fetch(GetBaseObject(policy.storage, ctx.baseCommit))) == Resolved
    requires FirstFailure(ComparedPaths(globby(policy.files), fetch(GetBaseObject(policy.storage, ctx.baseCommit))), files, i)
    ensures var paths := ComparedPaths(globby(policy.files), fetch(GetBaseObject(policy.storage, ctx.baseCommit)));
            ExpectedCheck(policy, ctx, globby, fetch, files, createTwoFilesPatch) == Rejected(CompareFile(paths[i], files).error)
  {
    var paths := ComparedPaths(globby(policy.files), fetch(GetBaseObject(policy.storage, ctx.baseCommit)));
    PoolFirstError(paths, files, SettingsFor(policy, ctx, createTwoFilesPatch), i);
  }

  /** An error on either stream before `finish` rejects the check with that error; no verdict is built. */
  lemma CheckRejectsOnStreamError(policy: Policy, ctx: Context,
                                  globby: seq<string> -> seq<string>,
                                  fetch: BaseObject -> seq<StreamEvent>,
                                  files: Files,
                                  createTwoFilesPatch: PatchRequest -> string, i: int)
    requires var events := fetch(GetBaseObject(policy.storage, ctx.baseCommit));
             0 <= i < |events| && IsError(events[i]) && forall k :: 0 <= k < i ==> !Settles(events[k])
    ensures var events := fetch(GetBaseObject(policy.storage, ctx.baseCommit));
            ExpectedCheck(policy, ctx, globby, fetch, files, createTwoFilesPatch) == Rejected(ToError(events[i].signal))
  {
    SettlementIsFirst(fetch(GetBaseObject(policy.storage, ctx.baseCommit)));
  }

  // ---------------------------------------------------------------------------
  // putArtifacts

  const NoFilesMessage: string := "cannot evaluate artifact policy: no files to check"

  /** The archive's entry paths: every matched file under the `artifacts/` prefix. */
  function ArchiveEntries(matched: seq<string>): seq<string> {
    seq(|matched|, i requires 0 <= i < |matched| => TarPrefix + Sep + matched[i])
  }

  /** The upload handed to the object store: where, which archive entries, and the content type. */
  datatype UploadRequest = UploadRequest(target: BaseObject, entries: seq<string>, contentType: string)

  /** A publish: the promise's outcome and the upload it asked for, if it got that far. */
  datatype PutRun = PutRun(result: Result<string, Error>, upload: Option<UploadRequest>)

  /**
   * `putArtifacts`: with no matched file it throws before packing or
   * uploading anything; otherwise it uploads the gzip archive of the matched
   * files to the key of the commit and returns that object's `s3://` URI.
   */
  function PutArtifacts(patterns: seq<string>, storage: StorageOptions, baseCommit: string,
                        globby: seq<string> -> seq<string>,
                        upload: UploadRequest -> Option<Error>): (run: PutRun)
    ensures |globby(patterns)| == 0 ==> run == PutRun(Failure(Error("", NoFilesMessage)), None)
    ensures |globby(patterns)| > 0 ==> run.upload.Some?
    ensures run.upload.Some? ==> run.upload.value.target == GetBaseObject(storage, baseCommit)
    ensures run.upload.Some? ==> |run.upload.value.entries| == |globby(patterns)|
    ensures run.upload.Some? ==> forall i :: 0 <= i < |globby(patterns)| ==>
              StartsWith(run.upload.value.entries[i], TarPrefix + Sep)
              && StripPrefix(run.upload.value.entries[i], TarPrefix) == globby(patterns)[i]
    ensures run.result.Success? ==> run.result.value == "s3://" + storage.bucket + "/" + GetKey(storage, baseCommit)
    ensures run.upload.Some? ==> (run.result.Success? <==> upload(run.upload.value).None?)
    ensures run.upload.Some? && upload(run.upload.value).Some? ==> run.result == Failure(upload(run.upload.value).value)
    ensures run.upload.Some? ==> run.upload.value.contentType == "application/gzip"
  {
    var matched := globby(patterns);
    if |matched| == 0 then
      PutRun(Failure(Error("", NoFilesMessage)), None)
    else
      var base := GetBaseObject(storage, baseCommit);
      var request := UploadRequest(base, ArchiveEntries(matched), "application/gzip");
      forall i | 0 <= i < |matched|
        ensures StripPrefix(request.entries[i], TarPrefix) == matched[i]
      {
        StripPrefixRoundTrip(matched[i], TarPrefix);
      }
      match upload(request)
      case Some(e) => PutRun(Failure(e), Some(request))
      case None => PutRun(Success(ObjectUri(base)), Some(request))
  }

  // ---------------------------------------------------------------------------
  // Publishing, then checking against what was published

  /** The events of an archive stream that unpacks cleanly: one `onentry` per entry, then `finish`. */
  function PackedEvents(entries: seq<string>): seq<StreamEvent> {
    seq(|entries|, i requires 0 <= i < |entries| => Entry(entries[i])) + [Finish]
  }

  lemma {:induction false} RecordedEntries(entries: seq<string>)
    ensures var events := seq(|entries|, i requires 0 <= i < |entries| => Entry(entries[i]));
            !HasError(events)
            && Recorded(events) == seq(|entries|, i requires 0 <= i < |entries| => StripPrefix(entries[i], TarPrefix))
  {
    var events := seq(|entries|, i requires 0 <= i < |entries| => Entry(entries[i]));
    if entries != [] {
      var init := entries[..|entries| - 1];
      RecordedEntries(init);
      assert events[..|events| - 1] == seq(|init|, i requires 0 <= i < |init| => Entry(init[i]));
    }
  }

  /**
   * Publishing the working tree for a commit and then checking the same tree
   * against that commit finds nothing changed, provided the store gives back
   * the archive that was uploaded and unpacking it restores every file.
   */
  lemma PublishThenVerify(patterns: seq<string>, storage: StorageOptions, commit: string,
                          globby: seq<string> -> seq<string>,
                          upload: UploadRequest -> Option<Error>,
                          fetch: BaseObject -> seq<StreamEvent>,
                          files: Files, diff: bool, baseBranch: string,
                          createTwoFilesPatch: PatchRequest -> string)
    requires PutArtifacts(patterns, storage, commit, globby, upload).result.Success?
    requires var request := PutArtifacts(patterns, storage, commit, globby, upload).upload.value;
             fetch(request.target) == PackedEvents(request.entries)
    requires forall p :: p in globby(patterns) ==>
               MaybeReadFile(files.local, p).Success? && MaybeReadFile(files.extracted, p) == MaybeReadFile(files.local, p)
    ensures ExpectedCheck(Policy(patterns, diff, storage), Context(baseBranch, commit), globby, fetch, files,
                          createTwoFilesPatch) == Fulfilled(Unchanged)
  {
    var matched := globby(patterns);
    var request := PutArtifacts(patterns, storage, commit, globby, upload).upload.value;
    var events := fetch(GetBaseObject(storage, commit));
    PackedSnapshot(request.entries, matched);
    var paths := ComparedPaths(matched, events);
    forall p | p in paths ensures CompareFile(p, files).Same? {
      assert p in Elements(paths);
    }
    PoolAllSame(paths, files, SettingsFor(Policy(patterns, diff, storage), Context(baseBranch, commit), createTwoFilesPatch));
  }

  /** Unpacking an archive whose entries strip back to `matched` records exactly `matched` and resolves. */
  lemma PackedSnapshot(entries: seq<string>, matched: seq<string>)
    requires |entries| == |matched|
    requires forall i :: 0 <= i < |matched| ==> StripPrefix(entries[i], TarPrefix) == matched[i]
    ensures Recorded(PackedEvents(entries)) == matched
    ensures SettlementOf(PackedEvents(entries)) == Resolved
  {
    var events := PackedEvents(entries);
    var entryEvents := seq(|entries|, i requires 0 <= i < |entries| => Entry(entries[i]));
    assert events[..|events| - 1] == entryEvents;
    RecordedEntries(entries);
    assert Recorded(entryEvents) == matched;
    SettlementIsFirst(entryEvents);
    assert SettlementOf(entryEvents) == Pending;
  }

  /** When every comparison finds the same copies, the pool collects no error and no patch. */
  lemma {:induction false} PoolAllSame(paths: seq<string>, files: Files, settings: DiffSettings)
    requires forall p :: p in paths ==> CompareFile(p, files).Same?
    ensures Pool(paths, files, settings) == PoolState([], [], map[])
  {
    if paths != [] {
      var init := paths[..|paths| - 1];
      assert forall p :: p in init ==> p in paths;
      PoolAllSame(init, files, settings);
    }
  }

  /** The example of the compared set: snapshot paths {a, b} and local matches {b, c} give {a, b, c}. */
  lemma UnionExample()
    ensures var events := [Entry("artifacts/a"), Entry("artifacts/b"), Finish];
            Elements(ComparedPaths(["b", "c"], events)) == {"a", "b", "c"}
  {
    var events := [Entry("artifacts/a"), Entry("artifacts/b"), Finish];
    RecordedEntries(["artifacts/a", "artifacts/b"]);
    assert events[..2] == seq(2, i requires 0 <= i < 2 => Entry(["artifacts/a", "artifacts/b"][i]));
    StripPrefixRoundTrip("a", TarPrefix);
    StripPrefixRoundTrip("b", TarPrefix);
    assert Recorded(events) == ["a", "b"];
  }
}
