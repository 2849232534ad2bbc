/**
 * Unpacking the fetched snapshot (src/core.js, inside `checkArtifacts`): the
 * archive stream is piped into the tar extractor, every entry it reports is
 * added to the set of paths to compare, and a promise settles on the sink's
 * `finish` or on the first error of either stream. Errors go through
 * `interrupt`, which a flag keeps from acting twice.
 *
 * The streams themselves are not modelled: what they do is the sequence of
 * events they emit.
 */
module Extraction {
  import opened Wrappers
  import opened Text
  import opened Keys

  /**
   * The JavaScript `Set` of paths to compare: distinct strings in insertion
   * order.
   */
  class PathSet {
    var items: seq<string>

    ghost predicate Valid()
      reads this
    {
      NoDuplicates(items)
    }

    constructor ()
      ensures Valid() && items == []
    {
      items := [];
    }

    /** `set.add(x)`: appends `x` unless it is already there. */
    method Add(x: string)
      requires Valid()
      modifies this
      ensures Valid()
      ensures items == if x in old(items) then old(items) else old(items) + [x]
    {
      if x !in items {
        items := items + [x];
      }
    }
  }

  /** A promise settled without a value (`resolve()`). */
  type Settlement = Settled<()>

  const Resolved: Settlement := Fulfilled(())

  /** The `resolve`/`reject` pair of a `new Promise`: only the first call settles it. */
  class Deferred {
    var state: Settlement

    constructor ()
      ensures state == Pending
    {
      state := Pending;
    }

    method Resolve()
      modifies this
      ensures state == if old(state).Pending? then Resolved else old(state)
    {
      if state.Pending? {
        state := Resolved;
      }
    }

    method Reject(e: Error)
      modifies this
      ensures state == if old(state).Pending? then Rejected(e) else old(state)
    {
      if state.Pending? {
        state := Rejected(e);
      }
    }
  }

  /** What an `error` event carries: an error object, or a bare string. */
  datatype Signal = Thrown(error: Error) | Message(text: string)

  /** `typeof err === 'string' ? new Error(err) : err`. */
  function ToError(signal: Signal): (e: Error)
    ensures signal.Thrown? ==> e == signal.error
    ensures signal.Message? ==> e.message == signal.text && e.code == ""
  {
    match signal
    case Thrown(e) => e
    case Message(m) => Error("", m)
  }

  /** The error the sink emits when it is aborted. */
  const AbortError: Error := Error("TAR_ABORT", "aborted")

  /**
   * The closure state of `interrupt`: the `interrupted` flag and the number of
   * times the pipe has been torn down (`unpipe`, `destroy`, `abort`).
   */
  class Interrupter {
    var interrupted: bool
    var teardowns: nat
    const promise: Deferred

    /** The pipe is torn down exactly once after the first interrupt, never before. */
    ghost predicate Valid()
      reads this
    {
      teardowns == if interrupted then 1 else 0
    }

    constructor (promise: Deferred)
      ensures Valid() && !interrupted && this.promise == promise
    {
      interrupted := false;
      teardowns := 0;
      this.promise := promise;
    }

    /**
     * `interrupt(err)`: the first call sets the flag, rejects the promise and
     * tears the pipe down; aborting the sink raises one more error, which
     * comes back here and, like every later call, does nothing.
     */
    method Interrupt(signal: Signal)
      requires Valid()
      modifies this, promise
      ensures Valid() && interrupted
      ensures old(interrupted) ==> teardowns == old(teardowns) && promise.state == old(promise.state)
      ensures !old(interrupted) ==>
                promise.state == if old(promise.state).Pending? then Rejected(ToError(signal)) else old(promise.state)
      decreases if interrupted then 0 else 1
    {
      if interrupted {
        return;
      }
      interrupted := true;
      promise.Reject(ToError(signal));
      teardowns := teardowns + 1;
      // `sink.abort()` emits an error of its own, delivered to this handler.
      Interrupt(Thrown(AbortError));
    }
  }

  /** One event of the piped streams. */
  datatype StreamEvent =
    | Entry(path: string)          // the extractor's `onentry`
    | SourceError(signal: Signal)  // `source.on('error')`
    | SinkError(signal: Signal)    // `sink.on('error')`
    | Finish                       // `sink.on('finish')`

  predicate IsError(ev: StreamEvent) {
    ev.SourceError? || ev.SinkError?
  }

  /** Some event of the sequence is an error. */
  predicate HasError(events: seq<StreamEvent>) {
    exists i :: 0 <= i < |events| && IsError(events[i])
  }

  /** The prefix-stripped paths of the entries seen before the first error tears the pipe down. */
  function Recorded(events: seq<StreamEvent>): seq<string> {
    if events == [] then []
    else
      var init, last := events[..|events| - 1], events[|events| - 1];
      if last.Entry? && !HasError(init) then Recorded(init) + [StripPrefix(last.path, TarPrefix)]
      else Recorded(init)
  }

  /** The events that settle the promise: the sink's `finish` and every error. */
  predicate Settles(ev: StreamEvent) {
    ev.Finish? || IsError(ev)
  }

  /** How one settling event leaves the promise. */
  function SettledBy(ev: StreamEvent): Settlement
    requires Settles(ev)
  {
    if ev.Finish? then Resolved else Rejected(ToError(ev.signal))
  }

  /** The state of the promise after the events. */
  function SettlementOf(events: seq<StreamEvent>): Settlement {
    if events == [] then Pending
    else
      var init, last := events[..|events| - 1], events[|events| - 1];
      var before := SettlementOf(init);
      if !before.Pending? || !Settles(last) then before else SettledBy(last)
  }

  /**
   * The promise is settled by the first settling event and only by it; with
   * no such event it stays pending.
   */
  lemma {:induction false} SettlementIsFirst(events: seq<StreamEvent>)
    ensures (forall i :: 0 <= i < |events| ==> !Settles(events[i])) ==> SettlementOf(events) == Pending
    ensures forall i :: 0 <= i < |events| && Settles(events[i]) && (forall k :: 0 <= k < i ==> !Settles(events[k])) ==>
      SettlementOf(events) == SettledBy(events[i])
  {
    if events != [] {
      var init := events[..|events| - 1];
      SettlementIsFirst(init);
      assert forall k :: 0 <= k < |init| ==> init[k] == events[k];
    }
  }

  /**
   * The extraction step of `checkArtifacts`: replays the stream events into
   * the listeners, adding each recorded entry path to `allFiles`. Afterwards
   * the set holds its old paths and then the recorded ones, and the promise is
   * settled as the first settling event decides.
   */
  method Extract(events: seq<StreamEvent>, allFiles: PathSet) returns (settled: Settlement)
    requires allFiles.Valid()
    modifies allFiles
    ensures allFiles.Valid()
    ensures allFiles.items == Dedup(old(allFiles.items) + Recorded(events))
    ensures settled == SettlementOf(events)
  {
    var promise := new Deferred();
    var guard := new Interrupter(promise);
    ghost var start := allFiles.items;
    DedupOfDistinct(start);
    assert start + Recorded(events[..0]) == start;
    for i := 0 to |events|
      invariant guard.Valid() && allFiles.Valid()
      invariant guard.promise == promise
      invariant guard.interrupted <==> HasError(events[..i])
      invariant guard.interrupted ==> !promise.state.Pending?
      invariant promise.state == SettlementOf(events[..i])
      invariant allFiles.items == Dedup(start + Recorded(events[..i]))
    {
      StepFacts(events, i);
      CollectStep(start, events, i);
      Deliver(events[i], guard, allFiles);
    }
    assert events[..|events|] == events;
    settled := promise.state;
  }

  /**
   * One event reaching its listener: an entry is added while the pipe is
   * intact, an error goes to `interrupt`, and `finish` resolves.
   */
  method Deliver(ev: StreamEvent, guard: Interrupter, allFiles: PathSet)
    requires guard.Valid() && allFiles.Valid()
    requires guard.interrupted ==> !guard.promise.state.Pending?
    modifies guard, guard.promise, allFiles
    ensures guard.Valid() && allFiles.Valid()
    ensures guard.interrupted == (old(guard.interrupted) || IsError(ev))
    ensures guard.interrupted ==> !guard.promise.state.Pending?
    ensures guard.promise.state ==
              if !old(guard.promise.state).Pending? || !Settles(ev) then old(guard.promise.state) else SettledBy(ev)
    ensures allFiles.items ==
              if ev.Entry? && !old(guard.interrupted) && StripPrefix(ev.path, TarPrefix) !in old(allFiles.items)
              then old(allFiles.items) + [StripPrefix(ev.path, TarPrefix)]
              else old(allFiles.items)
  {
    match ev
    case Entry(p) =>
      if !guard.interrupted {
        allFiles.Add(StripPrefix(p, TarPrefix));
      }
    case SourceError(signal) =>
      guard.Interrupt(signal);
    case SinkError(signal) =>
      guard.Interrupt(signal);
    case Finish =>
      guard.promise.Resolve();
  }

  /** How one more event extends the set of collected paths. */
  lemma CollectStep(start: seq<string>, events: seq<StreamEvent>, i: nat)
    requires i < |events|
    ensures var before := Dedup(start + Recorded(events[..i]));
            Dedup(start + Recorded(events[..i + 1])) ==
              if events[i].Entry? && !HasError(events[..i]) && StripPrefix(events[i].path, TarPrefix) !in before
              then before + [StripPrefix(events[i].path, TarPrefix)]
              else before
  {
    StepFacts(events, i);
    var before := start + Recorded(events[..i]);
    if events[i].Entry? && !HasError(events[..i]) {
      var path := StripPrefix(events[i].path, TarPrefix);
      DedupSnoc(before, path);
      assert start + Recorded(events[..i + 1]) == before + [path];
    }
  }

  /** How one more event extends the error flag, the recorded paths and the settlement. */
  lemma StepFacts(events: seq<StreamEvent>, i: nat)
    requires i < |events|
    ensures HasError(events[..i + 1]) <==> HasError(events[..i]) || IsError(events[i])
    ensures Recorded(events[..i + 1]) ==
              if events[i].Entry? && !HasError(events[..i])
              then Recorded(events[..i]) + [StripPrefix(events[i].path, TarPrefix)]
              else Recorded(events[..i])
    ensures SettlementOf(events[..i + 1]) ==
              if !SettlementOf(events[..i]).Pending? || !Settles(events[i]) then SettlementOf(events[..i])
              else SettledBy(events[i])
  {
    var prefix := events[..i + 1];
    assert prefix[..i] == events[..i];
    if HasError(prefix) && !IsError(events[i]) {
      var k :| 0 <= k < |prefix| && IsError(prefix[k]);
      assert k < i && events[..i][k] == prefix[k];
    }
    if HasError(events[..i]) {
      var k :| 0 <= k < i && IsError(events[..i][k]);
      assert prefix[k] == events[..i][k];
    }
  }

  /** The distinct elements of `s` in order of first occurrence: a `Set` built by adding them in turn. */
  function Dedup(s: seq<string>): (r: seq<string>)
    ensures NoDuplicates(r)
    ensures Elements(r) == Elements(s)
  {
    if s == [] then []
    else
      var init := s[..|s| - 1];
      var d := Dedup(init);
      assert Elements(s) == Elements(init) + {s[|s| - 1]} by {
        assert s == init + [s[|s| - 1]];
      }
      if s[|s| - 1] in d then d else d + [s[|s| - 1]]
  }

  lemma DedupSnoc(s: seq<string>, x: string)
    ensures Dedup(s + [x]) == if x in Dedup(s) then Dedup(s) else Dedup(s) + [x]
  {
    assert (s + [x])[..|s|] == s;
  }

  /** A sequence without duplicates is its own `Dedup`. */
  lemma {:induction false} DedupOfDistinct(s: seq<string>)
    requires NoDuplicates(s)
    ensures Dedup(s) == s
  {
    if s != [] {
      var init := s[..|s| - 1];
      DedupOfDistinct(init);
      assert s[|s| - 1] !in init by {
        forall k | 0 <= k < |init| ensures init[k] != s[|s| - 1] {
          assert init[k] == s[k];
        }
      }
      assert s == init + [s[|s| - 1]];
    }
  }
}
