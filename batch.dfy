/** The command-line driver: the `--quiet`/`--verbose` mapping, the batch
    loop over a directory's documents with its retry-after-restart policy,
    and the single-file mode with its one unconditional retry.

    Word is not modelled; each document comes with the outcome of each
    conversion attempt and of relaunching Word, as Word would produce them. */
module Batch {
  import opened Wrappers
  import Text
  import Paths

  // -------------------------------------------------------------- verbosity

  /** The verbosity `main` derives from its flags, or None when both are
      given (an error, exit status 1). */
  function Verbosity(quiet: bool, verbose: bool): (r: Option<nat>)
    ensures r.None? <==> quiet && verbose
    ensures r.Some? ==> r.value <= 2
    ensures r.Some? ==> (r.value == 0 <==> quiet) && (r.value == 2 <==> verbose)
  {
    if quiet && verbose then None
    else if quiet then Some(0)
    else if verbose then Some(2)
    else Some(1)
  }

  // ----------------------------------------------------- transient failures

  /** RPC_S_SERVER_UNAVAILABLE as a signed HRESULT. */
  const RpcServerUnavailable: int := -2147023174
  /** RPC_S_CALL_FAILED as a signed HRESULT. */
  const RpcCallFailed: int := -2147023170
  /** The invalid-pointer HRESULT, 0x80004003. */
  const InvalidPointer: int := -2147467261

  /** An exception a conversion attempt raises. */
  datatype Failure =
      /** `pywintypes.com_error`; `code` is `args[0]` when that is an `int`,
          None when there is no such argument or it is not an `int`. */
    | ComError(code: Option<int>)
      /** `TypeError` with the text of `str(exc)`. */
    | TypeError(message: string)
      /** Any other exception. */
    | OtherError

  /** `_is_rpc_or_pointer_error`: a COM error carrying one of the three RPC
      or pointer codes (recognised only when `pywintypes` could be
      imported), or a `TypeError` saying the object does not support
      enumeration. */
  predicate IsTransient(e: Failure, pywintypes: bool) {
    match e
    case ComError(code) =>
      pywintypes && code.Some? && code.value in {RpcServerUnavailable, RpcCallFailed, InvalidPointer}
    case TypeError(message) => Text.Contains(message, "does not support enumeration")
    case OtherError => false
  }

  // ------------------------------------------------------------ one document

  /** One document of the batch: its path and what happens on each attempt
      (None for success), and whether relaunching Word succeeds. */
  datatype Job = Job(path: string, first: Option<Failure>, second: Option<Failure>, relaunchOk: bool)

  /** What the retry loop makes of one document. */
  datatype FileOutcome =
    | Converted
    | Failed(last: Failure)
      /** Relaunching Word raised; the exception leaves `main`. */
    | Aborted

  /** What happens to Word and to the document, in order. */
  datatype Event =
    | Launch(ok: bool)                     // `Dispatch("Word.Application")`
    | Quit                                 // `word.Quit()` (its failure is ignored)
    | Convert(input: string, output: string)

  /** The retry policy: a second attempt only after a transient failure of
      the first one and a successful relaunch. */
  function Outcome(job: Job, pywintypes: bool): FileOutcome {
    match job.first
    case None => Converted
    case Some(e) =>
      if !IsTransient(e, pywintypes) then Failed(e)
      else if !job.relaunchOk then Aborted
      else match job.second
        case None => Converted
        case Some(e2) => Failed(e2)
  }

  /** The events of one document: its first attempt, and on a transient
      failure the restart of Word and, when Word came back, the second
      attempt. */
  function FileEvents(job: Job, pywintypes: bool): seq<Event> {
    var attempt := Convert(job.path, Paths.DefaultOutputPath(job.path));
    if job.first.Some? && IsTransient(job.first.value, pywintypes) then
      [attempt, Quit, Launch(job.relaunchOk)] + (if job.relaunchOk then [attempt] else [])
    else [attempt]
  }

  /** The number of conversion attempts among the events. */
  function Attempts(events: seq<Event>): nat
  {
    if events == [] then 0
    else (if events[0].Convert? then 1 else 0) + Attempts(events[1..])
  }

  /** The number of launches among the events. */
  function Launches(events: seq<Event>): nat
  {
    if events == [] then 0
    else (if events[0].Launch? then 1 else 0) + Launches(events[1..])
  }

  /** The counts of the events of a restart. */
  lemma CountRestart(a: Event, relaunched: bool)
    requires a.Convert?
    ensures var e := [a, Quit, Launch(relaunched)] + (if relaunched then [a] else []);
      && Attempts(e) == (if relaunched then 2 else 1) && Launches(e) == 1
      && Attempts([a]) == 1 && Launches([a]) == 0
  {
    var tail := if relaunched then [a] else [];
    assert [a][1..] == [] && [Quit][1..] == [] && [Launch(relaunched)][1..] == [];
    CountsConcat([a], [Quit]);
    CountsConcat([a] + [Quit], [Launch(relaunched)]);
    CountsConcat([a] + [Quit] + [Launch(relaunched)], tail);
    assert [a, Quit, Launch(relaunched)] + tail == [a] + [Quit] + [Launch(relaunched)] + tail;
  }

  /** A document is attempted once or twice; twice exactly when the first
      attempt failed transiently (one of the three COM codes while
      `pywintypes` is available, or the enumeration `TypeError`) and Word
      was relaunched. */
  lemma AtMostTwoAttempts(job: Job, pywintypes: bool)
    ensures 1 <= Attempts(FileEvents(job, pywintypes)) <= 2
    ensures Attempts(FileEvents(job, pywintypes)) == 2 <==>
      job.first.Some? && IsTransient(job.first.value, pywintypes) && job.relaunchOk
    ensures Attempts(FileEvents(job, pywintypes)) == 2 <==>
      && job.relaunchOk
      && (|| (pywintypes && job.first in {Some(ComError(Some(-2147023174))), Some(ComError(Some(-2147023170))), Some(ComError(Some(-2147467261)))})
          || (job.first.Some? && job.first.value.TypeError? && Text.Contains(job.first.value.message, "does not support enumeration")))
  {
    var a := Convert(job.path, Paths.DefaultOutputPath(job.path));
    CountRestart(a, job.relaunchOk);
  }

  /** Word is restarted for a document exactly when its first attempt
      failed transiently (one of the three COM codes while `pywintypes` is
      available, or the enumeration `TypeError`), and never more than once. */
  lemma RestartOnlyOnTransientFailure(job: Job, pywintypes: bool)
    ensures Launches(FileEvents(job, pywintypes)) <= 1
    ensures Launches(FileEvents(job, pywintypes)) == 1 <==>
      job.first.Some? && IsTransient(job.first.value, pywintypes)
    ensures Launches(FileEvents(job, pywintypes)) == 1 <==>
      || (pywintypes && job.first in {Some(ComError(Some(-2147023174))), Some(ComError(Some(-2147023170))), Some(ComError(Some(-2147467261)))})
      || (job.first.Some? && job.first.value.TypeError? && Text.Contains(job.first.value.message, "does not support enumeration"))
  {
    var a := Convert(job.path, Paths.DefaultOutputPath(job.path));
    CountRestart(a, job.relaunchOk);
  }

  /** A document that fails for a non-transient reason is not retried and
      fails with that exception; one whose first attempt succeeds is done. */
  lemma NoRetryUnlessTransient(job: Job, pywintypes: bool)
    requires job.first.None? || !IsTransient(job.first.value, pywintypes)
    ensures FileEvents(job, pywintypes) == [Convert(job.path, Paths.DefaultOutputPath(job.path))]
    ensures Outcome(job, pywintypes) == if job.first.None? then Converted else Failed(job.first.value)
  {
  }

  /** The `for attempt in range(2)` loop for one document, with its
      `break`s. */
  method ConvertWithRetry(job: Job, pywintypes: bool) returns (outcome: FileOutcome, events: seq<Event>)
    ensures outcome == Outcome(job, pywintypes)
    ensures events == FileEvents(job, pywintypes)
  {
    var outPath := Paths.DefaultOutputPath(job.path);
    var success := false;
    var lastExc: Option<Failure> := None;
    var aborted := false;
    events := [];
    var attempt := 0;
    while attempt < 2
      invariant 0 <= attempt <= 1
      invariant !success && !aborted
      invariant attempt == 0 ==> events == [] && lastExc.None?
      invariant attempt == 1 ==>
        && job.first.Some? && IsTransient(job.first.value, pywintypes) && job.relaunchOk
        && events == [Convert(job.path, outPath), Quit, Launch(true)]
      decreases 2 - attempt
    {
      events := events + [Convert(job.path, outPath)];
      var result := if attempt == 0 then job.first else job.second;
      if result.None? {
        success := true;
        break;
      }
      lastExc := result;
      if attempt == 0 && IsTransient(result.value, pywintypes) {
        events := events + [Quit, Launch(job.relaunchOk)];
        if !job.relaunchOk {
          aborted := true;
          break;
        }
      } else {
        break;
      }
      attempt := attempt + 1;
    }
    if aborted {
      outcome := Aborted;
    } else if success {
      outcome := Converted;
    } else {
      outcome := Failed(lastExc.value);
    }
  }

  // ------------------------------------------------------------------ batch

  /** The counters of the batch loop; `aborted` once an exception has left
      the loop, after which no further document is processed. */
  datatype Tally = Tally(ok: nat, fail: nat, aborted: bool)

  /** The tally after the given documents. */
  function Run(jobs: seq<Job>, pywintypes: bool): (t: Tally)
    ensures t.ok + t.fail <= |jobs|
    ensures !t.aborted ==> t.ok + t.fail == |jobs|
    decreases |jobs|
  {
    if jobs == [] then Tally(0, 0, false)
    else
      var t := Run(jobs[..|jobs| - 1], pywintypes);
      if t.aborted then t else Advance(t, Outcome(jobs[|jobs| - 1], pywintypes))
  }

  /** The counters after one more document. */
  function Advance(t: Tally, o: FileOutcome): Tally {
    match o
    case Converted => Tally(t.ok + 1, t.fail, false)
    case Failed(_) => Tally(t.ok, t.fail + 1, false)
    case Aborted => Tally(t.ok, t.fail, true)
  }

  /** The events of the documents processed, in order. */
  function RunEvents(jobs: seq<Job>, pywintypes: bool): seq<Event>
    decreases |jobs|
  {
    if jobs == [] then []
    else
      var init := jobs[..|jobs| - 1];
      if Run(init, pywintypes).aborted then RunEvents(init, pywintypes)
      else RunEvents(init, pywintypes) + FileEvents(jobs[|jobs| - 1], pywintypes)
  }

  /** How a directory run ends. */
  datatype BatchOutcome =
      /** No `.doc`/`.docx` file was found. */
    | NoFiles
      /** `win32com` could not be imported. */
    | NoPywin32
      /** Word could not be started, or could not be restarted: the
          exception leaves `main`. */
    | Crashed(tally: Tally)
      /** The summary line with its counts. */
    | Summary(ok: nat, fail: nat, total: nat)

  /** The directory branch of `main` for the documents `_iter_doc_files`
      found, `win32com` and `pywintypes` telling whether those modules
      could be imported and `launchOk` whether the first `Dispatch`
      succeeds. */
  function Batch(jobs: seq<Job>, win32com: bool, pywintypes: bool, launchOk: bool): BatchOutcome {
    if jobs == [] then NoFiles
    else if !win32com then NoPywin32
    else if !launchOk then Crashed(Tally(0, 0, true))
    else
      var t := Run(jobs, pywintypes);
      if t.aborted then Crashed(t) else Summary(t.ok, t.fail, |jobs|)
  }

  /** The events of the directory branch: the launch, the documents and
      the final `Quit` in the `finally` block (none when Word never
      started). */
  function BatchEvents(jobs: seq<Job>, win32com: bool, pywintypes: bool, launchOk: bool): seq<Event> {
    if jobs == [] || !win32com then []
    else if !launchOk then [Launch(false)]
    else [Launch(true)] + RunEvents(jobs, pywintypes) + [Quit]
  }

  /** The exit status: 0 when no file was found or none failed, 1 otherwise;
      an exception that leaves `main` also ends the interpreter with 1. */
  function ExitStatus(b: BatchOutcome): (code: int)
    ensures code == 0 || code == 1
  {
    match b
    case NoFiles => 0
    case NoPywin32 => 1
    case Crashed(_) => 1
    case Summary(_, fail, _) => if fail == 0 then 0 else 1
  }

  /** The directory branch of `main` once `_iter_doc_files` has listed the
      documents: the two early returns, the launch of Word, the loop, and
      the `Quit` of the `finally` block. */
  method RunBatch(jobs: seq<Job>, win32com: bool, pywintypes: bool, launchOk: bool)
    returns (outcome: BatchOutcome, events: seq<Event>)
    ensures outcome == Batch(jobs, win32com, pywintypes, launchOk)
    ensures events == BatchEvents(jobs, win32com, pywintypes, launchOk)
  {
    events := [];
    if jobs == [] {
      return NoFiles, events;
    }
    if !win32com {
      return NoPywin32, events;
    }
    events := [Launch(launchOk)];
    if !launchOk {
      return Crashed(Tally(0, 0, true)), events;
    }
    var tally, documentEvents := ConvertAll(jobs, pywintypes);
    events := events + documentEvents + [Quit];
    if tally.aborted {
      outcome := Crashed(tally);
    } else {
      outcome := Summary(tally.ok, tally.fail, |jobs|);
    }
  }

  /** The loop over the documents, counting successes and failures; an
      abort leaves the loop. */
  method ConvertAll(jobs: seq<Job>, pywintypes: bool) returns (tally: Tally, events: seq<Event>)
    ensures tally == Run(jobs, pywintypes)
    ensures events == RunEvents(jobs, pywintypes)
  {
    var ok, fail := 0, 0;
    var aborted := false;
    events := [];
    var idx := 0;
    assert jobs[..idx] == [];
    while idx < |jobs|
      invariant 0 <= idx <= |jobs|
      invariant Run(jobs[..idx], pywintypes) == Tally(ok, fail, aborted)
      invariant events == RunEvents(jobs[..idx], pywintypes)
      invariant !aborted
    {
      RunSnoc(jobs, idx, pywintypes);
      var fileEvents;
      ok, fail, aborted, fileEvents := ConvertOne(jobs[idx], pywintypes, ok, fail);
      events := events + fileEvents;
      idx := idx + 1;
      if aborted {
        break;
      }
    }
    tally := Tally(ok, fail, aborted);
    if aborted {
      AbortedRunStops(jobs, idx, pywintypes);
    } else {
      assert jobs[..idx] == jobs;
    }
  }

  /** The body of the loop for one document: convert it, with the retry
      policy, and count the result. */
  method ConvertOne(job: Job, pywintypes: bool, ok: nat, fail: nat)
    returns (ok': nat, fail': nat, aborted: bool, fileEvents: seq<Event>)
    ensures Tally(ok', fail', aborted) == Advance(Tally(ok, fail, false), Outcome(job, pywintypes))
    ensures fileEvents == FileEvents(job, pywintypes)
  {
    var result;
    result, fileEvents := ConvertWithRetry(job, pywintypes);
    ok', fail', aborted := ok, fail, false;
    match result {
      case Converted => ok' := ok + 1;
      case Failed(_) => fail' := fail + 1;
      case Aborted => aborted := true;
    }
  }

  /** One more document, while the loop has not aborted. */
  lemma RunSnoc(jobs: seq<Job>, k: nat, pywintypes: bool)
    requires k < |jobs| && !Run(jobs[..k], pywintypes).aborted
    ensures Run(jobs[..k + 1], pywintypes) == Advance(Run(jobs[..k], pywintypes), Outcome(jobs[k], pywintypes))
    ensures RunEvents(jobs[..k + 1], pywintypes) == RunEvents(jobs[..k], pywintypes) + FileEvents(jobs[k], pywintypes)
  {
    assert jobs[..k + 1][..k] == jobs[..k];
  }

  /** Once a document aborts the loop, the rest of the documents change
      neither the tally nor the events. */
  lemma {:induction false} AbortedRunStops(jobs: seq<Job>, k: nat, pywintypes: bool)
    requires 0 < k <= |jobs| && Run(jobs[..k], pywintypes).aborted
    ensures Run(jobs, pywintypes) == Run(jobs[..k], pywintypes)
    ensures RunEvents(jobs, pywintypes) == RunEvents(jobs[..k], pywintypes)
    decreases |jobs| - k
  {
    if k < |jobs| {
      assert jobs[..k + 1][..k] == jobs[..k];
      AbortedRunStops(jobs, k + 1, pywintypes);
    } else {
      assert jobs[..k] == jobs;
    }
  }

  /** The number of documents the retry policy converts. */
  function Succeeded(jobs: seq<Job>, pywintypes: bool): nat
    decreases |jobs|
  {
    if jobs == [] then 0
    else Succeeded(jobs[..|jobs| - 1], pywintypes) + (if Outcome(jobs[|jobs| - 1], pywintypes).Converted? then 1 else 0)
  }

  /** No document aborts the loop. */
  predicate NoneAborts(jobs: seq<Job>, pywintypes: bool) {
    forall i :: 0 <= i < |jobs| ==> !Outcome(jobs[i], pywintypes).Aborted?
  }

  /** Without an abort every document is counted once, in `ok` when the
      retry policy converted it and in `fail` otherwise. */
  lemma {:induction false} RunCountsEveryDocument(jobs: seq<Job>, pywintypes: bool)
    ensures !Run(jobs, pywintypes).aborted <==> NoneAborts(jobs, pywintypes)
    ensures NoneAborts(jobs, pywintypes) ==>
      && Run(jobs, pywintypes).ok == Succeeded(jobs, pywintypes)
      && Run(jobs, pywintypes).fail == |jobs| - Succeeded(jobs, pywintypes)
    decreases |jobs|
  {
    if jobs != [] {
      var init := jobs[..|jobs| - 1];
      RunCountsEveryDocument(init, pywintypes);
      assert forall i :: 0 <= i < |init| ==> init[i] == jobs[i];
      if !NoneAborts(init, pywintypes) {
        var i :| 0 <= i < |init| && Outcome(init[i], pywintypes).Aborted?;
        assert Outcome(jobs[i], pywintypes).Aborted?;
      }
    }
  }

  /** A directory run that reaches its summary has `ok + fail == total`,
      and it exits with 0 exactly when no document failed. */
  lemma SummaryAccounts(jobs: seq<Job>, win32com: bool, pywintypes: bool, launchOk: bool)
    ensures var b := Batch(jobs, win32com, pywintypes, launchOk);
      b.Summary? ==> b.ok + b.fail == b.total == |jobs| && (ExitStatus(b) == 0 <==> b.fail == 0)
  {
  }

  /** A directory run exits with 0 exactly when it holds no document, or
      pywin32 is available, Word starts and every document is converted. */
  lemma BatchExitsZero(jobs: seq<Job>, win32com: bool, pywintypes: bool, launchOk: bool)
    ensures ExitStatus(Batch(jobs, win32com, pywintypes, launchOk)) == 0 <==>
      jobs == [] ||
      (win32com && launchOk && NoneAborts(jobs, pywintypes) && Succeeded(jobs, pywintypes) == |jobs|)
  {
    RunCountsEveryDocument(jobs, pywintypes);
  }

  /** Over the whole loop no more than two attempts per document are made. */
  lemma {:induction false} RunAttempts(jobs: seq<Job>, pywintypes: bool)
    ensures Attempts(RunEvents(jobs, pywintypes)) <= 2 * |jobs|
    decreases |jobs|
  {
    if jobs != [] {
      var init := jobs[..|jobs| - 1];
      RunAttempts(init, pywintypes);
      if !Run(init, pywintypes).aborted {
        CountsConcat(RunEvents(init, pywintypes), FileEvents(jobs[|jobs| - 1], pywintypes));
        AtMostTwoAttempts(jobs[|jobs| - 1], pywintypes);
      }
    }
  }

  lemma {:induction false} CountsConcat(a: seq<Event>, b: seq<Event>)
    ensures Attempts(a + b) == Attempts(a) + Attempts(b)
    ensures Launches(a + b) == Launches(a) + Launches(b)
  {
    if a == [] {
      assert a + b == b;
    } else {
      assert (a + b)[1..] == a[1..] + b;
      CountsConcat(a[1..], b);
    }
  }

  // ------------------------------------------------------------- single file

  /** The output path of single-file mode: `-o` when given and not empty,
      otherwise the input with its extension replaced by `.md`. */
  function SingleOutputPath(output: Option<string>, input: string): (r: string)
    ensures output.Some? && output.value != [] ==> r == output.value
    ensures (output.None? || output.value == []) ==> r == Paths.DefaultOutputPath(input)
  {
    if output.Some? && output.value != [] then output.value else Paths.DefaultOutputPath(input)
  }

  /** Single-file mode: `convert_doc_to_markdown` is called, and called once
      more when it reports failure; `firstOk` and `secondOk` are what the
      two calls return. */
  method SingleFile(firstOk: bool, secondOk: bool) returns (exitCode: int, calls: nat)
    ensures calls == (if firstOk then 1 else 2)
    ensures exitCode == (if firstOk || secondOk then 0 else 1)
  {
    calls := 1;
    var success := firstOk;
    if !success {
      calls := calls + 1;
      success := secondOk;
    }
    exitCode := if success then 0 else 1;
  }

  // -------------------------------------------------------------------- main

  /** The parsed command line. */
  datatype Cli = Cli(input: string, output: Option<string>, quiet: bool, verbose: bool)

  /** What `main` meets: whether the input is a directory, the documents
      found there with their outcomes, the imports and the launch of
      Word, and what the two single-file conversions report. */
  datatype Env = Env(isDirectory: bool, jobs: seq<Job>, win32com: bool, pywintypes: bool,
                     launchOk: bool, firstOk: bool, secondOk: bool)

  /** The exit status of `main`. */
  function MainExit(cli: Cli, env: Env): (code: int)
    ensures code == 0 || code == 1
    ensures cli.quiet && cli.verbose ==> code == 1
    ensures !(cli.quiet && cli.verbose) && !env.isDirectory ==> (code == 0 <==> env.firstOk || env.secondOk)
    ensures !(cli.quiet && cli.verbose) && env.isDirectory ==>
      code == ExitStatus(Batch(env.jobs, env.win32com, env.pywintypes, env.launchOk))
  {
    if Verbosity(cli.quiet, cli.verbose).None? then 1
    else if env.isDirectory then ExitStatus(Batch(env.jobs, env.win32com, env.pywintypes, env.launchOk))
    else if env.firstOk || env.secondOk then 0
    else 1
  }
}
