/**
 * The worker base class of workers/worker.py: what a worker is built from,
 * how it decodes the output of its command bundle, what one pass of each of
 * its three polling loops decides, how long it pauses between passes, and how
 * `run` handles what a loop raises. The subclasses (local disk, local
 * database) build on the `Worker` object by holding one.
 */
module Worker {
  import opened Wrappers
  import opened Text
  import opened CommandBundle
  import Context

  /** The three loops `run` can dispatch to. */
  datatype Kind = Local | Remote | FunctionCall

  /** The loop a worker type selects, by its prefix; `__init__` asserts that one does. */
  function KindOf(workerType: string): (k: Option<Kind>)
    ensures k == Some(Local) <==> "local" <= workerType
    ensures k == Some(Remote) <==> "remote" <= workerType
    ensures k == Some(FunctionCall) <==> "function" <= workerType
  {
    assert "local" <= workerType ==> workerType[0] == 'l';
    assert "remote" <= workerType ==> workerType[0] == 'r';
    assert "function" <= workerType ==> workerType[0] == 'f';
    if "local" <= workerType then Some(Local)
    else if "remote" <= workerType then Some(Remote)
    else if "function" <= workerType then Some(FunctionCall)
    else None
  }

  // ---- Error texts handed to on_error (before msg_from_host tags them) ----------

  /** `f"{type(ex).__name__}: {ex}"` for the ValueError of `list.index`. */
  function DecodeErrorText(e: DecodeError): string {
    "ValueError: '" + e.marker + "' is not in list"
  }

  /** `f"{type(ex).__name__}: {ex}"` for the KeyError of a missing section. */
  function KeyErrorText(key: string): string {
    "KeyError: '" + key + "'"
  }

  function ExitErrorText(code: int, stderr: string): string {
    "Error, exitcode=" + IntText(code) + ", stderr=" + stderr
  }

  function RemoteExitErrorText(status: int): string {
    "Remote command error, exitcode=" + IntText(status)
  }

  // ---- One pass of the local and remote loops ---------------------------------

  /**
   * What a pass of the local loop makes of a finished subprocess: the text it
   * reports through `on_error`, or the sections it hands to
   * `process_result_dict`. Only a non-zero exit code WITH something on stderr
   * counts as a failed run; any other run is decoded.
   */
  function LocalResult(returnCode: int, stdout: string, stderr: string, names: seq<string>)
    : (r: Result<map<string, string>, string>)
    ensures returnCode != 0 && stderr != "" ==> r == Err(ExitErrorText(returnCode, stderr))
    ensures !(returnCode != 0 && stderr != "") ==>
              (r.Ok? <==> forall i :: 0 <= i < |names| ==> Marked(Split(stdout, '\n'), names[i]))
    ensures !(returnCode != 0 && stderr != "") && r.Err? ==>
              exists i, e :: 0 <= i < |names| && FirstMissing(Split(stdout, '\n'), names, i, e) && r == Err(DecodeErrorText(e))
    ensures r.Ok? ==> forall k :: k in r.value <==> k in names
    ensures r.Ok? ==> forall k :: k in r.value ==> Section(Split(stdout, '\n'), k) == Ok(r.value[k])
  {
    if returnCode != 0 && stderr != "" then Err(ExitErrorText(returnCode, stderr))
    else
      DecodeLinesOk(Split(stdout, '\n'), names);
      match Decode(stdout, names)
      case Ok(m) =>
        DecodeLinesValue(Split(stdout, '\n'), names);
        Ok(m)
      case Err(e) =>
        DecodeLinesError(Split(stdout, '\n'), names);
        Err(DecodeErrorText(e))
  }

  /** The same for the remote loop, where any non-zero exit status is a failed run. */
  function RemoteResult(exitStatus: int, stdout: string, names: seq<string>)
    : (r: Result<map<string, string>, string>)
    ensures exitStatus != 0 ==> r == Err(RemoteExitErrorText(exitStatus))
    ensures exitStatus == 0 ==>
              (r.Ok? <==> forall i :: 0 <= i < |names| ==> Marked(Split(stdout, '\n'), names[i]))
    ensures exitStatus == 0 && r.Err? ==>
              exists i, e :: 0 <= i < |names| && FirstMissing(Split(stdout, '\n'), names, i, e) && r == Err(DecodeErrorText(e))
    ensures r.Ok? ==> forall k :: k in r.value <==> k in names
    ensures r.Ok? ==> forall k :: k in r.value ==> Section(Split(stdout, '\n'), k) == Ok(r.value[k])
  {
    if exitStatus != 0 then Err(RemoteExitErrorText(exitStatus))
    else
      DecodeLinesOk(Split(stdout, '\n'), names);
      match Decode(stdout, names)
      case Ok(m) =>
        DecodeLinesValue(Split(stdout, '\n'), names);
        Ok(m)
      case Err(e) =>
        DecodeLinesError(Split(stdout, '\n'), names);
        Err(DecodeErrorText(e))
  }

  /** A clean local run of a well-formed bundle hands every sub-command's own output on, empty ones included. */
  lemma LocalCleanRun(names: seq<string>, outputs: map<string, Output>, trailer: seq<string>, stderr: string)
    requires WellFormedRun(names, outputs)
    requires WholeLines(trailer)
    ensures LocalResult(0, Join(BundleLines(names, outputs) + trailer, "\n"), stderr, names)
            == Ok(RunTexts(names, outputs))
  {
    RoundTrip(names, outputs, trailer);
  }

  /** A clean remote run likewise. */
  lemma RemoteCleanRun(names: seq<string>, outputs: map<string, Output>, trailer: seq<string>)
    requires WellFormedRun(names, outputs)
    requires WholeLines(trailer)
    ensures RemoteResult(0, Join(BundleLines(names, outputs) + trailer, "\n"), names)
            == Ok(RunTexts(names, outputs))
  {
    RoundTrip(names, outputs, trailer);
  }

  // ---- Pacing -------------------------------------------------------------------

  /** The shortest pause between two passes. */
  const MinPause: real := 0.05

  /** The pause the function loop takes before each pass. */
  const FunctionWarmup: real := 0.2

  /** `max(0.05, poll_delay - consumed_time)`. */
  function Pause(pollDelay: real, consumed: real): (d: real)
    ensures d >= MinPause && d >= pollDelay - consumed
    ensures d == MinPause || d == pollDelay - consumed
  {
    if MinPause >= pollDelay - consumed then MinPause else pollDelay - consumed
  }

  /** A pass plus its pause lasts `poll_delay`, or just over the pass itself when the pass overran. */
  lemma PassPeriod(pollDelay: real, consumed: real)
    ensures consumed + Pause(pollDelay, consumed) ==
              if pollDelay - consumed > MinPause then pollDelay else consumed + MinPause
    ensures consumed + Pause(pollDelay, consumed) >= pollDelay
  {
  }

  // ---- run: what the loops raise ------------------------------------------------

  /** What a loop body can raise, by the handler `run` picks for it. */
  datatype Raised = Cancelled | Timeout | Disconnect | ChannelOpen | OSError | Other(name: string)

  datatype Handling = Stop | Retry | Reraise

  /** The `except` clause of `run` that catches `e`. */
  function Handle(e: Raised): (h: Handling)
    ensures h == Stop <==> e == Cancelled
    ensures h == Reraise <==> e.Other?
  {
    match e
    case Cancelled => Stop
    case Timeout => Retry
    case Disconnect => Retry
    case ChannelOpen => Retry
    case OSError => Retry
    case Other(_) => Reraise
  }

  /** What `run` does that is visible outside it: `on_error` calls and sleeps. */
  datatype Effect = ReportError(cause: Raised) | Sleep(seconds: real)

  /** How `run` stands once the loop bodies have raised the given exceptions. */
  datatype Ending = StillRunning | Closed | Propagated(cause: Raised)

  /** The effects and ending of `run` when successive loop bodies raise `raised`, in order. */
  function RunTrace(raised: seq<Raised>, pollDelay: real): (seq<Effect>, Ending)
    decreases |raised|
  {
    if raised == [] then ([], StillRunning)
    else
      match Handle(raised[0])
      case Stop => ([], Closed)
      case Reraise => ([ReportError(raised[0])], Propagated(raised[0]))
      case Retry =>
        var rest := RunTrace(raised[1..], pollDelay);
        ([ReportError(raised[0]), Sleep(pollDelay)] + rest.0, rest.1)
  }

  /** How many of the exceptions, from the first, are ones `run` retries after. */
  function LeadingRetries(raised: seq<Raised>): (n: nat)
    ensures n <= |raised|
    ensures forall j :: 0 <= j < n ==> Handle(raised[j]) == Retry
    ensures n < |raised| ==> Handle(raised[n]) != Retry
    decreases |raised|
  {
    if raised == [] || Handle(raised[0]) != Retry then 0 else 1 + LeadingRetries(raised[1..])
  }

  /**
   * `run` reports and then sleeps `poll_delay` for every retried exception;
   * the first other one ends it: cancellation silently, anything else after
   * one last report, by propagating.
   */
  lemma {:induction false} RunTraceSpec(raised: seq<Raised>, pollDelay: real)
    ensures var n := LeadingRetries(raised);
            var t := RunTrace(raised, pollDelay);
            && |t.0| == 2 * n + (if n < |raised| && raised[n].Other? then 1 else 0)
            && (forall j :: 0 <= j < n ==> t.0[2 * j] == ReportError(raised[j]) && t.0[2 * j + 1] == Sleep(pollDelay))
            && (n < |raised| && raised[n].Other? ==> t.0[2 * n] == ReportError(raised[n]))
            && t.1 == (if n == |raised| then StillRunning
                       else if raised[n] == Cancelled then Closed
                       else Propagated(raised[n]))
    decreases |raised|
  {
    if raised != [] && Handle(raised[0]) == Retry {
      var tail := raised[1..];
      RunTraceSpec(tail, pollDelay);
      var t := RunTrace(raised, pollDelay);
      var rest := RunTrace(tail, pollDelay);
      var n, m := LeadingRetries(raised), LeadingRetries(tail);
      assert n == 1 + m;
      assert t.0 == [ReportError(raised[0]), Sleep(pollDelay)] + rest.0 && t.1 == rest.1;
      assert n < |raised| ==> raised[n] == tail[m];
      forall j | 0 <= j < n ensures t.0[2 * j] == ReportError(raised[j]) && t.0[2 * j + 1] == Sleep(pollDelay) {
        if j > 0 {
          assert t.0[2 * j] == rest.0[2 * (j - 1)] && t.0[2 * j + 1] == rest.0[2 * (j - 1) + 1];
          assert raised[j] == tail[j - 1];
        }
      }
    }
  }

  /** A cancelled worker never reports its own cancellation. */
  lemma {:induction false} CancellationNotReported(raised: seq<Raised>, pollDelay: real)
    ensures forall j :: 0 <= j < |RunTrace(raised, pollDelay).0| ==>
              RunTrace(raised, pollDelay).0[j] != ReportError(Cancelled)
    decreases |raised|
  {
    if raised != [] && Handle(raised[0]) == Retry {
      CancellationNotReported(raised[1..], pollDelay);
    }
  }

  // ---- The worker object ----------------------------------------------------------

  class Worker {
    const context: Context.Context
    const workerType: string
    const host: string
    const workerName: string
    const pollDelay: real
    const timeout: real
    /** The loop `run` dispatches to, fixed by the worker type. */
    const kind: Kind
    /** `cmd_dict`, absent until `set_cmd_line` is called. */
    var cmdDict: Option<Bundle>
    var cmd: string

    constructor (context: Context.Context, workerType: string, host: string, pollDelay: real, timeout: real)
      requires KindOf(workerType).Some?
      ensures this.context == context && this.workerType == workerType && this.host == host
      ensures workerName == host + "-" + workerType
      ensures this.pollDelay == pollDelay && this.timeout == timeout
      ensures kind == KindOf(workerType).value
      ensures cmdDict == None && cmd == ""
    {
      this.context := context;
      this.workerType := workerType;
      this.host := host;
      workerName := host + "-" + workerType;
      this.pollDelay := pollDelay;
      this.timeout := timeout;
      kind := KindOf(workerType).value;
      cmdDict := None;
      cmd := "";
    }

    /** Records the bundle and builds the one command line that runs all of it. */
    method SetCmdLine(bundle: Bundle) returns (c: string)
      modifies this`cmdDict, this`cmd
      ensures cmdDict == Some(bundle) && cmd == Encode(bundle) && c == cmd
    {
      cmdDict := Some(bundle);
      cmd := Encode(bundle);
      c := cmd;
    }

    /** `get_result_dict`: each name's section, in bundle order; the first missing marker raises. */
    method GetResultDict(raw: string) returns (r: Result<map<string, string>, DecodeError>)
      requires cmdDict.Some?
      ensures r == Decode(raw, Names(cmdDict.value))
    {
      var names := Names(cmdDict.value);
      var lines := Split(raw, '\n');
      var res: map<string, string> := map[];
      var i := 0;
      while i < |names|
        invariant 0 <= i <= |names|
        invariant DecodeLines(lines, names[..i]) == Ok(res)
      {
        var k := names[i];
        DecodeLinesNext(lines, names, i, res);
        var idx1 := IndexOf(lines, StartMarker(k));
        if idx1.None? {
          return Err(MissingMarker(StartMarker(k)));
        }
        var idx2 := IndexOf(lines, EndMarker(k));
        if idx2.None? {
          return Err(MissingMarker(EndMarker(k)));
        }
        var i1, i2 := idx1.value, idx2.value;
        var value := Join(if i1 + 1 <= i2 then lines[i1 + 1..i2] else [], "\n");
        SectionFound(lines, k, i1, i2);
        res := res[k := value];
        i := i + 1;
      }
      assert names[..i] == names;
      r := Ok(res);
    }

    /** `run`, for loop bodies that raise `raised` in turn: the effects it has and how it ends. */
    method Run(raised: seq<Raised>) returns (effects: seq<Effect>, ending: Ending)
      ensures (effects, ending) == RunTrace(raised, pollDelay)
    {
      effects := [];
      ending := StillRunning;
      var i := 0;
      assert raised[i..] == raised;
      assert RunTrace(raised, pollDelay).0 == effects + RunTrace(raised, pollDelay).0;
      while i < |raised| && ending == StillRunning
        invariant 0 <= i <= |raised|
        invariant ending == StillRunning ==>
                    RunTrace(raised, pollDelay) ==
                      (effects + RunTrace(raised[i..], pollDelay).0, RunTrace(raised[i..], pollDelay).1)
        invariant ending != StillRunning ==> (effects, ending) == RunTrace(raised, pollDelay)
        decreases |raised| - i
      {
        var e := raised[i];
        var rest := RunTrace(raised[i + 1..], pollDelay);
        assert raised[i..][1..] == raised[i + 1..];
        match Handle(e) {
          case Stop =>
            assert effects + [] == effects;
            ending := Closed;
          case Retry =>
            assert effects + ([ReportError(e), Sleep(pollDelay)] + rest.0)
                   == (effects + [ReportError(e), Sleep(pollDelay)]) + rest.0;
            effects := effects + [ReportError(e), Sleep(pollDelay)];
          case Reraise =>
            effects := effects + [ReportError(e)];
            ending := Propagated(e);
        }
        i := i + 1;
      }
      if ending == StillRunning {
        assert raised[i..] == [];
        assert effects + [] == effects;
      }
    }
  }
}
