/**
 * The local disk worker of workers/local_disk_worker.py. It runs its bundle
 * locally; the DISK section (the output of `df`) becomes an aligned table,
 * one row per mount, sorted, under a header; the NOTIFICATION section is
 * passed on as is. Both go into the status cache; errors go to the disk
 * record's comment.
 */
module LocalDiskWorker {
  import opened Wrappers
  import opened Text
  import opened Sorting
  import opened CommandBundle
  import Context
  import W = Worker

  /** The three columns a row shows: mount point, used, available. */
  datatype DiskEntry = DiskEntry(mount: string, used: string, avail: string)

  /**
   * A line of the DISK section read as blank-separated columns. Lines with at
   * most three columns, or whose last column is shorter than three characters,
   * are skipped; otherwise the last column is the mount point and the fourth-
   * and third-from-last are the used and available sizes.
   */
  function ParseDiskLine(line: string): Option<DiskEntry> {
    var blocks := Fields(line);
    if |blocks| <= 3 || |blocks[|blocks| - 1]| < 3 then None
    else Some(DiskEntry(blocks[|blocks| - 1], blocks[|blocks| - 4], blocks[|blocks| - 3]))
  }

  /** Columns laid out with runs of blanks between them, as `df` prints a line. */
  function Columns(cs: seq<string>, gaps: seq<nat>): string
    requires |cs| >= 1 && |gaps| == |cs| - 1
    decreases |cs|
  {
    if |cs| == 1 then cs[0] else cs[0] + Spaces(gaps[0]) + Columns(cs[1..], gaps[1..])
  }

  /** Reading columns back: however wide the gaps, the fields are the columns. */
  lemma {:induction false} FieldsOfColumns(cs: seq<string>, gaps: seq<nat>)
    requires |cs| >= 1 && |gaps| == |cs| - 1
    requires forall i :: 0 <= i < |cs| ==> cs[i] != "" && ' ' !in cs[i]
    requires forall i :: 0 <= i < |gaps| ==> gaps[i] >= 1
    ensures Fields(Columns(cs, gaps)) == cs
    decreases |cs|
  {
    if |cs| == 1 {
      FieldsWord(cs[0]);
    } else {
      FieldsOfColumns(cs[1..], gaps[1..]);
      FieldsCons(cs[0], gaps[0], Columns(cs[1..], gaps[1..]));
      assert [cs[0]] + cs[1..] == cs;
    }
  }

  /** A `df` line with at least four columns and a mount point of three or more characters gives its row's columns. */
  lemma DiskLineOfColumns(cs: seq<string>, gaps: seq<nat>)
    requires |cs| >= 1 && |gaps| == |cs| - 1
    requires forall i :: 0 <= i < |cs| ==> cs[i] != "" && ' ' !in cs[i]
    requires forall i :: 0 <= i < |gaps| ==> gaps[i] >= 1
    ensures ParseDiskLine(Columns(cs, gaps)) ==
              if |cs| > 3 && |cs[|cs| - 1]| >= 3 then Some(DiskEntry(cs[|cs| - 1], cs[|cs| - 4], cs[|cs| - 3]))
              else None
  {
    FieldsOfColumns(cs, gaps);
  }

  /** A row of the table: the mount point left-aligned to 12, the sizes right-aligned to 6, in grey. */
  function DiskRow(colored: (string, string) -> string, e: DiskEntry): string {
    colored(PadRight(e.mount, 12), "green") + " \U{1B}[90m" + PadLeft(e.used, 6) + " " + PadLeft(e.avail, 6) + "\U{1B}[0m"
  }

  function DiskHeader(colored: (string, string) -> string): string {
    colored(PadRight("Filesystem", 12) + " " + PadLeft("Used", 6) + " " + PadLeft("Avail", 6), "white")
  }

  /** The rows of the kept lines, in line order. */
  function DiskRows(colored: (string, string) -> string, lines: seq<string>): (rows: seq<string>)
    ensures |rows| <= |lines|
    decreases |lines|
  {
    if lines == [] then []
    else
      DiskRows(colored, lines[..|lines| - 1]) +
        match ParseDiskLine(lines[|lines| - 1])
        case None => []
        case Some(e) => [DiskRow(colored, e)]
  }

  /** Python's string order, as a comparison for `Sort`. */
  function StrLe(): (string, string) -> bool {
    (a: string, b: string) => LexLe(a, b)
  }

  lemma StrLeTotalPreorder()
    ensures TotalPreorder(StrLe())
  {
    forall a: string, b: string ensures StrLe()(a, b) || StrLe()(b, a) {
      LexLeTotal(a, b);
    }
    forall a: string, b: string, c: string | StrLe()(a, b) && StrLe()(b, c) ensures StrLe()(a, c) {
      LexLeTransitive(a, b, c);
    }
  }

  /** The table: the header line, then the rows in string order. */
  function DiskInfo(colored: (string, string) -> string, disk: string): string {
    Join([DiskHeader(colored)] + Sort(DiskRows(colored, Split(disk, '\n')), StrLe()), "\n")
  }

  /** The table lists exactly the kept lines' rows, in ascending string order, after the header. */
  lemma DiskInfoSpec(colored: (string, string) -> string, disk: string)
    ensures exists rows ::
              && DiskInfo(colored, disk) == Join([DiskHeader(colored)] + rows, "\n")
              && Sorted(rows, StrLe())
              && multiset(rows) == multiset(DiskRows(colored, Split(disk, '\n')))
  {
    StrLeTotalPreorder();
    var rows := Sort(DiskRows(colored, Split(disk, '\n')), StrLe());
    SortSpec(DiskRows(colored, Split(disk, '\n')), StrLe());
    assert DiskInfo(colored, disk) == Join([DiskHeader(colored)] + rows, "\n");
  }

  /** What `process_result_dict` makes of the decoded sections: the KeyError of the first missing one, or the table and the notification. */
  function DiskOutcome(colored: (string, string) -> string, result: map<string, string>): Result<(string, string), string> {
    if "DISK" !in result then Err(W.KeyErrorText("DISK"))
    else if "NOTIFICATION" !in result then Err(W.KeyErrorText("NOTIFICATION"))
    else Ok((DiskInfo(colored, result["DISK"]), result["NOTIFICATION"]))
  }

  /** The whole verdict of a local pass: the text reported through `on_error`, or what is stored. */
  function PassOutcome(colored: (string, string) -> string, returnCode: int, stdout: string, stderr: string,
                       names: seq<string>): Result<(string, string), string>
  {
    match W.LocalResult(returnCode, stdout, stderr, names)
    case Err(text) => Err(text)
    case Ok(m) => DiskOutcome(colored, m)
  }

  /** A clean run of a bundle holding both sections stores the table of its DISK output and its NOTIFICATION output, either possibly empty. */
  lemma CleanPassStores(colored: (string, string) -> string, names: seq<string>, outputs: map<string, Output>,
                        trailer: seq<string>, stderr: string)
    requires WellFormedRun(names, outputs)
    requires "DISK" in names && "NOTIFICATION" in names
    requires WholeLines(trailer)
    ensures PassOutcome(colored, 0, Join(BundleLines(names, outputs) + trailer, "\n"), stderr, names)
            == Ok((DiskInfo(colored, Join(outputs["DISK"], "\n")), Join(outputs["NOTIFICATION"], "\n")))
  {
    W.LocalCleanRun(names, outputs, trailer, stderr);
  }

  class LocalDiskWorker {
    const base: W.Worker
    const context: Context.Context

    constructor (context: Context.Context, cmdDict: Bundle, host: string, pollDelay: real, timeout: real)
      ensures this.context == context && base.context == context
      ensures base.workerType == "local-disk" && base.kind == W.Local
      ensures base.workerName == host + "-local-disk"
      ensures base.pollDelay == pollDelay && base.timeout == timeout
      ensures base.cmdDict == Some(cmdDict) && base.cmd == Encode(cmdDict)
    {
      this.context := context;
      var w := new W.Worker(context, "local-disk", host, pollDelay, timeout);
      var _ := w.SetCmdLine(cmdDict);
      base := w;
    }

    /**
     * Reads DISK (building the table line by line) and then NOTIFICATION;
     * only when both are present are the disk record and the notification
     * written.
     */
    method ProcessResultDict(result: map<string, string>, now: real) returns (r: Result<(string, string), string>)
      modifies context`diskStatus, context`notification
      ensures r == DiskOutcome(context.colored, result)
      ensures r.Err? ==> context.diskStatus == old(context.diskStatus) && context.notification == old(context.notification)
      ensures r.Ok? ==> context.diskStatus == Context.Record(old(context.diskStatus), Context.Observed(r.value.0), now)
                        && context.notification == r.value.1
    {
      if "DISK" !in result {
        return Err(W.KeyErrorText("DISK"));
      }
      var lines := Split(result["DISK"], '\n');
      var disks: seq<string> := [];
      var i := 0;
      while i < |lines|
        invariant 0 <= i <= |lines|
        invariant disks == DiskRows(context.colored, lines[..i])
      {
        assert lines[..i + 1][..i] == lines[..i];
        match ParseDiskLine(lines[i]) {
          case None =>
          case Some(e) =>
            disks := disks + [DiskRow(context.colored, e)];
        }
        i := i + 1;
      }
      assert lines[..i] == lines;
      var diskInfo := Join([DiskHeader(context.colored)] + Sort(disks, StrLe()), "\n");
      if "NOTIFICATION" !in result {
        return Err(W.KeyErrorText("NOTIFICATION"));
      }
      var notificationInfo := result["NOTIFICATION"];
      context.UpdateDiskStatus(diskInfo, true, now);
      context.UpdateNotification(notificationInfo);
      r := Ok((diskInfo, notificationInfo));
    }

    /** Failure text goes to the disk record's comment; its cached table stays. */
    method OnError(msg: string, now: real)
      modifies context`diskStatus
      ensures context.diskStatus == Context.Record(old(context.diskStatus), Context.Failed(msg), now)
    {
      context.UpdateDiskStatus(msg, false, now);
    }

    /**
     * One pass of the local loop once the subprocess has finished: report or
     * store, then the pause before the next pass. `tag` stands for
     * `msg_from_host`, which stamps the text with the time and the worker's name.
     */
    method LocalPass(returnCode: int, stdout: string, stderr: string, now: real, consumed: real,
                     tag: string -> string) returns (pause: real)
      requires base.cmdDict.Some? && base.context == context
      modifies context`diskStatus, context`notification
      ensures var outcome := PassOutcome(context.colored, returnCode, stdout, stderr, Names(base.cmdDict.value));
              && (outcome.Err? ==>
                    context.diskStatus == Context.Record(old(context.diskStatus), Context.Failed(tag(outcome.error)), now)
                    && context.notification == old(context.notification))
              && (outcome.Ok? ==>
                    context.diskStatus == Context.Record(old(context.diskStatus), Context.Observed(outcome.value.0), now)
                    && context.notification == outcome.value.1)
      ensures pause == W.Pause(base.pollDelay, consumed)
    {
      if returnCode != 0 && stderr != "" {
        OnError(tag(W.ExitErrorText(returnCode, stderr)), now);
      } else {
        var decoded := base.GetResultDict(stdout);
        match decoded {
          case Err(e) =>
            OnError(tag(W.DecodeErrorText(e)), now);
          case Ok(m) =>
            var r := ProcessResultDict(m, now);
            if r.Err? {
              OnError(tag(r.error), now);
            }
        }
      }
      pause := W.Pause(base.pollDelay, consumed);
    }
  }
}
