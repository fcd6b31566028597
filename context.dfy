/**
 * The last-known-good status cache (context.py): per-host records for remote
 * GPU status and for network status, one disk record, the top-users tables
 * and the notification text. A failed update never clears the cached message;
 * the getters render a stale-but-annotated view of it.
 *
 * `time.time()` is the `now` parameter of each update; termcolor's `colored`
 * is the opaque function `colored(text, colour)` the cache is built with.
 */
module Context {
  import opened OrderedDict
  import opened Utils
  import Text
  import Sorting

  /** One cached observation (the `Info` named tuple). */
  datatype Info = Info(isSuccess: bool, msg: string, updateTime: real, comment: string)

  /** The record a never-written key reads as: the named tuple's defaults. */
  const DefaultInfo: Info := Info(true, "", 0.0, "")

  /** What one update reports: fresh text, or the reason the poll failed. */
  datatype Report = Observed(msg: string) | Failed(comment: string)

  /** The record an update leaves: success replaces the message; failure keeps it. */
  function Record(prev: Info, report: Report, now: real): (r: Info)
    ensures r.updateTime == now && r.isSuccess == report.Observed?
    ensures r.msg == if report.Observed? then report.msg else prev.msg
    ensures r.comment == if report.Failed? then report.comment else ""
  {
    match report
    case Observed(m) => Info(true, m, now, "")
    case Failed(c) => Info(false, prev.msg, now, c)
  }

  /** The record after applying timed reports in order. */
  function Replay(start: Info, reports: seq<(Report, real)>): Info
    decreases |reports|
  {
    if reports == [] then start
    else
      var last := reports[|reports| - 1];
      Record(Replay(start, reports[..|reports| - 1]), last.0, last.1)
  }

  /** The message of the last successful report, or `fallback` when none succeeded. */
  function LastObserved(fallback: string, reports: seq<(Report, real)>): string
    decreases |reports|
  {
    if reports == [] then fallback
    else if reports[|reports| - 1].0.Observed? then reports[|reports| - 1].0.msg
    else LastObserved(fallback, reports[..|reports| - 1])
  }

  /**
   * Over any history of updates the cached message is the one of the last
   * successful update (the start's when there was none), while the flag,
   * time and comment describe the latest update.
   */
  lemma {:induction false} ReplayKeepsLastObserved(start: Info, reports: seq<(Report, real)>)
    ensures Replay(start, reports).msg == LastObserved(start.msg, reports)
    ensures reports != [] ==>
              var last := reports[|reports| - 1];
              && Replay(start, reports).isSuccess == last.0.Observed?
              && Replay(start, reports).updateTime == last.1
              && Replay(start, reports).comment == (if last.0.Failed? then last.0.comment else "")
    decreases |reports|
  {
    if reports != [] {
      ReplayKeepsLastObserved(start, reports[..|reports| - 1]);
    }
  }

  /** How `update_remote_status` / `update_network_status` turn their arguments into a report. */
  function HostReport(colored: (string, string) -> string, host: string, text: string, isSuccess: bool): Report {
    if isSuccess then Observed(text + "\n")
    else Failed(colored("(" + host + ") ", "white") + text)
  }

  /** `escape_ansi(msg) or '(null)'`. */
  function CachedText(msg: string): (r: string)
    ensures r != ""
  {
    var e := EscapeAnsi(msg);
    if e == "" then "(null)" else e
  }

  function EnsureNewline(s: string): (r: string)
    ensures |r| > 0 && r[|r| - 1] == '\n'
    ensures r == s || r == s + "\n"
    ensures |s| > 0 && s[|s| - 1] == '\n' ==> r == s
  {
    if |s| > 0 && s[|s| - 1] == '\n' then s else s + "\n"
  }

  /** `get_remote_status` / `get_network_status` applied to one record. */
  function RenderHost(info: Info): string {
    if info.isSuccess then info.msg
    else
      var cached := CachedText(info.msg);
      var result := info.comment + " Cached info:" + (if |Text.Split(cached, '\n')| > 1 then "\n" else "") + cached;
      EnsureNewline(result)
  }

  /** `get_disk_status` applied to the disk record (its text part). */
  function RenderDisk(info: Info): string {
    if info.isSuccess then info.msg
    else EnsureNewline(info.comment + " Cached info: " + CachedText(info.msg))
  }

  /**
   * A failed record renders as its comment, the words " Cached info:", an
   * optional line break and the cached text, and always ends with a line break.
   */
  lemma RenderFailedShape(info: Info)
    requires !info.isSuccess
    ensures |RenderHost(info)| > 0 && RenderHost(info)[|RenderHost(info)| - 1] == '\n'
    ensures RenderHost(info)[..|info.comment| + 13] == info.comment + " Cached info:"
  {
    var cached := CachedText(info.msg);
    var sep := if |Text.Split(cached, '\n')| > 1 then "\n" else "";
    var result := info.comment + " Cached info:" + sep + cached;
    assert RenderHost(info) == EnsureNewline(result);
    assert result[..|info.comment| + 13] == info.comment + " Cached info:";
  }

  /** An empty cache reads as "(null)", a single line. */
  lemma CachedTextEmpty(msg: string)
    requires EscapeAnsi(msg) == ""
    ensures CachedText(msg) == "(null)" && |Text.Split(CachedText(msg), '\n')| == 1
  {
    Text.SplitNoSeparator("(null)", '\n');
  }

  /** With nothing cached, a failed record shows "(null)". */
  lemma RenderFailedNothingCached(info: Info)
    requires !info.isSuccess && EscapeAnsi(info.msg) == ""
    ensures RenderHost(info) == info.comment + " Cached info:" + "(null)" + "\n"
  {
    CachedTextEmpty(info.msg);
    var result := info.comment + " Cached info:" + CachedText(info.msg);
    assert result[|result| - 1] == ')';
  }

  /**
   * A failed record whose cached message ends a line (as every message a
   * successful host update stores does) shows the escaped message on a line
   * of its own after the comment.
   */
  lemma RenderFailedCachedLines(info: Info)
    requires !info.isSuccess && |info.msg| > 0 && info.msg[|info.msg| - 1] == '\n'
    ensures RenderHost(info) == info.comment + " Cached info:\n" + EscapeAnsi(info.msg)
  {
    EscapeAnsiKeepsTrailingNewline(info.msg);
    var e := EscapeAnsi(info.msg);
    assert e[|e| - 1] in e;
    Text.SplitHasSeveralParts(e, '\n');
    var result := info.comment + " Cached info:" + "\n" + e;
    assert result[|result| - 1] == e[|e| - 1];
  }

  /** A failed disk record renders as comment, " Cached info: ", the cached text, ending a line. */
  lemma RenderDiskShape(info: Info)
    ensures info.isSuccess ==> RenderDisk(info) == info.msg
    ensures !info.isSuccess ==>
              var r := RenderDisk(info);
              && |r| > 0 && r[|r| - 1] == '\n'
              && r[..|info.comment| + 14] == info.comment + " Cached info: "
              && r[|info.comment| + 14..|info.comment| + 14 + |CachedText(info.msg)|] == CachedText(info.msg)
  {
  }

  /** A record's message is empty or ends a line (what the host tables keep). */
  predicate Terminated(msg: string) {
    msg == "" || msg[|msg| - 1] == '\n'
  }

  ghost predicate HostTable(d: Dict<Info>) {
    && d.Valid()
    && forall h :: h in d.values ==> Terminated(d.values[h].msg)
  }

  /**
   * A host-table record written only by `Record` from `HostReport` renders as
   * nothing (never written) or as text ending in a line break.
   */
  lemma RenderTerminatedHost(info: Info)
    requires Terminated(info.msg)
    ensures RenderHost(info) == "" <==> (info.isSuccess && info.msg == "")
    ensures RenderHost(info) != "" ==> RenderHost(info)[|RenderHost(info)| - 1] == '\n'
  {
    if !info.isSuccess {
      RenderFailedShape(info);
    }
  }

  /** One row of a top-users table: a user name and its usage. */
  datatype UsageRow = UsageRow(name: string, usage: real)

  /** `sorted(rows, key=lambda info: info[1], reverse=True)`. */
  function SortByUsage(rows: seq<UsageRow>): seq<UsageRow> {
    Sorting.Sort(rows, (a: UsageRow, b: UsageRow) => a.usage >= b.usage)
  }

  /** The rendered table is the same rows, largest usage first. */
  lemma SortByUsageSpec(rows: seq<UsageRow>)
    ensures multiset(SortByUsage(rows)) == multiset(rows)
    ensures forall i, j :: 0 <= i < j < |SortByUsage(rows)| ==> SortByUsage(rows)[i].usage >= SortByUsage(rows)[j].usage
  {
    Sorting.SortSpec(rows, (a: UsageRow, b: UsageRow) => a.usage >= b.usage);
  }

  /** The tables `get_top_users_status` returns: each stored list sorted by usage, under its key. */
  function TopUsersTables(topUsers: Dict<seq<UsageRow>>): Dict<seq<UsageRow>>
    requires topUsers.Valid()
  {
    MapValues(topUsers, topUsers.order, SortByUsage)
  }

  /** The same keys in the same order, each holding its list sorted by usage. */
  lemma TopUsersTablesSpec(topUsers: Dict<seq<UsageRow>>)
    requires topUsers.Valid()
    ensures TopUsersTables(topUsers).Valid() && TopUsersTables(topUsers).order == topUsers.order
    ensures forall k :: k in TopUsersTables(topUsers).values <==> k in topUsers.values
    ensures forall k :: k in topUsers.values ==> TopUsersTables(topUsers).values[k] == SortByUsage(topUsers.values[k])
  {
    MapValuesSpec(topUsers, topUsers.order, SortByUsage);
  }

  /** What `update_top_users_status` is given: the tables read, or a failure comment. */
  datatype TopUsersReport = Tables(items: seq<(string, seq<UsageRow>)>) | Comment(text: string)

  /** `'{:<4} {:>10} {:>10}\n'.format('Host', 'Upload', 'Download')`. */
  function NetworkHeader(): string {
    Text.PadRight("Host", 4) + " " + Text.PadLeft("Upload", 10) + " " + Text.PadLeft("Download", 10) + "\n"
  }

  /** The rendered records of `hosts`, concatenated in order. */
  function RenderHosts(d: Dict<Info>, hosts: seq<string>): string
    requires forall i :: 0 <= i < |hosts| ==> hosts[i] in d.values
    decreases |hosts|
  {
    if hosts == [] then ""
    else RenderHosts(d, hosts[..|hosts| - 1]) + RenderHost(d.values[hosts[|hosts| - 1]])
  }

  function Max(a: real, b: real): real {
    if a >= b then a else b
  }

  /** `max_time` after the loop over `hosts`: starts at 0 and takes the larger time each step. */
  function LatestUpdate(d: Dict<Info>, hosts: seq<string>): real
    requires forall i :: 0 <= i < |hosts| ==> hosts[i] in d.values
    decreases |hosts|
  {
    if hosts == [] then 0.0
    else Max(LatestUpdate(d, hosts[..|hosts| - 1]), d.values[hosts[|hosts| - 1]].updateTime)
  }

  /** The latest update time is 0 or one of the records' times, and no record is later. */
  lemma {:induction false} LatestUpdateSpec(d: Dict<Info>, hosts: seq<string>)
    requires forall i :: 0 <= i < |hosts| ==> hosts[i] in d.values
    ensures LatestUpdate(d, hosts) >= 0.0
    ensures forall i :: 0 <= i < |hosts| ==> d.values[hosts[i]].updateTime <= LatestUpdate(d, hosts)
    ensures LatestUpdate(d, hosts) == 0.0
            || exists i :: 0 <= i < |hosts| && LatestUpdate(d, hosts) == d.values[hosts[i]].updateTime
    decreases |hosts|
  {
    if hosts != [] {
      var init := hosts[..|hosts| - 1];
      LatestUpdateSpec(d, init);
      forall i | 0 <= i < |hosts| ensures d.values[hosts[i]].updateTime <= LatestUpdate(d, hosts) {
        if i < |hosts| - 1 {
          assert hosts[i] == init[i];
        }
      }
      if LatestUpdate(d, hosts) != 0.0 && LatestUpdate(d, hosts) == LatestUpdate(d, init) {
        var i :| 0 <= i < |init| && LatestUpdate(d, init) == d.values[init[i]].updateTime;
        assert hosts[i] == init[i];
      }
    }
  }

  lemma HostsStep(d: Dict<Info>, hosts: seq<string>, i: nat)
    requires i < |hosts| && forall j :: 0 <= j < |hosts| ==> hosts[j] in d.values
    ensures RenderHosts(d, hosts[..i + 1]) == RenderHosts(d, hosts[..i]) + RenderHost(d.values[hosts[i]])
    ensures LatestUpdate(d, hosts[..i + 1]) == Max(LatestUpdate(d, hosts[..i]), d.values[hosts[i]].updateTime)
  {
    assert hosts[..i + 1][..i] == hosts[..i];
  }

  class Context {
    /** termcolor's `colored(text, colour)`, left uninterpreted. */
    const colored: (string, string) -> string

    var remoteStatus: Dict<Info>
    var diskStatus: Info
    var networkStatus: Dict<Info>
    var notification: string
    var topUsers: Dict<seq<UsageRow>>
    var topUsersTime: real
    var topUsersComment: string

    ghost predicate Valid()
      reads this
    {
      HostTable(remoteStatus) && HostTable(networkStatus) && topUsers.Valid()
    }

    constructor (colored: (string, string) -> string)
      ensures Valid() && this.colored == colored
      ensures remoteStatus.values == map[] && networkStatus.values == map[] && topUsers.values == map[]
      ensures diskStatus == DefaultInfo && notification == ""
      ensures topUsersTime == 0.0 && topUsersComment == ""
    {
      this.colored := colored;
      remoteStatus := Empty();
      diskStatus := DefaultInfo;
      networkStatus := Empty();
      notification := "";
      topUsers := Empty();
      topUsersTime := 0.0;
      topUsersComment := "";
    }

    /** Success stores `text + "\n"`; failure keeps the cached message and records the host-tagged comment. */
    method UpdateRemoteStatus(host: string, text: string, isSuccess: bool, now: real)
      requires Valid()
      modifies this`remoteStatus
      ensures Valid()
      ensures remoteStatus == Put(old(remoteStatus), host,
                Record(Get(old(remoteStatus), host, DefaultInfo), HostReport(colored, host, text, isSuccess), now))
      ensures forall h :: h != host ==> (h in remoteStatus.values <==> h in old(remoteStatus).values)
      ensures forall h :: h != host && h in old(remoteStatus).values ==> remoteStatus.values[h] == old(remoteStatus).values[h]
    {
      if isSuccess {
        remoteStatus := Put(remoteStatus, host, Info(true, text + "\n", now, ""));
      } else {
        var before := remoteStatus;
        remoteStatus := Touch(remoteStatus, host, DefaultInfo);
        var msg := remoteStatus.values[host].msg;
        var failed := Info(false, msg, now, colored("(" + host + ") ", "white") + text);
        PutAfterTouch(before, host, DefaultInfo, failed);
        remoteStatus := Put(remoteStatus, host, failed);
      }
    }

    /** The rendered record of `host`; like the defaultdict it reads, it inserts a missing host. */
    method GetRemoteStatus(host: string) returns (r: string)
      requires Valid()
      modifies this`remoteStatus
      ensures Valid()
      ensures remoteStatus == Touch(old(remoteStatus), host, DefaultInfo)
      ensures r == RenderHost(Get(old(remoteStatus), host, DefaultInfo))
      ensures host !in old(remoteStatus).values ==> r == ""
    {
      remoteStatus := Touch(remoteStatus, host, DefaultInfo);
      var status := remoteStatus.values[host];
      r := RenderHost(status);
    }

    function AllRemoteStatus(): Dict<Info>
      reads this
    {
      remoteStatus
    }

    /** Success stores the text as is; failure keeps the cached text and stores the comment. */
    method UpdateDiskStatus(text: string, isSuccess: bool, now: real)
      modifies this`diskStatus
      ensures diskStatus == Record(old(diskStatus), if isSuccess then Observed(text) else Failed(text), now)
    {
      if isSuccess {
        diskStatus := Info(true, text, now, "");
      } else {
        var msg := diskStatus.msg;
        diskStatus := Info(false, msg, now, text);
      }
    }

    /** The rendered disk record and its update time. */
    method GetDiskStatus() returns (text: string, time: real)
      ensures text == RenderDisk(diskStatus) && time == diskStatus.updateTime
    {
      var status := diskStatus;
      text := RenderDisk(status);
      time := status.updateTime;
    }

    method UpdateNetworkStatus(host: string, text: string, isSuccess: bool, now: real)
      requires Valid()
      modifies this`networkStatus
      ensures Valid()
      ensures networkStatus == Put(old(networkStatus), host,
                Record(Get(old(networkStatus), host, DefaultInfo), HostReport(colored, host, text, isSuccess), now))
      ensures forall h :: h != host ==> (h in networkStatus.values <==> h in old(networkStatus).values)
      ensures forall h :: h != host && h in old(networkStatus).values ==> networkStatus.values[h] == old(networkStatus).values[h]
    {
      if isSuccess {
        networkStatus := Put(networkStatus, host, Info(true, text + "\n", now, ""));
      } else {
        var before := networkStatus;
        networkStatus := Touch(networkStatus, host, DefaultInfo);
        var msg := networkStatus.values[host].msg;
        var failed := Info(false, msg, now, colored("(" + host + ") ", "white") + text);
        PutAfterTouch(before, host, DefaultInfo, failed);
        networkStatus := Put(networkStatus, host, failed);
      }
    }

    method GetNetworkStatus(host: string) returns (r: string)
      requires Valid()
      modifies this`networkStatus
      ensures Valid()
      ensures networkStatus == Touch(old(networkStatus), host, DefaultInfo)
      ensures r == RenderHost(Get(old(networkStatus), host, DefaultInfo))
      ensures host !in old(networkStatus).values ==> r == ""
    {
      networkStatus := Touch(networkStatus, host, DefaultInfo);
      var status := networkStatus.values[host];
      r := RenderHost(status);
    }

    /** The header and every host's rendered record in table order, and the latest update time. */
    method GetAllNetworkStatus() returns (res: string, maxTime: real)
      requires Valid()
      ensures res == colored(NetworkHeader(), "white") + RenderHosts(networkStatus, networkStatus.order)
      ensures maxTime == LatestUpdate(networkStatus, networkStatus.order)
    {
      var table := networkStatus;
      var header := colored(NetworkHeader(), "white");
      var body := "";
      maxTime := 0.0;
      var i := 0;
      while i < |table.order|
        invariant 0 <= i <= |table.order|
        invariant body == RenderHosts(table, table.order[..i])
        invariant maxTime == LatestUpdate(table, table.order[..i])
      {
        var info := table.values[table.order[i]];
        HostsStep(table, table.order, i);
        body := body + RenderHost(info);
        maxTime := Max(maxTime, info.updateTime);
        i := i + 1;
      }
      assert table.order[..i] == table.order;
      res := header + body;
    }

    /** Success assigns the given tables, stamps the time and clears the comment; failure sets only the comment. */
    method UpdateTopUsersStatus(report: TopUsersReport, now: real)
      requires topUsers.Valid()
      modifies this`topUsers, this`topUsersTime, this`topUsersComment
      ensures topUsers.Valid()
      ensures report.Tables? ==>
                topUsers == PutAll(old(topUsers), report.items) && topUsersTime == now && topUsersComment == ""
      ensures report.Comment? ==>
                topUsers == old(topUsers) && topUsersTime == old(topUsersTime) && topUsersComment == report.text
    {
      match report
      case Tables(items) =>
        var i := 0;
        while i < |items|
          invariant 0 <= i <= |items|
          invariant topUsers.Valid()
          invariant topUsers == PutAll(old(topUsers), items[..i])
        {
          PutAllStep(old(topUsers), items, i);
          topUsers := Put(topUsers, items[i].0, items[i].1);
          i := i + 1;
        }
        assert items[..i] == items;
        topUsersTime := now;
        topUsersComment := "";
      case Comment(text) =>
        topUsersComment := text;
    }

    /** Every stored table, in table order, sorted by usage; the stored state is not touched. */
    method GetTopUsersStatus() returns (tables: Dict<seq<UsageRow>>, time: real, comment: string)
      requires topUsers.Valid()
      ensures tables == TopUsersTables(topUsers)
      ensures time == topUsersTime && comment == topUsersComment
    {
      var order := topUsers.order;
      tables := Empty();
      var i := 0;
      while i < |order|
        invariant 0 <= i <= |order|
        invariant tables == MapValues(topUsers, order[..i], SortByUsage)
      {
        MapValuesStep(topUsers, order, SortByUsage, i);
        tables := Put(tables, order[i], SortByUsage(topUsers.values[order[i]]));
        i := i + 1;
      }
      assert order[..i] == order;
      time := topUsersTime;
      comment := topUsersComment;
    }

    method UpdateNotification(msg: string)
      modifies this`notification
      ensures notification == msg
    {
      notification := msg;
    }

    method GetNotification() returns (r: string)
      ensures r == notification
    {
      r := notification;
    }
  }
}
