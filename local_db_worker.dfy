/**
 * The database worker of workers/local_db_worker.py, a function-kind worker.
 * Each pass reads the top-user tables of four time windows and, from the
 * remote hosts' cached GPU reports that are fresh and successful, adds up the
 * memory each user holds and inserts those totals. The database is reached
 * through two functions supplied by the caller: `past` for a window's query
 * and `insert` for the write, each returning the text of the exception it
 * would raise, if any.
 */
module LocalDbWorker {
  import opened Wrappers
  import opened Text
  import opened Utils
  import opened OrderedDict
  import Context
  import W = Worker

  // ---- The pattern \s([a-zA-Z]+)\(([0-9]+)M\) -------------------------------------

  predicate IsLetter(c: char) { 'a' <= c <= 'z' || 'A' <= c <= 'Z' }

  predicate AllLetters(s: string) { forall i :: 0 <= i < |s| ==> IsLetter(s[i]) }
  predicate AllDigits(s: string) { forall i :: 0 <= i < |s| ==> IsDigit(s[i]) }

  function LettersEnd(s: string, i: nat): (j: nat)
    requires i <= |s|
    ensures i <= j <= |s|
    ensures forall k :: i <= k < j ==> IsLetter(s[k])
    ensures j == |s| || !IsLetter(s[j])
    decreases |s| - i
  {
    if i < |s| && IsLetter(s[i]) then LettersEnd(s, i + 1) else i
  }

  function DigitsEnd(s: string, i: nat): (j: nat)
    requires i <= |s|
    ensures i <= j <= |s|
    ensures forall k :: i <= k < j ==> IsDigit(s[k])
    ensures j == |s| || !IsDigit(s[j])
    decreases |s| - i
  {
    if i < |s| && IsDigit(s[i]) then DigitsEnd(s, i + 1) else i
  }

  /** The two groups of one hit: a user name and a number of megabytes. */
  datatype UsageMatch = UsageMatch(name: string, digits: string)

  predicate WellFormedMatch(m: UsageMatch) {
    m.name != [] && AllLetters(m.name) && m.digits != [] && AllDigits(m.digits)
  }

  /** The text of a hit after its leading whitespace character. */
  function MatchText(m: UsageMatch): string {
    m.name + "(" + m.digits + "M)"
  }

  /**
   * The hit of the pattern at the head of `s`, if any. Letters, '(' and
   * digits, 'M' are disjoint classes, so the greedy runs never backtrack.
   */
  function MatchUsage(s: string): (r: Option<UsageMatch>)
    ensures r.Some? ==>
              && WellFormedMatch(r.value)
              && 1 + |MatchText(r.value)| <= |s|
              && IsSpace(s[0]) && s[1..1 + |MatchText(r.value)|] == MatchText(r.value)
  {
    if s == [] || !IsSpace(s[0]) then None
    else
      var e1 := LettersEnd(s, 1);
      if e1 == 1 || e1 >= |s| || s[e1] != '(' then None
      else
        var e2 := DigitsEnd(s, e1 + 1);
        if e2 == e1 + 1 || e2 + 1 >= |s| || s[e2] != 'M' || s[e2 + 1] != ')' then None
        else
          var m := UsageMatch(s[1..e1], s[e1 + 1..e2]);
          assert s[1..e2 + 2] == MatchText(m);
          Some(m)
  }

  /** A run of letters from `i` that stops at a non-letter ends there. */
  lemma LettersEndAt(s: string, i: nat, j: nat)
    requires i <= j < |s| && (forall k :: i <= k < j ==> IsLetter(s[k])) && !IsLetter(s[j])
    ensures LettersEnd(s, i) == j
  {
  }

  /** A run of digits from `i` that stops at a non-digit ends there. */
  lemma DigitsEndAt(s: string, i: nat, j: nat)
    requires i <= j < |s| && (forall k :: i <= k < j ==> IsDigit(s[k])) && !IsDigit(s[j])
    ensures DigitsEnd(s, i) == j
  {
  }

  /** The pattern's steps at the head of `s`, taken one by one, give the hit between the runs' ends. */
  lemma MatchUsageAt(s: string, e1: nat, e2: nat)
    requires 1 < e1 < e2 - 1 && e2 + 1 < |s| && IsSpace(s[0])
    requires LettersEnd(s, 1) == e1 && s[e1] == '('
    requires DigitsEnd(s, e1 + 1) == e2 && s[e2] == 'M' && s[e2 + 1] == ')'
    ensures MatchUsage(s) == Some(UsageMatch(s[1..e1], s[e1 + 1..e2]))
  {
  }

  /** Where the groups and the fixed characters of a hit's text sit. */
  lemma MatchTextLayout(m: UsageMatch)
    ensures var t, n, d := MatchText(m), |m.name|, |m.digits|;
            && |t| == n + d + 3
            && t[..n] == m.name && t[n] == '('
            && t[n + 1..n + 1 + d] == m.digits && t[n + 1 + d] == 'M' && t[n + 2 + d] == ')'
  {
    var t, n, d := MatchText(m), |m.name|, |m.digits|;
    assert t == m.name + (['('] + m.digits + ['M', ')']);
  }

  /** `s` holds the hit `m` after a whitespace character at its head, character by character. */
  predicate HitAtHead(s: string, m: UsageMatch) {
    var n, d := |m.name|, |m.digits|;
    && n + d + 3 < |s| && IsSpace(s[0])
    && (forall k :: 0 <= k < n ==> s[1 + k] == m.name[k]) && s[1 + n] == '('
    && (forall k :: 0 <= k < d ==> s[2 + n + k] == m.digits[k]) && s[2 + n + d] == 'M' && s[3 + n + d] == ')'
  }

  lemma HitLayout(w: char, m: UsageMatch, rest: string)
    requires IsSpace(w)
    ensures HitAtHead([w] + MatchText(m) + rest, m)
  {
    var t := MatchText(m);
    var s := [w] + t + rest;
    MatchTextLayout(m);
    assert forall k :: 1 <= k <= |t| ==> s[k] == t[k - 1];
  }

  lemma MatchUsageOfLayout(s: string, m: UsageMatch)
    requires WellFormedMatch(m) && HitAtHead(s, m)
    ensures MatchUsage(s) == Some(m)
  {
    var n, d := |m.name|, |m.digits|;
    forall k | 1 <= k < 1 + n ensures IsLetter(s[k]) {
      assert s[1 + (k - 1)] == m.name[k - 1];
    }
    LettersEndAt(s, 1, 1 + n);
    forall k | 2 + n <= k < 2 + n + d ensures IsDigit(s[k]) {
      assert s[2 + n + (k - 2 - n)] == m.digits[k - 2 - n];
    }
    DigitsEndAt(s, 2 + n, 2 + n + d);
    assert s[1..1 + n] == m.name;
    assert s[2 + n..2 + n + d] == m.digits;
    MatchUsageAt(s, 1 + n, 2 + n + d);
  }

  /** Whenever a whitespace character and a well-formed hit start `s`, the pattern matches exactly that hit. */
  lemma MatchUsageComplete(w: char, m: UsageMatch, rest: string)
    requires IsSpace(w) && WellFormedMatch(m)
    ensures MatchUsage([w] + MatchText(m) + rest) == Some(m)
  {
    HitLayout(w, m, rest);
    MatchUsageOfLayout([w] + MatchText(m) + rest, m);
  }

  /** `pattern.findall(s)`: hits from left to right, each search resuming after the previous hit. */
  function FindUsages(s: string): (ms: seq<UsageMatch>)
    ensures forall i :: 0 <= i < |ms| ==> WellFormedMatch(ms[i])
    decreases |s|
  {
    if s == [] then []
    else
      match MatchUsage(s)
      case Some(m) => [m] + FindUsages(s[1 + |MatchText(m)|..])
      case None => FindUsages(s[1..])
  }

  /** Every hit is the match of the pattern at some position of the text. */
  lemma {:induction false} FindUsagesSound(s: string)
    ensures forall m :: m in FindUsages(s) ==> exists p :: 0 <= p < |s| && MatchUsage(s[p..]) == Some(m)
    decreases |s|
  {
    if s != [] {
      var k := FindUsagesStep(s);
      FindUsagesSound(s[k..]);
      forall m | m in FindUsages(s) ensures exists p :: 0 <= p < |s| && MatchUsage(s[p..]) == Some(m) {
        if MatchUsage(s) == Some(m) {
          assert s[0..] == s;
        } else {
          SoundAfter(s, k, m);
        }
      }
    }
  }

  /** One step of the search: the head hit, if any, then the hits from `k` on. */
  lemma FindUsagesStep(s: string) returns (k: nat)
    requires s != []
    ensures 0 < k <= |s|
    ensures MatchUsage(s).Some? ==> FindUsages(s) == [MatchUsage(s).value] + FindUsages(s[k..])
    ensures MatchUsage(s).None? ==> FindUsages(s) == FindUsages(s[k..])
  {
    k := match MatchUsage(s) case Some(m0) => 1 + |MatchText(m0)| case None => 1;
  }

  /** A hit found from `k` on is a match at a position of `s`. */
  lemma SoundAfter(s: string, k: nat, m: UsageMatch)
    requires k <= |s|
    requires exists q :: 0 <= q < |s[k..]| && MatchUsage(s[k..][q..]) == Some(m)
    ensures exists p :: 0 <= p < |s| && MatchUsage(s[p..]) == Some(m)
  {
    var q :| 0 <= q < |s[k..]| && MatchUsage(s[k..][q..]) == Some(m);
    assert s[k + q..] == s[k..][q..];
  }

  /** A position where the pattern does not match is passed over. */
  lemma FindUsagesSkip(s: string)
    requires s != [] && MatchUsage(s).None?
    ensures FindUsages(s) == FindUsages(s[1..])
  {
  }

  /** A hit at the head is found, and the search goes on right after it. */
  lemma FindUsagesEntry(w: char, m: UsageMatch, rest: string)
    requires IsSpace(w) && WellFormedMatch(m)
    ensures FindUsages([w] + MatchText(m) + rest) == [m] + FindUsages(rest)
  {
    MatchUsageComplete(w, m, rest);
    var s := [w] + MatchText(m) + rest;
    assert s[1 + |MatchText(m)|..] == rest;
  }

  /** Text without an opening parenthesis holds no hit. */
  lemma {:induction false} FindUsagesNoParen(s: string)
    requires '(' !in s
    ensures FindUsages(s) == []
    decreases |s|
  {
    if s != [] {
      assert MatchUsage(s).None?;
      FindUsagesNoParen(s[1..]);
    }
  }

  // ---- get_name_usage -------------------------------------------------------------

  function Get0(m: map<string, nat>, k: string): nat {
    if k in m then m[k] else 0
  }

  /** The megabytes of each name, summed over the hits, in hit order. */
  function Tally(ms: seq<UsageMatch>): map<string, nat>
    requires forall i :: 0 <= i < |ms| ==> WellFormedMatch(ms[i])
    decreases |ms|
  {
    if ms == [] then map[]
    else
      var t := Tally(ms[..|ms| - 1]);
      var m := ms[|ms| - 1];
      assert WellFormedMatch(ms[|ms| - 1]);
      t[m.name := Get0(t, m.name) + DigitsValue(m.digits)]
  }

  /** One more hit after the first `i` adds its megabytes to its name. */
  lemma TallyStep(ms: seq<UsageMatch>, i: nat)
    requires i < |ms| && forall j :: 0 <= j < |ms| ==> WellFormedMatch(ms[j])
    ensures WellFormedMatch(ms[i])
    ensures Tally(ms[..i + 1]) == Tally(ms[..i])[ms[i].name := Get0(Tally(ms[..i]), ms[i].name) + DigitsValue(ms[i].digits)]
  {
    assert ms[..i + 1][..i] == ms[..i];
  }

  /** The megabytes of the hits naming `name`. */
  function SumFor(ms: seq<UsageMatch>, name: string): nat
    requires forall i :: 0 <= i < |ms| ==> WellFormedMatch(ms[i])
    decreases |ms|
  {
    if ms == [] then 0
    else
      var m := ms[|ms| - 1];
      assert WellFormedMatch(ms[|ms| - 1]);
      SumFor(ms[..|ms| - 1], name) + (if m.name == name then DigitsValue(m.digits) else 0)
  }

  predicate Mentions(ms: seq<UsageMatch>, name: string) {
    exists i :: 0 <= i < |ms| && ms[i].name == name
  }

  /** The tally has a key for each name some hit mentions, and no other, holding the sum of its hits. */
  lemma {:induction false} TallySpec(ms: seq<UsageMatch>)
    requires forall i :: 0 <= i < |ms| ==> WellFormedMatch(ms[i])
    ensures forall n :: n in Tally(ms) <==> Mentions(ms, n)
    ensures forall n :: Get0(Tally(ms), n) == SumFor(ms, n)
    decreases |ms|
  {
    if ms != [] {
      var init := ms[..|ms| - 1];
      TallySpec(init);
      forall n ensures n in Tally(ms) <==> Mentions(ms, n) {
        if Mentions(init, n) {
          var i :| 0 <= i < |init| && init[i].name == n;
          assert ms[i].name == n;
        }
        if Mentions(ms, n) && n != ms[|ms| - 1].name {
          var i :| 0 <= i < |ms| && ms[i].name == n;
          assert init[i].name == n;
        }
      }
    }
  }

  /** `get_name_usage(text)`: the hits are searched for once the colour codes are removed. */
  function NameUsage(text: string): map<string, nat> {
    Tally(FindUsages(EscapeAnsi(text)))
  }

  // ---- Counter addition and the hosts that contribute ----------------------------

  /** `Counter += Counter`: counts add up and only positive counts are kept. */
  function AddCounts(acc: map<string, nat>, m: map<string, nat>): (r: map<string, nat>)
    ensures forall k :: Get0(r, k) == Get0(acc, k) + Get0(m, k)
    ensures forall k :: k in r <==> Get0(acc, k) + Get0(m, k) > 0
  {
    map k | k in acc.Keys + m.Keys && Get0(acc, k) + Get0(m, k) > 0 :: Get0(acc, k) + Get0(m, k)
  }

  /** A host's report counts when it succeeded and is at most 100 seconds old. */
  predicate Contributes(info: Context.Info, now: real) {
    !(now - info.updateTime > 100.0 || !info.isSuccess)
  }

  predicate Tracked(d: Dict<Context.Info>, hosts: seq<string>) {
    forall i :: 0 <= i < |hosts| ==> hosts[i] in d.values
  }

  /** `write_log`: the contributing hosts, in table order. */
  function Contributors(d: Dict<Context.Info>, hosts: seq<string>, now: real): seq<string>
    requires Tracked(d, hosts)
    decreases |hosts|
  {
    if hosts == [] then []
    else
      var h := hosts[|hosts| - 1];
      Contributors(d, hosts[..|hosts| - 1], now) + (if Contributes(d.values[h], now) then [h] else [])
  }

  /** `usages`: the name usages of the contributing hosts, added up. */
  function TotalUsage(d: Dict<Context.Info>, hosts: seq<string>, now: real): map<string, nat>
    requires Tracked(d, hosts)
    decreases |hosts|
  {
    if hosts == [] then map[]
    else
      var h := hosts[|hosts| - 1];
      var acc := TotalUsage(d, hosts[..|hosts| - 1], now);
      if Contributes(d.values[h], now) then AddCounts(acc, NameUsage(d.values[h].msg)) else acc
  }

  /** One more host after the first `i`: it is logged and its usage added exactly when it contributes. */
  lemma AggregateStep(d: Dict<Context.Info>, hosts: seq<string>, now: real, i: nat)
    requires i < |hosts| && Tracked(d, hosts)
    ensures Tracked(d, hosts[..i]) && Tracked(d, hosts[..i + 1])
    ensures Contributors(d, hosts[..i + 1], now) ==
              Contributors(d, hosts[..i], now) + (if Contributes(d.values[hosts[i]], now) then [hosts[i]] else [])
    ensures TotalUsage(d, hosts[..i + 1], now) ==
              if Contributes(d.values[hosts[i]], now)
              then AddCounts(TotalUsage(d, hosts[..i], now), NameUsage(d.values[hosts[i]].msg))
              else TotalUsage(d, hosts[..i], now)
  {
    assert hosts[..i + 1][..i] == hosts[..i];
  }

  /** The megabytes the contributing hosts report for `name`. */
  function HostSum(d: Dict<Context.Info>, hosts: seq<string>, now: real, name: string): nat
    requires Tracked(d, hosts)
    decreases |hosts|
  {
    if hosts == [] then 0
    else
      var h := hosts[|hosts| - 1];
      HostSum(d, hosts[..|hosts| - 1], now, name)
        + (if Contributes(d.values[h], now) then Get0(NameUsage(d.values[h].msg), name) else 0)
  }

  /** Exactly the contributing hosts are logged. */
  lemma {:induction false} ContributorsSpec(d: Dict<Context.Info>, hosts: seq<string>, now: real)
    requires Tracked(d, hosts)
    ensures forall h :: h in Contributors(d, hosts, now) <==> h in hosts && Contributes(d.values[h], now)
    decreases |hosts|
  {
    if hosts != [] {
      var init := hosts[..|hosts| - 1];
      ContributorsSpec(d, init, now);
      assert hosts == init + [hosts[|hosts| - 1]];
    }
  }

  /** Each name's total is the sum over the contributing hosts, and only names with a positive total are kept. */
  lemma {:induction false} TotalUsageSpec(d: Dict<Context.Info>, hosts: seq<string>, now: real)
    requires Tracked(d, hosts)
    ensures forall n :: Get0(TotalUsage(d, hosts, now), n) == HostSum(d, hosts, now, n)
    ensures forall n :: n in TotalUsage(d, hosts, now) <==> HostSum(d, hosts, now, n) > 0
    decreases |hosts|
  {
    if hosts != [] {
      TotalUsageSpec(d, hosts[..|hosts| - 1], now);
    }
  }

  /** `' '.join(write_log) or '(null)'`. */
  function WriteLog(hosts: seq<string>): string {
    if Join(hosts, " ") == "" then "(null)" else Join(hosts, " ")
  }

  // ---- The two phases of read_and_write_db ------------------------------------------

  /** A phase either completes with a value or records the text of the exception it raised. */
  datatype Phase<T> = Done(value: T) | Failed(error: string)

  type Tables = seq<(string, seq<Context.UsageRow>)>

  /** The four windows read, by table name and SQLite time modifier. */
  const Windows: seq<(string, string)> :=
    [("past1hour", "-1 hour"), ("past24hours", "-24 hours"), ("past3days", "-3 days"), ("past7days", "-7 days")]

  /** The windows queried in order; the first query that raises ends the phase. */
  function ReadWindows(past: string -> Result<seq<Context.UsageRow>, string>, ws: seq<(string, string)>): Phase<Tables>
    decreases |ws|
  {
    if ws == [] then Done([])
    else
      match past(ws[0].1)
      case Err(e) => Failed(e)
      case Ok(rows) =>
        match ReadWindows(past, ws[1..])
        case Failed(e) => Failed(e)
        case Done(items) => Done([(ws[0].0, rows)] + items)
  }

  /**
   * The read phase completes exactly when every query does, with one table per
   * window in window order; otherwise it carries the error of the first query
   * that raised.
   */
  lemma {:induction false} ReadWindowsSpec(past: string -> Result<seq<Context.UsageRow>, string>, ws: seq<(string, string)>)
    ensures ReadWindows(past, ws).Done? <==> forall i :: 0 <= i < |ws| ==> past(ws[i].1).Ok?
    ensures ReadWindows(past, ws).Done? ==>
              |ReadWindows(past, ws).value| == |ws|
              && forall i :: 0 <= i < |ws| ==> ReadWindows(past, ws).value[i] == (ws[i].0, past(ws[i].1).value)
    ensures ReadWindows(past, ws).Failed? ==>
              exists i :: 0 <= i < |ws| && past(ws[i].1) == Err(ReadWindows(past, ws).error)
                          && forall j :: 0 <= j < i ==> past(ws[j].1).Ok?
    decreases |ws|
  {
    if ws != [] {
      ReadWindowsSpec(past, ws[1..]);
      var r := ReadWindows(past, ws);
      if r.Done? {
        forall i | 0 <= i < |ws| ensures past(ws[i].1).Ok? {
          if i > 0 {
            assert ws[1..][i - 1] == ws[i];
          }
        }
      } else if past(ws[0].1).Ok? {
        var rest := ReadWindows(past, ws[1..]);
        var i :| 0 <= i < |ws[1..]| && past(ws[1..][i].1) == Err(rest.error)
                 && forall j :: 0 <= j < i ==> past(ws[1..][j].1).Ok?;
        assert ws[1..][i] == ws[i + 1];
        forall j | 0 <= j < i + 1 ensures past(ws[j].1).Ok? {
          if j > 0 {
            assert ws[1..][j - 1] == ws[j];
          }
        }
      }
    }
  }

  /**
   * The write phase over the remote table: the totals of the contributing
   * hosts are inserted when there are any; the phase reports the hosts it
   * logged, or the text of the insert's exception.
   */
  function WritePhase(d: Dict<Context.Info>, now: real, insert: map<string, nat> -> Option<string>): Phase<string>
    requires Tracked(d, d.order)
  {
    var usage := TotalUsage(d, d.order, now);
    if |usage| > 0 && insert(usage).Some? then Failed(insert(usage).value)
    else Done(WriteLog(Contributors(d, d.order, now)))
  }

  /** The dictionary `read_and_write_db` returns. */
  datatype DbReport = DbReport(read: Phase<Tables>, write: Phase<string>, consumedTime: real)

  /** `str` of an error slot: the text, or `None`. */
  function ErrorSlot<T>(p: Phase<T>): string {
    if p.Failed? then p.error else "None"
  }

  function DbErrorText(report: DbReport): string {
    "DB error: <read> " + ErrorSlot(report.read) + " <write> " + ErrorSlot(report.write)
  }

  class LocalDbWorker {
    const base: W.Worker
    const context: Context.Context

    constructor (context: Context.Context, host: string, pollDelay: real, timeout: real)
      ensures this.context == context && base.context == context
      ensures base.workerType == "function-db" && base.kind == W.FunctionCall
      ensures base.workerName == host + "-function-db"
      ensures base.pollDelay == pollDelay && base.timeout == timeout
    {
      this.context := context;
      base := new W.Worker(context, "function-db", host, pollDelay, timeout);
    }

    /** `get_name_usage`: adds up the hits of the pattern in the text with its colour codes removed. */
    method GetNameUsage(text: string) returns (usage: map<string, nat>)
      ensures usage == NameUsage(text)
    {
      var hits := FindUsages(EscapeAnsi(text));
      usage := map[];
      var i := 0;
      while i < |hits|
        invariant 0 <= i <= |hits|
        invariant usage == Tally(hits[..i])
      {
        TallyStep(hits, i);
        var name, amount := hits[i].name, DigitsValue(hits[i].digits);
        usage := usage[name := Get0(usage, name) + amount];
        i := i + 1;
      }
      assert hits[..i] == hits;
    }

    /**
     * `read_and_write_db`: the read phase, then the write phase over the
     * remote table, each catching its own exception. Returns the report and
     * the totals handed to `insert`, if it was called.
     */
    method ReadAndWriteDb(now: real, consumed: real, past: string -> Result<seq<Context.UsageRow>, string>,
                          insert: map<string, nat> -> Option<string>)
      returns (report: DbReport, inserted: Option<map<string, nat>>)
      requires context.Valid()
      ensures Tracked(context.remoteStatus, context.remoteStatus.order)
      ensures report.read == ReadWindows(past, Windows)
      ensures report.write == WritePhase(context.remoteStatus, now, insert)
      ensures report.consumedTime == consumed
      ensures var usage := TotalUsage(context.remoteStatus, context.remoteStatus.order, now);
              inserted == if |usage| > 0 then Some(usage) else None
    {
      var read := ReadWindows(past, Windows);
      var raw := context.AllRemoteStatus();
      var hosts := raw.order;
      var usages: map<string, nat> := map[];
      var writeLog: seq<string> := [];
      var i := 0;
      while i < |hosts|
        invariant 0 <= i <= |hosts|
        invariant Tracked(raw, hosts[..i])
        invariant writeLog == Contributors(raw, hosts[..i], now)
        invariant usages == TotalUsage(raw, hosts[..i], now)
      {
        var host := hosts[i];
        var info := raw.values[host];
        AggregateStep(raw, hosts, now, i);
        if Contributes(info, now) {
          writeLog := writeLog + [host];
          var nameUsage := GetNameUsage(info.msg);
          usages := AddCounts(usages, nameUsage);
        }
        i := i + 1;
      }
      assert hosts[..i] == hosts;
      var write: Phase<string>;
      if |usages| > 0 {
        inserted := Some(usages);
        var raised := insert(usages);
        if raised.Some? {
          write := Failed(raised.value);
        } else {
          write := Done(WriteLog(writeLog));
        }
      } else {
        inserted := None;
        write := Done(WriteLog(writeLog));
      }
      report := DbReport(read, write, consumed);
    }

    /**
     * `process_result_dict`: a completed read replaces the top-user tables;
     * either error is reported through `on_error`. Returns the consumed time.
     */
    method ProcessResultDict(report: DbReport, now: real) returns (consumed: real)
      requires context.topUsers.Valid()
      modifies context`topUsers, context`topUsersTime, context`topUsersComment
      ensures context.topUsers.Valid()
      ensures context.topUsers ==
                if report.read.Done? then PutAll(old(context.topUsers), report.read.value) else old(context.topUsers)
      ensures context.topUsersTime == if report.read.Done? then now else old(context.topUsersTime)
      ensures context.topUsersComment ==
                if report.read.Failed? || report.write.Failed? then DbErrorText(report) else ""
      ensures consumed == report.consumedTime
    {
      if report.read.Done? {
        context.UpdateTopUsersStatus(Context.Tables(report.read.value), now);
      }
      if report.read.Failed? || report.write.Failed? {
        OnError(DbErrorText(report), now);
      }
      consumed := report.consumedTime;
    }

    /** Failure text goes to the top-users comment; the tables and their time stay. */
    method OnError(msg: string, now: real)
      requires context.topUsers.Valid()
      modifies context`topUsers, context`topUsersTime, context`topUsersComment
      ensures context.topUsers == old(context.topUsers) && context.topUsersTime == old(context.topUsersTime)
      ensures context.topUsersComment == msg
    {
      context.UpdateTopUsersStatus(Context.Comment(msg), now);
    }

    /**
     * One pass of the function loop: the warm-up pause, the database pass,
     * its processing, then the pause before the next pass. `dbTime` is the
     * time the database pass measures for itself, `passTime` the time the
     * loop measures for the whole pass.
     */
    method FunctionPass(now: real, dbTime: real, passTime: real, past: string -> Result<seq<Context.UsageRow>, string>,
                        insert: map<string, nat> -> Option<string>)
      returns (warmup: real, pause: real)
      requires context.Valid()
      modifies context`topUsers, context`topUsersTime, context`topUsersComment
      ensures context.Valid()
      ensures Tracked(context.remoteStatus, context.remoteStatus.order)
      ensures var report := DbReport(ReadWindows(past, Windows), WritePhase(context.remoteStatus, now, insert), dbTime);
              && context.topUsers ==
                   (if report.read.Done? then PutAll(old(context.topUsers), report.read.value) else old(context.topUsers))
              && context.topUsersTime == (if report.read.Done? then now else old(context.topUsersTime))
              && context.topUsersComment ==
                   (if report.read.Failed? || report.write.Failed? then DbErrorText(report) else "")
      ensures warmup == W.FunctionWarmup && pause == W.Pause(base.pollDelay, passTime)
    {
      warmup := W.FunctionWarmup;
      var report, _ := ReadAndWriteDb(now, dbTime, past, insert);
      var _ := ProcessResultDict(report, now);
      pause := W.Pause(base.pollDelay, passTime);
    }
  }
}
