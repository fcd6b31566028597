# gpustat-web status cache and workers, in Dafny

This project models the core of a small GPU-cluster dashboard server. It covers:

- **The status cache** (`Context`). It holds a last-known-good record per remote host for GPU status and for network status, one disk record, the top-users tables and a notification text. A failed poll never clears the cached message. It only stamps the record as failed, with a diagnostic comment. The getters render a stale-but-annotated view of the cached text.
- **The worker base class.** It builds one shell command line from a bundle of named sub-commands. Each sub-command's output is bracketed by `<START name>` / `<END name>` marker lines, and the worker decodes the output back into a map from name to section. The model also covers:
  - one pass of each polling loop: local subprocess, remote command, function;
  - the pause `max(0.05, poll_delay - consumed)`;
  - how `run` classifies what a loop raises: cancellation stops it; timeouts, disconnects, channel-open and OS errors are reported and retried after `poll_delay`; anything else is reported and re-raised.
- **The local disk worker.** It turns the `df` section into a sorted, aligned table and passes the notification section through.
- **The local database worker.** It:
  - extracts `name(NNNM)` usages from the fresh, successful remote GPU reports;
  - sums them per user over those hosts, keeping only positive totals;
  - inserts the totals when there are any;
  - reads four top-user windows;
  - reports either phase's error through the top-users comment.
- **db.py helpers.** These are the 30-day date window and the per-day usage summary, with dates as day numbers.
- **`escape_ansi`.** It removes the control sequences matched by the pattern `(\x9B|\x1B\[)[0-?]*[ -/]*[@-~]`.

Outside inputs become parameters:

- `time.time()` is a `now: real`.
- termcolor's `colored` is an uninterpreted `(text, colour) -> string` held by the cache.
- `msg_from_host` is a caller-supplied `tag` function.
- The subprocess or SSH result is given as exit code, stdout and stderr.
- The database queries are functions from their argument to a result or the text of the exception they raise.

Modules:

| module | file | models |
|---|---|---|
| `Wrappers` | wrappers.dfy | `Option`, `Result` |
| `Text` | text.dfy | `str.split`/`join`/`strip`, `'{:<n}'`/`'{:>n}'` padding, `filter(None, s.split(' '))`, `int`/`str` on decimal digits, string order |
| `Sorting` | sorting.dfy | `sorted` as an insertion sort parameterised by its comparison |
| `OrderedDict` | ordered_dict.dfy | insertion-ordered `dict`/`defaultdict` |
| `Utils` | utils.dfy | `escape_ansi` |
| `Context` | context.dfy | `Info` and class `Context` |
| `CommandBundle` | bundle.dfy | the marker protocol of `set_cmd_line` / `get_result_dict` |
| `Worker` | worker.dfy | class `Worker`, the loop passes, `run` |
| `LocalDiskWorker` | local_disk_worker.dfy | class `LocalDiskWorker` |
| `LocalDbWorker` | local_db_worker.dfy | class `LocalDBWorker` |
| `Db` | db.dfy | `get_date_list`, `Database.summary` |

A local run counts as failed only when its exit code is non-zero AND its stderr is non-empty (workers/worker.py:54). A non-zero exit with an empty stderr is decoded like a clean run. `Worker.LocalResult` states this.

## Model

| member | source | states |
|---|---|---|
| Context.Record | context.py:32-40 | a successful update stores the new text with an empty comment; a failed one keeps the previous message; both set the success flag and the time |
| Context.ReplayKeepsLastObserved | context.py:32-40 | over any sequence of updates the cached message is that of the last successful update (or the initial one), while flag, time and comment follow the latest update |
| Context.CachedText | context.py:47 | `escape_ansi(msg) or '(null)'` is never empty |
| Context.EnsureNewline | context.py:50 | the rendered text always ends a line, adding at most one line break |
| Context.RenderFailedShape | context.py:42-50 | a failed host record renders as its comment followed by " Cached info:" and ends with a line break |
| Context.RenderFailedNothingCached | context.py:47-50 | with nothing cached a failed host record renders as comment + " Cached info:(null)\n" |
| Context.RenderFailedCachedLines | context.py:47-50 | a failed host record whose cached message ends a line shows the escaped message on its own line after the comment |
| Context.RenderDiskShape | context.py:64-71 | a successful disk record renders as its message; a failed one as comment, " Cached info: ", the cached text, ending a line |
| Context.RenderTerminatedHost | context.py:42-50 | a record whose message is empty or line-terminated renders as nothing exactly when it is a never-written default, and otherwise ends a line |
| Context.SortByUsageSpec | context.py:113 | each top-users list is returned as a permutation of itself in descending order of usage |
| Context.LatestUpdateSpec | context.py:95-98 | the maximum time is 0 or some record's time, and no record is later |
| Context.HostsStep | context.py:96-98 | one loop step appends the host's rendering and takes the larger time |
| Context.Context.constructor | context.py:15-24 | empty host tables and top-users table, default disk record, empty notification and comment, time 0 |
| Context.Context.UpdateRemoteStatus | context.py:32-40 | success stores `text + "\n"`; failure keeps the cached message and stores `colored("(host) ") + text`; every other host's record and presence are unchanged |
| Context.Context.GetRemoteStatus | context.py:42-50 | returns the rendering of the host's record (empty for an unknown host) and, like the defaultdict read, inserts a default record for a missing host |
| Context.Context.UpdateDiskStatus | context.py:55-62 | success stores the text verbatim; failure keeps the cached text and stores the comment |
| Context.Context.GetDiskStatus | context.py:64-71 | returns the disk record's rendering and its update time |
| Context.Context.UpdateNetworkStatus | context.py:73-81 | as `UpdateRemoteStatus`, on the network table |
| Context.Context.GetNetworkStatus | context.py:83-91 | as `GetRemoteStatus`, on the network table |
| Context.Context.GetAllNetworkStatus | context.py:93-99 | the coloured header followed by every host's rendering in table order, and the latest update time over the table |
| Context.Context.UpdateTopUsersStatus | context.py:101-108 | success assigns the given tables key by key, stamps the time and clears the comment; failure changes only the comment |
| Context.TopUsersTablesSpec | context.py:110-114 | the returned tables have the stored keys in the stored order, each holding its stored list sorted by usage |
| Context.Context.GetTopUsersStatus | context.py:110-114 | returns the tables `TopUsersTablesSpec` describes, with time and comment; no stored state changes |
| Context.Context.UpdateNotification | context.py:116-117 | the notification becomes the given text |
| Context.Context.GetNotification | context.py:119-120 | returns the notification |
| Utils.EscapeAnsi | utils.py:18-20 | the result is never longer than the input |
| Utils.MatchLength | utils.py:18-20 | a match at the head of the text is a complete control sequence (introducer, parameter bytes, intermediate bytes, one final byte) |
| Utils.MatchLengthComplete | utils.py:18-20 | every control sequence at the head of the text is matched, with exactly its length |
| Utils.EscapeAnsiDropsSequence | utils.py:18-20 | a control sequence at the head is removed and the rest is processed independently |
| Utils.EscapeAnsiKeepsUnterminated | utils.py:18-20 | an introducer that no final byte completes is kept |
| Utils.EscapeAnsiPlain | utils.py:18-20 | text with neither ESC nor CSI is unchanged |
| Utils.EscapeAnsiSubsequence | utils.py:18-20 | the output is the input with characters deleted |
| Utils.EscapeAnsiKeepsNewlines | utils.py:18-20 | no line break is removed |
| Utils.EscapeAnsiKeepsTrailingNewline | utils.py:18-20 | text ending a line still ends one after escaping |
| CommandBundle.Names | workers/worker.py:40 | the names of the bundle, in dictionary order |
| CommandBundle.EncodeAppend | workers/worker.py:33-34 | adding a sub-command appends " && " and its `echo '<START k>' && v && echo '<END k>'` segment |
| CommandBundle.EncodeSingle | workers/worker.py:33-34 | a one-entry bundle is its single segment |
| CommandBundle.IndexOf | workers/worker.py:41-42 | `list.index`: a found position holds the marker, and absence means no line is the marker (the ValueError case) |
| CommandBundle.IndexOfFirst | workers/worker.py:41-42 | no line before the found position is the marker |
| CommandBundle.SectionOk | workers/worker.py:41-43 | a name's section is found exactly when both its marker lines are present |
| CommandBundle.DecodeLinesOk | workers/worker.py:37-44 | decoding succeeds exactly when every name has both marker lines |
| CommandBundle.DecodeLinesValue | workers/worker.py:37-44 | a decoded map has exactly the bundle's names as keys, each holding the lines between its first start and first end marker, joined |
| CommandBundle.DecodeLinesError | workers/worker.py:37-44 | a failed decoding reports, for some name all of whose predecessors are marked, its start marker when that is absent from the lines, and otherwise its end marker, which is then absent |
| CommandBundle.DecodeErrorPersists | workers/worker.py:40-42 | the first name that fails ends decoding with its error |
| CommandBundle.DecodeLinesSnoc | workers/worker.py:40-43 | each loop step adds one name's section to the result |
| CommandBundle.MarkersDiffer | workers/worker.py:33 | start and end markers never coincide and identify their name |
| CommandBundle.SectionOfBlock | workers/worker.py:41-43 | the section of a name whose block follows marker-free lines is its output's lines joined, the empty text when it printed nothing |
| CommandBundle.SectionOfRun | workers/worker.py:33-43 | in a well-formed run each name's section is that sub-command's output, its lines joined |
| CommandBundle.SplitOfRun | workers/worker.py:38 | splitting the raw text of a run at line breaks gives back its lines |
| CommandBundle.DecodeKnownSections | workers/worker.py:37-44 | when each name's section is known, decoding returns exactly those sections |
| CommandBundle.RoundTrip | workers/worker.py:31-44 | decoding the output of a well-formed run of the command line `set_cmd_line` builds returns every sub-command's own output, including the empty output of one that printed nothing, whatever the trailing lines |
| CommandBundle.SilentSubCommand | workers/worker.py:41-43 | adjacent start and end markers (a sub-command that printed nothing, such as `cat` of an empty file) decode to the empty text |
| CommandBundle.TruncatedRunFails | workers/worker.py:33-42 | a run whose `&&` chain stopped inside a sub-command lacks that end marker and cannot be decoded |
| Worker.KindOf | workers/worker.py:10-11 | the loop a worker type selects: exactly one of the prefixes local, remote, function |
| Worker.LocalResult | workers/worker.py:54-67 | a non-zero exit code with stderr output reports the exit error; otherwise the output decodes exactly when every name is marked, into a map keyed by the names, and a missing marker reports the ValueError text of the first absent marker; each decoded value is that name's section |
| Worker.RemoteResult | workers/worker.py:81-93 | a non-zero exit status reports the remote error; otherwise decoding as for the local loop, with the same ValueError text and sections |
| Worker.LocalCleanRun | workers/worker.py:54-63 | a clean local run of a well-formed bundle hands every sub-command's own output, empty ones included, to `process_result_dict` |
| Worker.RemoteCleanRun | workers/worker.py:81-90 | likewise for a clean remote run, empty outputs included |
| Worker.Pause | workers/worker.py:70-71 | the pause is at least 0.05 and at least `poll_delay - consumed`, and equals one of them |
| Worker.PassPeriod | workers/worker.py:70-71 | a pass and its pause last `poll_delay` when the pass took less than `poll_delay - 0.05`, and never less than `poll_delay` |
| Worker.Handle | workers/worker.py:127-143 | cancellation alone stops `run`, only an unclassified exception is re-raised, all the others are retried |
| Worker.LeadingRetries | workers/worker.py:116-148 | the count of leading retried exceptions: each is retried and the next is not |
| Worker.RunTraceSpec | workers/worker.py:116-148 | `run` reports then sleeps `poll_delay` for each retried exception; the first other one closes it silently (cancellation) or reports once and propagates |
| Worker.CancellationNotReported | workers/worker.py:127-129 | cancellation is never reported through `on_error` |
| Worker.Worker.constructor | workers/worker.py:9-17 | the worker type must have a known prefix; the name is `host-type`; the other settings are stored |
| Worker.Worker.SetCmdLine | workers/worker.py:31-35 | stores the bundle and returns the joined command line it stores |
| Worker.Worker.GetResultDict | workers/worker.py:37-44 | returns the decoding of the raw output against the bundle's names |
| Worker.Worker.Run | workers/worker.py:116-148 | the effects and ending of `run` are those `RunTraceSpec` describes |
| LocalDiskWorker.FieldsOfColumns | workers/local_disk_worker.py:23 | splitting a line of blank-separated columns and dropping empty parts gives back the columns, however wide the gaps |
| LocalDiskWorker.DiskLineOfColumns | workers/local_disk_worker.py:23-26 | a `df` line is skipped exactly when it has at most three columns or a last column shorter than three; otherwise the row shows the last, fourth- and third-from-last columns |
| LocalDiskWorker.DiskRows | workers/local_disk_worker.py:22-26 | at most one row per line |
| LocalDiskWorker.StrLeTotalPreorder | workers/local_disk_worker.py:27 | string order is a total preorder |
| LocalDiskWorker.DiskInfoSpec | workers/local_disk_worker.py:19-27 | the table is the header line followed by exactly the kept lines' rows, in ascending string order |
| LocalDiskWorker.CleanPassStores | workers/local_disk_worker.py:17-34 | a clean run of a bundle with DISK and NOTIFICATION stores the table of the DISK output and the NOTIFICATION output, either of which may be empty |
| LocalDiskWorker.LocalDiskWorker.constructor | workers/local_disk_worker.py:12-15 | a `local-disk` worker with the bundle set |
| LocalDiskWorker.LocalDiskWorker.ProcessResultDict | workers/local_disk_worker.py:17-34 | a missing DISK or NOTIFICATION is the KeyError and nothing changes; otherwise the disk record gets the table and the notification the text, and both are returned |
| LocalDiskWorker.LocalDiskWorker.OnError | workers/local_disk_worker.py:36-37 | the disk record is marked failed with the text as comment, its cached table kept |
| LocalDiskWorker.LocalDiskWorker.LocalPass | workers/worker.py:46-71 | one local pass: the exit error, marker error or KeyError goes to the disk comment tagged; otherwise the table and notification are stored; then the pause |
| LocalDbWorker.MatchUsage | workers/local_db_worker.py:22 | a match is a whitespace character, one or more ASCII letters, `(`, one or more digits, `M)` |
| LocalDbWorker.MatchUsageComplete | workers/local_db_worker.py:22 | every such text at the head is matched, with its groups |
| LocalDbWorker.FindUsages | workers/local_db_worker.py:24 | every hit has a letter name and a digit amount |
| LocalDbWorker.FindUsagesEntry | workers/local_db_worker.py:24 | a hit at the head is found, and the search resumes right after it |
| LocalDbWorker.FindUsagesSound | workers/local_db_worker.py:24 | every hit `findall` returns is the match of the pattern at some position of the text |
| LocalDbWorker.FindUsagesSkip | workers/local_db_worker.py:24 | a position where the pattern does not match is passed over |
| LocalDbWorker.FindUsagesNoParen | workers/local_db_worker.py:24 | text without `(` has no hit |
| LocalDbWorker.TallySpec | workers/local_db_worker.py:21-26 | the usage map has a key exactly for each mentioned name, holding the sum of its amounts |
| LocalDbWorker.AddCounts | workers/local_db_worker.py:50 | `Counter +=`: counts add up, and only names with a positive total are kept |
| LocalDbWorker.ContributorsSpec | workers/local_db_worker.py:46-49 | the written hosts are exactly those whose record succeeded and is at most 100 seconds old |
| LocalDbWorker.TotalUsageSpec | workers/local_db_worker.py:44-51 | each name's total is the sum over the contributing hosts, and only positive totals are kept |
| LocalDbWorker.ReadWindowsSpec | workers/local_db_worker.py:32-40 | the read phase completes exactly when all four queries do, with one table per window in order; otherwise it carries the first query's error |
| LocalDbWorker.LocalDbWorker.constructor | workers/local_db_worker.py:14-18 | a `function-db` worker |
| LocalDbWorker.LocalDbWorker.GetNameUsage | workers/local_db_worker.py:20-26 | the usage map of the hits in the escaped text |
| LocalDbWorker.LocalDbWorker.ReadAndWriteDb | workers/local_db_worker.py:28-59 | the read phase and, whatever it gives, the write phase over the remote table: insert only when some total is positive, then the written hosts joined or `(null)`, or the insert's error |
| LocalDbWorker.LocalDbWorker.ProcessResultDict | workers/local_db_worker.py:61-70 | top users are updated exactly when the read completed; the comment is `DB error: <read> … <write> …` when either phase failed, else cleared; returns the consumed time |
| LocalDbWorker.LocalDbWorker.OnError | workers/local_db_worker.py:72-73 | only the top-users comment changes |
| LocalDbWorker.LocalDbWorker.FunctionPass | workers/worker.py:99-114 | one function pass: 0.2 s warm-up, the database pass, its processing, then the pause |
| Sorting.SortDescending | db.py:10-11 | sorting a list given in strictly descending order gives it reversed, so the days before today come out oldest first |
| Db.FillSummary | db.py:175-183 | the two loops build exactly the summary of the window and the rows |
| Db.DaysBefore | db.py:10-11 | the comprehension gives `days` dates, strictly decreasing, all in `[today - days, today)` |
| Db.DateList | db.py:9-12 | exactly `days` dates, from `today - days` up to `today - 1` |
| Db.DateListSpec | db.py:9-12 | the list is strictly ascending and holds exactly the days in `[today - days, today)`, so never today |
| Db.ZerosSpec | db.py:178-179 | every window day starts at zero |
| Db.SummarySpec | db.py:175-183 | the keys are the window days plus every row's day; a window day without rows is 0; a day with rows holds its last row's usage |
| Db.Summary | db.py:175-183 | the summary of the rows the query returns for the stripped name over the 30-day window |
| Text.JoinSplit | workers/worker.py:38-43 | joining the parts of a split with the same separator gives back the text |
| Text.SplitJoin | workers/worker.py:38-43 | splitting a join of separator-free parts gives back the parts |
| Text.SplitHasSeveralParts | context.py:49 | `len(cached.split('\n')) > 1` exactly when the text holds a line break |
| Text.Split | workers/worker.py:38 | `str.split(sep)`: at least one part, none holding the separator; `JoinSplit` and `SplitJoin` make it the inverse of joining |
| Text.NatText | workers/worker.py:55 | `str(n)` for an exit code: non-empty decimal digits without a leading zero, read back by `NatTextValue` |
| Text.PadRight | workers/local_disk_worker.py:19-20 | `'{:<n}'` left-aligns, pads with blanks to width n and never cuts |
| Text.PadLeft | workers/local_disk_worker.py:19-20 | `'{:>n}'` right-aligns, pads with blanks to width n and never cuts |
| Text.Fields | workers/local_disk_worker.py:23 | the non-empty parts contain no blank |
| Text.StripIdempotent | db.py:169-176 | stripping the stripped name again changes nothing |
| Text.LexLeTotal | workers/local_disk_worker.py:27 | string order compares every pair |
| Text.LexLeTransitive | workers/local_disk_worker.py:27 | string order is transitive |
| Text.NatTextValue | workers/worker.py:55 | the digits `str` writes for an exit code read back as that number |
| Sorting.SortSpec | workers/local_disk_worker.py:27 | `sorted` returns a sorted permutation of its input |
| OrderedDict.Put | context.py:36-39 | `d[k] = v`: the key gets the value, every other entry is kept, and a new key goes to the end of the insertion order while an existing one keeps its place |
| OrderedDict.Touch | context.py:38 | a `defaultdict` read inserts the default for a missing key and leaves every other entry |
| OrderedDict.PutAfterTouch | context.py:38-39 | writing a key just after its `defaultdict` read is the same as writing it directly |
| OrderedDict.MapValuesSpec | context.py:113 | rebuilding a dict key by key keeps the keys and their order and applies the function to each value |
| OrderedDict.PutAllSpec | context.py:103-104 | assigning each pair in turn gives every listed key its value and leaves every other key as it was |

## Left out

- I/O and concurrency are left out: the asyncio tasks, subprocesses, SSH connections, SQLite, `print` and `cprint`. Their results are parameters.
- `msg_from_host` (utils.py:12-15) adds the time and worker name, and the colour. It is the caller-supplied `tag` function.
- `now_time` (utils.py:6-9) and `get_float` (utils.py:23-30) are not part of this model. `get_float` is only called by the remote GPU worker (workers/remote_gpu_worker.py:49-55).
- The `process_result_dict`, `on_error` and constructors of the remote GPU and network workers are not part of this model. They parse and format floats. The remote loop's decision is still modelled (`Worker.RemoteResult`).
- `Context.data`, `db_last_write`, `db_last_read`, `all_data` and the `Database` SQL methods are left out. The modelled operations never read these fields, and the methods are SQLite I/O.
- `Worker.port` and `set_worker_function` are abstracted away. `run` reads the port (workers/worker.py:122) only to open the SSH connection, which is I/O here: `Worker.Worker.Run` takes the outcomes of the loop bodies as a sequence. The function loop calls the installed `worker_function` (workers/worker.py:106); `LocalDbWorker.LocalDbWorker.FunctionPass` calls `ReadAndWriteDb` in its place, which is what `set_worker_function` installs (workers/local_db_worker.py:18).
- `Context.Context.AllRemoteStatus` returns the remote table itself. It has no contract beyond that.
- Worker.LocalResult: stdout and stderr are taken as already-decoded text; the two `bytes.decode()` calls are not modelled. In the source, a failed run whose stderr is not valid UTF-8 raises UnicodeDecodeError at workers/worker.py:55, outside the `try`. `run` reports and re-raises it (workers/worker.py:138-143), so the worker stops, where the model reports the exit error and keeps polling. Non-UTF-8 stdout raises inside the `try` (workers/worker.py:61) and is reported as "UnicodeDecodeError: …", a text `LocalResult` never produces.
- Worker.RunTraceSpec: `Raised.Other` stands for every exception other than cancellation and the retried ones, and the model reports each of them through `on_error`. A BaseException that is not an Exception, such as KeyboardInterrupt or SystemExit, skips `on_error` in the source and propagates unreported.
- Worker.RunTraceSpec: the texts of the timeout and disconnect messages are not modelled. The model records which exception was reported, not the text `msg_from_host` builds.
- Worker.DecodeErrorText writes the marker between plain single quotes. Python's `repr` gives the same only for markers of printable characters without quotes or backslashes.
- Worker.Worker.constructor: before `set_cmd_line`, the attribute `cmd` does not exist in the source. The model starts it as `""` and `cmdDict` as absent.
- LocalDiskWorker.DiskRow pads the mount point and then applies `colored`. The source pads inside a coloured template. The two agree when `colored` wraps its argument in escape codes, which is how termcolor works; `colored` itself is uninterpreted here.
- LocalDbWorker.LocalDbWorker.ReadAndWriteDb uses one `now` for the whole host loop. The source reads the clock once per host.
- LocalDbWorker.LocalDbWorker.ReadAndWriteDb passes the inserted totals as a map. The source passes a list of pairs in Counter order; that order is not modelled.
- The read phase's rows are whatever the `past` query returns. The SQL aggregation and the GB-h scaling are not modelled.
- Db.Summary returns a map: the key order of the `defaultdict` is not modelled.
- Db.DateList works on day numbers. The source sorts ISO date strings, whose order is day order for four-digit years.
- Floating-point rounding is not modelled: times and usages are `real`.
