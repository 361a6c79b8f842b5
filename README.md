# FTP backup and activity tracker: a verified model

This project models two tools and proves properties about them.

**The FTP backup tool.** `HostingerBackup` in `hostingerbackup/hostinger_bakup.py` and its older full-only version in `hostingerbackup/fullbackup.py` are modelled as one class.

- **Server.** The FTP server is a map from normalised paths to entries: a directory with a listing that may fail, a file whose `SIZE`/`MDTM` replies may be missing, a path `CWD` refuses with a non-550 permission error, or one where `CWD` fails otherwise. A path not in the map draws a 550 reply.
- **Class state.** The class holds:
  - the server cursor;
  - the file, directory and byte counters;
  - the set of local paths that exist;
  - the `backups` history table, as a sequence of rows.
- **Methods.** Each method is proved against a pure specification:
  - `download_directory` against the recursive walk `Remote.Walk`;
  - the history operations against the functions of `History`.
- **Run type.** The full/incremental choice of `run_backup` is the function `Decision.Decide`.
- **The two tools.** They differ in whether a download copies the `MDTM` time to the local file, and in the per-file rule (`Remote.Mode`):
  - `MirrorAll` is a full run;
  - `Since(baseline)` is an incremental run;
  - `KeepExisting` is `fullbackup.py`, which fetches only missing files.

**The activity tracker.** This covers `activitytracker/gen_report.py`, `tracker.py`, `activity_tracker.py` and `generate_html_report.py`. It contains:

- **Site extraction** from window titles (module `Sites`).
- **Keyword categories** (module `Categories`). Each chain of tests is proved equal to a first-match rule table.
- **The session-splitting loop** of `activity_monitor` over a finite sequence of samples (module `Sessions`).
- **Per-key duration totals** (module `Summary`). They use an insertion-ordered dictionary (module `PyDict`).
- **The report tables** (module `Reports`). Rows are merged, sorted by a stable descending sort, and formatted as `m:ss`.

**Conventions.**
- Times are integers:
  - seconds for the backup history;
  - microseconds for window samples;
  - plain integers for report rows.
- Strings are `seq<char>`.

## Model

| member | source | states |
|---|---|---|
| FtpPath.NormalizeShape | hostingerbackup/hostinger_bakup.py:35-40 | the result starts with `/`, has no backslash, is `/` exactly when the input is empty or all slashes and backslashes, and otherwise does not end with `/`; fullbackup.py:27-32 holds the same normaliser |
| FtpPath.NormalizeIdempotent | hostingerbackup/hostinger_bakup.py:35-40 | normalising a normalised path gives it back unchanged |
| History.LatestStart | hostingerbackup/hostinger_bakup.py:78-94 | `MAX(start_time)` over the matching rows: `None` exactly when no row is a success for this remote directory (of type full, when asked), otherwise a start time of such a row that no other such row exceeds |
| History.LastBackupTimes | hostingerbackup/hostinger_bakup.py:68-99 | the last successful full start is never later than the last successful start of either type, and exists only if the latter does |
| History.StartedKeepsLifecycle | hostingerbackup/hostinger_bakup.py:104-107 | an inserted `running` row has no end time, so end times stay set exactly on the rows that are not running |
| History.FinishedKeepsLifecycle | hostingerbackup/hostinger_bakup.py:125-133 | setting the end time together with a final status keeps end times set exactly on the rows that are not running |
| History.UnsuccessfulRowIgnored | hostingerbackup/hostinger_bakup.py:78-94 | appending a row whose status is not `success` leaves both baselines unchanged |
| History.SuccessfulRowIsBaseline | hostingerbackup/hostinger_bakup.py:78-94 | appending a successful row for the directory yields a baseline at least as late as that row's start |
| Decision.Decide | hostingerbackup/hostinger_bakup.py:324-361 | a full run exactly when `full` is requested, or there is no successful run at all, or `auto` finds no successful full run or one more than a week old; otherwise an incremental run whose baseline is the last successful start |
| Decision.BaselineIsLatestSuccess | hostingerbackup/hostinger_bakup.py:88-94 | an incremental run's baseline is the start of a successful run for the same directory, and no successful run for it started later |
| Decision.AutoBaselineWithinWeek | hostingerbackup/hostinger_bakup.py:336-338 | under `auto`, an incremental run's baseline is at most one week before now |
| Decision.NoHistoryMeansFull | hostingerbackup/hostinger_bakup.py:351-357 | with no successful run on record for the directory, every requested type gives a full run |
| Decision.WeekBoundary | hostingerbackup/hostinger_bakup.py:336 | the week test is strict: a full run exactly 7 days old still allows an incremental run, and one second more forces a full run |
| Remote.Probe | hostingerbackup/hostinger_bakup.py:250-287 | `CWD` succeeds exactly on directories, and answers 550 exactly on files and missing paths |
| Remote.MtimeOf | hostingerbackup/hostinger_bakup.py:173-189 | a modification time is known only for files |
| Remote.WalkGrows | hostingerbackup/hostinger_bakup.py:227-304 | a walk only adds: the directory count never drops, download requests are only appended, local paths are never removed |
| Remote.KeepExistingNeverOverwrites | hostingerbackup/fullbackup.py:134-138 | in the full-only walk every download targets a local path that did not exist before, and no two downloads target the same path |
| Remote.IncrementalIntoFreshFolderIsFull | hostingerbackup/hostinger_bakup.py:261-278 | when the target folder is new and no listing repeats a name, an incremental walk fetches exactly what a full walk fetches, and creates paths only inside the target |
| Backup.HostingerBackup.constructor | hostingerbackup/hostinger_bakup.py:11-33 | the remote directory is normalised, the counters are zero, the database is open and no run id is set |
| Backup.HostingerBackup.Cwd | hostingerbackup/hostinger_bakup.py:250-257 | the cursor moves exactly when `CWD` succeeds |
| Backup.HostingerBackup.Retrieve | hostingerbackup/hostinger_bakup.py:205-207 | a transfer may fail for any reason, and never succeeds on something that is not a file |
| Backup.HostingerBackup.DownloadFile | hostingerbackup/hostinger_bakup.py:191-225 | at most 3 attempts; the file count rises by the number of attempts whose transfer completed and the byte total by that many times the queried size (0 when unknown); a success has at least one such transfer; a completed transfer whose timestamp step raised is fetched again and counted again, which can only happen when `MDTM` gave a time and the tool sets times; fullbackup.py:65-89 has no timestamp step, so there (and without a time) a file is counted once on success and not at all after 3 failures; the request is appended to the log |
| Backup.HostingerBackup.Retry | hostingerbackup/hostinger_bakup.py:193-224 | between 1 and 3 attempts, all 3 used when none succeeds; success only when the path is a file; at most one completed transfer per attempt, at least one on success, and exactly one (or none after failure) when there is no `MDTM` time |
| Backup.HostingerBackup.LogDownload | hostingerbackup/hostinger_bakup.py:209-210 | each completed transfer of the call adds one file and its size to the counters, keeping the counters equal to the log's totals |
| Backup.HostingerBackup.DownloadDirectory | hostingerbackup/hostinger_bakup.py:227-304 | the new counters, download requests and local paths are those of the walk `Remote.Walk` (with the full-only file rule for fullbackup.py:91-164); the cursor ends in the parent after a completed listing, otherwise back where it started; every entry handled left the cursor in its own directory and none was `.` or `..` |
| Backup.HostingerBackup.WalkListing | hostingerbackup/hostinger_bakup.py:242-290 | the loop over the listing does what `Remote.WalkItems` says, entry by entry, and ends with the cursor in the listed directory |
| Backup.HostingerBackup.LeaveDirectory | hostingerbackup/hostinger_bakup.py:292-296 | after the listing the cursor goes up to the parent when the server accepts it, and otherwise back to where the walk started |
| Backup.HostingerBackup.HandleEntry | hostingerbackup/hostinger_bakup.py:242-287 | one listed entry, handled as `Remote.WalkEntry` says, with the cursor back in the listed directory afterwards |
| Backup.HostingerBackup.VisitChild | hostingerbackup/hostinger_bakup.py:251-287 | a `CWD` that succeeds leads to a walk of the child, a 550 reply to the file rule, any other reply to nothing |
| Backup.HostingerBackup.EnterChild | hostingerbackup/hostinger_bakup.py:252-257 | a sub-directory is created locally and walked one level down |
| Backup.HostingerBackup.FetchChild | hostingerbackup/hostinger_bakup.py:259-278 | a 550 entry is downloaded exactly when the mode's rule says so: always in a full run; in an incremental run when its time is after the baseline or it has no local copy |
| Backup.HostingerBackup.RecordBackupStart | hostingerbackup/hostinger_bakup.py:101-113 | with the database open, a `running` row with the next id is appended and becomes the current id; otherwise nothing is recorded and there is no id; a table where end times are set exactly on the rows that are not running stays so |
| Backup.HostingerBackup.UpdateBackupRecord | hostingerbackup/hostinger_bakup.py:115-137 | the current row gets its end time, counters and status; nothing changes without an id or with the database closed; closing a row with a final status keeps end times set exactly on the rows that are not running |
| Backup.HostingerBackup.Disconnect | hostingerbackup/hostinger_bakup.py:147-154 | the database connection is closed |
| Backup.HostingerBackup.StartRun | hostingerbackup/hostinger_bakup.py:316-363 | the plan is the history decision; a `running` row for it is appended and becomes the current id; the walk runs into the new folder with the plan's file rule |
| Backup.HostingerBackup.RunBackup | hostingerbackup/hostinger_bakup.py:306-373 | as written: the plan is the history decision, the walk runs into the new `_FULL`/`_INC` folder, and the history gains only the run's `running` row |
| Backup.HostingerBackup.RunBackupFixed | hostingerbackup/hostinger_bakup.py:306-373 | with the update before the close: the history gains the run's row, finished as a success with the final counters |
| Backup.HostingerBackup.RunFullOnlyBackup | hostingerbackup/fullbackup.py:166-191 | the full-only run walks the remote directory into a new `hostinger_backup_<stamp>` folder, fetching only missing files |
| Backup.AsWrittenRunsAlwaysFull | hostingerbackup/hostinger_bakup.py:370-372 | starting without a successful run, any number of as-written runs leave every later decision a full run |
| Backup.AsWrittenSecondRunIsFull | hostingerbackup/hostinger_bakup.py:370-372 | on a fresh history, the first `auto` run and the one after it are both full |
| Backup.FixedFullRunEnablesIncremental | hostingerbackup/hostinger_bakup.py:336-338 | after a fixed full run, `auto` chooses an incremental run for the following week, with a baseline no older than that run |
| Text.Contains | activitytracker/tracker.py:39 | Python's `sub in s`: true exactly when `sub` occurs at some position |
| Text.Strip | activitytracker/tracker.py:41 | `strip()`: the result is a slice with only whitespace cut from either side and none left at its ends |
| Text.StrippedLastSegment | activitytracker/tracker.py:40-41 | `rsplit(" - ", 1)[-1].strip()` is the trimmed text after the last separator (or of the whole string), and contains no separator |
| Sites.MatchAt | activitytracker/tracker.py:42 | a match of the URL pattern is a non-empty run of non-space, non-slash characters right after `://` or `://www.`, running to the end of that run |
| Sites.MatchAtHost | activitytracker/tracker.py:42-43 | the pattern matches exactly where a scheme is followed by a host character; the host starts after `www.` when a host character follows it, and right after the scheme otherwise |
| Sites.FindUrl | activitytracker/tracker.py:42 | `re.search`: no result exactly when no position matches, otherwise the match at the leftmost matching position |
| Sites.ChromeSite | activitytracker/activity_tracker.py:47-49 | the marker removed, the result is the trimmed text after the last ` - `, with no whitespace at its ends and no ` - ` inside |
| Sites.UrlHost | activitytracker/activity_tracker.py:50-51 | `""` exactly when the title has no URL, otherwise the host of the first URL |
| Categories.FirstMatchMeans | activitytracker/gen_report.py:39-61 | a first-match rule table gives its default exactly when no keyword applies, otherwise the category of the first rule that applies |
| Categories.CategorizeByRules | activitytracker/gen_report.py:35-61 | gen_report's `categorize` is the Chrome rule table (youtube, stackoverflow/github/gitlab, mail/gmail, deepseek/chat.openai, report; default Browsing) for `chrome.exe` and the application table (code, pycharm, word/excel, game, explorer/framehost; default Other) for everything else |
| Categories.CategorizeDefaults | activitytracker/gen_report.py:50-61 | Browsing and Other are returned exactly when no keyword of the applicable table occurs |
| Categories.CategorizeIgnoresCase | activitytracker/gen_report.py:36-37 | case does not matter in either argument, and a missing value acts as `""` |
| Categories.ChromeIsCaseInsensitive | activitytracker/gen_report.py:37-39 | any capitalisation of `chrome.exe` is treated as Chrome |
| Categories.TrackerCategorizeByRules | activitytracker/tracker.py:96-112 | tracker's `categorize` is its smaller Chrome table (youtube, stackoverflow/github, gmail/mail; default Browsing) for the exact name `chrome.exe`, and the lower-cased application table (code, word/excel, game; default Other) otherwise |
| Categories.TrackerChromeIsCaseSensitive | activitytracker/tracker.py:97 | a capitalised `Chrome.exe` is not a browser there and falls to Other |
| Sessions.WholeSeconds | activitytracker/activity_tracker.py:55 | `int(total_seconds())` truncates toward zero: for a non-negative span, the largest whole number of seconds not exceeding it |
| Sessions.SaveSession | activitytracker/activity_tracker.py:54-67 | the row holds the app, title, start and end; a site exactly when the lower-cased app contains `chrome`, and then it is the extracted site; the duration in whole elapsed seconds; the day containing the start; tracker.py:45-57 derives the same fields |
| Sessions.ActivityMonitor | activitytracker/activity_tracker.py:70-83 | the rows saved over a run of samples are those of the fold `Run`; tracker.py:59-70 is the same loop |
| Sessions.RunOrdered | activitytracker/activity_tracker.py:78-83 | with a clock that never goes back, saved sessions have non-negative length and do not overlap; the open session starts after all of them; every saved row has an app name |
| Sessions.RunContiguous | activitytracker/activity_tracker.py:78-83 | when every sample shows a named window, each saved session starts exactly where the previous one ended, and consecutive rows differ in `(app, title)` |
| Sessions.SavedWindowsSampled | activitytracker/activity_tracker.py:76-83 | every saved row is of an `(app, title)` some sample showed |
| Summary.TallyGet | activitytracker/gen_report.py:27-31 | a key's total is the sum of the durations of the rows with that key |
| Summary.TallyKeys | activitytracker/gen_report.py:27-31 | the keys of a tally are exactly the keys of its rows |
| Summary.TallyTotal | activitytracker/gen_report.py:27-31 | the totals add up to the durations of the rows that have a key |
| Summary.SiteKeys | activitytracker/generate_html_report.py:29-30 | the empty site is never a key, and only `chrome.exe` rows with a site reach the Chrome site map |
| Summary.Summarize | activitytracker/gen_report.py:23-33 | `apps` fills only the app map, `sites` only the site map (rows without a site skipped), `both` both; any other scope neither |
| Summary.SummarizeRow | activitytracker/gen_report.py:27-31 | one pass of the loop turns the maps for the rows so far into the maps for one row more |
| Summary.InWindow | activitytracker/tracker.py:80-83 | only rows whose timestamp lies in the closed window, and each row in the window as many times as it occurs in the data |
| Summary.InWindowSnoc | activitytracker/tracker.py:80-83 | one more row at the end of the data is kept, after all earlier kept rows, exactly when its timestamp lies in the window |
| Summary.InWindowAppend | activitytracker/tracker.py:80-83 | the rows' order is kept: the window of two pieces of data read one after the other is the first piece's window followed by the second's |
| Summary.SummarizeActivity | activitytracker/tracker.py:76-94 | the totals are those of the rows inside the inclusive window; `all` fills both maps, `apps` and `sites` one each, any other scope neither |
| Summary.ActivityRow | activitytracker/tracker.py:81-92 | one pass of the loop: a row inside the window is added to the maps its scope fills, a row outside changes nothing |
| Summary.AggregateUsage | activitytracker/generate_html_report.py:25-30 | each row is added under its site when it has one and under its app otherwise; the Chrome map gets only `chrome.exe` rows with a site |
| Summary.AggregateRow | activitytracker/generate_html_report.py:25-30 | one pass of the loop turns the two maps for the rows so far into the maps for one row more |
| Summary.UsageTotal | activitytracker/generate_html_report.py:25-27 | the usage map's total equals the total duration of all rows |
| Summary.ScopeSpellings | activitytracker/tracker.py:89-91 | `summarize_activity` knows `all` but not `both`, and `summarize` knows `both` but not `all` |
| PyDict.Put | activitytracker/generate_html_report.py:27 | `d[k] = v` changes only key `k`; a new key goes to the end, an existing key keeps its place |
| PyDict.UpdateGet | activitytracker/gen_report.py:76-77 | after `d.update(e)`, a key of `e` has `e`'s value and every other key keeps its value |
| PyDict.FilterDotted | activitytracker/gen_report.py:73 | exactly the dotted keys are kept, with their values |
| PyDict.AddTotal | activitytracker/gen_report.py:29 | adding to any key raises the sum of all values by that amount |
| PyDict.AddKeys | activitytracker/gen_report.py:29 | after `d[k] += v` the keys are those of `d` and `k` |
| Reports.DurationRoundTrip | activitytracker/gen_report.py:80-83 | the `m:ss` text reads back to the seconds it shows: minutes are `seconds // 60` and the two-digit field is `seconds % 60`, below 60 |
| Reports.SortDesc | activitytracker/gen_report.py:79 | the sorted items are in non-increasing order of seconds and are a permutation of the input |
| Reports.SortDescStable | activitytracker/generate_html_report.py:64 | the sort is stable: items with equal seconds keep their input order |
| Reports.CombinedGet | activitytracker/gen_report.py:70-77 | the merged table holds the apps and the dotted sites, and a dotted site's value replaces an app of the same name |
| Reports.GenerateHtml | activitytracker/gen_report.py:64-86 | the rows written are those of `ReportLines` |
| Reports.ReportRow | activitytracker/gen_report.py:80-83 | one row keyed by the item: its `m:ss` text reads back as exactly the item's seconds; its category is that of a Chrome page when the key is a site name containing `.`, and that of an application otherwise |
| Reports.ReportKeys | activitytracker/gen_report.py:73-79 | there is a row for every app and every dotted site, and for nothing else |
| Reports.ReportTimes | activitytracker/gen_report.py:79-83 | each row shows its key's merged total, and rows appear in non-increasing order of it |
| Reports.ReportCategories | activitytracker/gen_report.py:82 | a dotted site is categorised as a Chrome page, and any other key as an application with no site |
| Reports.UsageTable | activitytracker/generate_html_report.py:64-67 | the rows written are those of `UsageLines` |
| Reports.UsageKeys | activitytracker/generate_html_report.py:64-67 | a key has a row exactly when it is in the usage map |
| Reports.UsageLinesMeaning | activitytracker/generate_html_report.py:64-67 | one row per key of the usage map, each showing its total, in non-increasing order of seconds |
| Reports.ChartSeries | activitytracker/generate_html_report.py:33-36 | the labels and the values have the same length and pair up as the map's items, in key order |

## Left out

- **FTP transport and local file system.** FTP traffic, file contents, `os.makedirs`, `open` and `os.utime` are abstracted:
  - a transfer succeeds or fails nondeterministically;
  - `os.utime` with an `MDTM` time succeeds or raises nondeterministically;
  - local files are a set of paths.
- **Other effects.** SQLite connections and SQL text, `time.sleep`, printing, `datetime.now()` and `strftime` are left out. Times are parameters, and the run's folder stamp is an arbitrary string.
- **Floating point.** `total_size_mb` and the chart values `round(v / 60, 2)` are floating point. The chart series keep integer seconds.
- **Recursion limit.** `Remote.Walk` and `Backup.HostingerBackup.DownloadDirectory` take a `fuel` bound on recursion depth, standing for Python's recursion limit. Anything nested deeper than `fuel` is not walked.
- **Folder creation.** Only the backup folder itself is added to the local paths. Its ancestors, which `makedirs` may also create, are not.
- **Connection failures.** A failed `connect` (before the backup folder exists) is not modelled: the model starts from a connected session.
- **Backup.HostingerBackup.RunBackup:** only the path where the walk raises nothing (the `success` branch) is modelled. Exceptions thrown by the walk itself are caught inside `download_directory` and are modelled there.
- **Backup.HostingerBackup.FetchChild:** the `MDTM` time (UTC by the FTP standard) and the incremental baseline (a local `datetime.now()` of an earlier run) are compared as plain numbers, as the source does. The offset between UTC and the local time zone is not modelled. For a file changed within that offset of the baseline, a real run may decide to fetch or skip it the other way from the model. `Remote.ShouldFetch` and `Remote.Walk` compare the same two times in the same way.
- **Text.Lower:** lower-cases ASCII letters only. Python's Unicode case mapping is not modelled.
- **Session capture.**
  - Window probing through Win32 and `psutil` is a sequence of samples.
  - Each sample's time is the clock reading taken when a change is detected.
  - The session still open when the loop is interrupted is never saved, in the source as in the model.
- **Sessions.SaveSession:** `date` is the day number from the epoch, not its `%Y-%m-%d` text.
- **`main()` functions.** They are command-line parsing and hard-coded settings. This includes the date window gen_report.py's `main` builds and its SQL `BETWEEN` filter.
- **HTML markup and JavaScript.** A report row is its key, its `m:ss` text and (in gen_report.py) its category.
- **Other files.** The YouTube downloader, the Flask server, the dump script and `report.py` are not part of this model.

## Findings

| source | as written | input that shows it | evidently intended | confidence | as-written member | corrected member |
|---|---|---|---|---|---|---|
| hostingerbackup/hostinger_bakup.py:370-372 | the `finally` block calls `disconnect()`, which closes the database, before `_update_backup_record`; the update's error is caught and printed, so every run's row stays `running` | any run, for example two `auto` runs on an empty history: both are full | the record is updated while the database is open, so a successful full run enables incremental runs for the following week | not executed | Backup.HostingerBackup.RunBackup, Backup.AsWrittenRunsAlwaysFull | Backup.HostingerBackup.RunBackupFixed, Backup.FixedFullRunEnablesIncremental |

**Other observations.**
- **Fresh folder.** Every run writes into a new timestamped folder, so in an incremental run the local copy never exists. The run therefore fetches every file, as `Remote.IncrementalIntoFreshFolderIsFull` shows. This is recorded here and modelled as written.
- **Week boundary.** A last full run exactly seven days old does not trigger a full run: the code compares with a strict `>`. The model follows the code (`Decision.WeekBoundary`).
