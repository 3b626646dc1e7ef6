# SunnyD CommsHub reconciliation core, in Dafny

The gateway scripts receive a stream of observation records from an OpenLog
Artemis (OLA) sensor logger over a serial link. They post each record to a
remote database and keep that database complete. A record is one comma-separated line:

- date and time;
- the numeric fields;
- a sequence number;
- the line ending.

When a sequence number is skipped, the live loop switches to the device's
ZModem menu. It downloads the device's data files and then replays them into
the database. When a database write fails, it later catches up from the daily
files it appended every accepted record to.

This project models that reconciliation logic and proves what it guarantees:

- `dataHandler.py`: the record parser, `check_sequential`, the directory
  listing and its trust rule, the download decisions of
  `download_data_files`, both catch-up replays, and the flag machine of
  `main`.
- `downloadFiles.py`: the range-built file list, the retrying transfer loop
  with its resumable `startFile` counter, the three-try `exit_zmodem`, and
  its flag loop.
- `update_db_from_data_files_with_timedelta.py`: the shifted-timestamp replay
  and the two-try `write_database`.
- `update_db_from_data_files.py`: the older ten-token parser and its
  window replay.

Some results come from outside the scripts. These are the serial device's
answers, the transfer program's exit status, the database's replies, the
library conversions (`strptime`, `float`, `int`) and the clock. They are
parameters of the model, mostly functions from an attempt index to an outcome
(an oracle). Time stamps are integers in microseconds.

Modules, one per file:

| module | file | models |
|---|---|---|
| `Wrappers`, `Strings` | strings.dfy | `Option`; Python's `str.split`, `split()`, `<` on strings, ASCII filtering |
| `Sorting` | sorting.dfy | `sorted(key=...)` and `list.sort()` as stable insertion sorts |
| `Codec` | codec.dfy | `OLAdata`, `parseData` in both layouts, `check_sequential` |
| `Listing` | listing.dfy | `get_OLA_file_list` parsing, the five-retry trust loop |
| `Replay` | replay.dfy | the data-file replay in its three variants, the retrying write |
| `LoggedReplay` | loggedreplay.dfy | `update_db_from_logged_files` |
| `Reconcile` | reconcile.dfy | `download_data_files` of dataHandler.py |
| `LiveLoop` | liveloop.dfy | the `while True` loop of dataHandler.py's `main` (class `DataHandlerLoop`) |
| `RangeDownload` | rangedownload.dfy | downloadFiles.py (class `Downloader` for the global `startFile` and `main`'s flags) |

Behaviour of the code worth knowing, which the model follows:

- At start-up `want_file_download` is already True. Its first download
  returns the empty record (number -999) whenever the download fails early.
  The first parsed line then counts as a gap unless its number is -998. The
  first observation is not given the benefit of the doubt.
  See `LiveLoop.StartupDownloads`.
- The restart check compares the FIRST pending name in listing (time) order
  with the LAST local file in modification-time order. It does not compare
  the smallest pending name with the largest local name.
- The upper-bound filter drops names above the last pending name, not names
  above the listing's maximum. It runs whether or not the local files were
  archived, and the pending list is not recomputed after archiving.
- The catch-up from the downloaded files runs inside `download_data_files`,
  and only when every `sz` request went out.
- Every call of a replay starts from a fresh anchor, not from where the
  previous call ended. dataHandler.py:287-291 takes the database's latest
  time minus a fixed five hours, or now minus one day when not logging.
  update_db_from_data_files_with_timedelta.py:140 takes today minus 365
  days, so a second run posts the whole window again.
  update_db_from_data_files.py:112 takes today minus a day and a half. A
  record is posted again whenever the anchor falls below it; see
  `Replay.ReanchoredReplayIdle`.
- A sequential record is appended to the daily file before the catch-up runs
  (dataHandler.py:613-617). A catch-up that returns True has written the last
  line it read, which is that record whenever today's file is the last daily
  file (`LoggedReplay.LastLineDecides`). Line 619 then posts the record a
  second time (`LiveLoop.DatabaseFlag`).
- `mv *.*` moves every name that has a dot and does not start with one, not
  only the downloaded data files.

## Model

| member | source | states |
|---|---|---|
| Codec.NewOlaData | dataHandler.py:56-109 | a record's text is either the whole line or empty, and a record that parsed always has its time assigned |
| Codec.ParsedIff | dataHandler.py:90-109 | a line parses iff it is non-empty, splits into exactly the layout's token count, and every conversion succeeds; a parsed record keeps the line and takes its number and time from the right tokens |
| Codec.UnparsedHasSentinel | dataHandler.py:57-109 | a record that fails to parse has text "" and sequence number -999, whichever conversion failed |
| Codec.TimeAssignedIff | dataHandler.py:92-96 | `obsDateTime` is assigned iff the token count is right and the time converts, even when a later field fails |
| Codec.LineEndingIgnored | dataHandler.py:226-228 | two lines that differ only after their last comma (such as "\r\n" appended by the live loop and the "\n" a text-mode read gives back) either both parse or both fail, with the same number and time; only the kept text differs |
| Codec.LayoutsExclusive | update_db_from_data_files.py:41-59 | no line parses under both the ten-token and the eleven-token layout |
| Codec.IsSequential | dataHandler.py:112-117 | specification predicate for `check_sequential`: the new number is the previous one plus one (no contract of its own) |
| Codec.SequentialAfterSentinel | dataHandler.py:113-118 | after the empty record only number -998 is sequential; an unparsed record follows only a record numbered -1000 |
| Strings.Split | dataHandler.py:91 | `split(',')` yields one more token than there are commas, none containing a comma |
| Strings.JoinSplit | dataHandler.py:91 | joining the tokens of `split` with the separator gives back the line |
| Strings.SplitJoin | dataHandler.py:91 | splitting a join of comma-free parts gives back the parts |
| Strings.Words | dataHandler.py:468 | `split()` yields non-empty words without white space |
| Strings.WordsSpace | dataHandler.py:468 | a leading white-space character contributes no word |
| Strings.WordsWord | dataHandler.py:468 | a maximal run of non-space characters is exactly the next word, so the words are the line's runs of non-space characters, in order |
| Strings.LessTrichotomy | dataHandler.py:409 | Python's string order is total and asymmetric |
| Strings.LessTransitive | dataHandler.py:421 | Python's string order is transitive |
| Strings.Ascii | dataHandler.py:592-593 | `encode("ascii", "ignore")` keeps only characters below 128 and never lengthens the line |
| Strings.AsciiChar | dataHandler.py:592-593 | one character is kept iff it is below 128 |
| Strings.AsciiAppend | dataHandler.py:592-593 | the filter works character by character: filtering a concatenation concatenates the filtered parts, so it keeps exactly the characters below 128, in order |
| Strings.AsciiOfAscii | dataHandler.py:592-593 | the ASCII filter leaves an ASCII line unchanged |
| Sorting.SortByKey | dataHandler.py:471 | `sorted(key=...)` returns a permutation ordered by key |
| Sorting.SortByName | dataHandler.py:298 | `flist.sort()` returns a permutation in ascending name order |
| Listing.Upsert | dataHandler.py:469-470 | `dict.update` puts the new entry in and keeps keys unique |
| Listing.UpsertMembers | dataHandler.py:470 | after `update`, an entry is present iff it is the new one or an old one under another name, so no other key is lost |
| Listing.UpsertNames | dataHandler.py:470 | `update` keeps the key order, appending only a key not yet present |
| Listing.ParseListingLine | dataHandler.py:465-470 | specification function: a line without `dataLog` is skipped; one with fewer than four words, a bad time or a bad size raises; otherwise word 3 is the name, word 2 the size, words 0 and 1 the time (properties in `CollectFailsIff`, `CollectLastWins`) |
| Listing.AsMapOfUnique | dataHandler.py:377 | the dictionary seen as a map sends each name to its size, and has no other names |
| Listing.Collect | dataHandler.py:465-470 | the collected dictionary has unique names |
| Listing.CollectFailsIff | dataHandler.py:464-474 | parsing the listing raises iff some `dataLog` line lacks four words or has a bad time or size |
| Listing.CollectLastWins | dataHandler.py:469-470 | an entry is in the dictionary iff some line gives it and no later line names the same file |
| Listing.FileList | dataHandler.py:451-476 | specification function for `get_OLA_file_list`: the collected dictionary sorted by time, or the raise (properties in `FileListSpec`) |
| Listing.FileListSpec | dataHandler.py:451-476 | the returned listing is ordered by time, has unique names, and holds exactly the last entry of each file |
| Listing.SortKeepsUniqueNames | dataHandler.py:471 | sorting by time keeps names unique |
| Listing.GetOlaFileList | dataHandler.py:463-476 | the loop over the reply's lines returns the listing specified by `FileList` |
| Listing.TrustFrom | dataHandler.py:375-380 | specification function for the `for i in range(5)` loop from fetch `i` (properties in `TrustedStableIff`, `TrustedUnstableIff`) |
| Listing.TrustedListing | dataHandler.py:373-381 | specification function for the whole fetch-and-compare block, with the raise as `FetchRaised` |
| Listing.TrustedStableIff | dataHandler.py:374-381 | a listing is trusted iff some fetch `k < 5` is the first to agree (as a dictionary) with the next one, and it is that fetch |
| Listing.TrustedUnstableIff | dataHandler.py:375-380 | the cycle is abandoned as unstable iff all six fetches return and no two consecutive ones agree |
| Listing.AtMostSixFetches | dataHandler.py:374-381 | the trust decision depends on the first six fetches only |
| Listing.FetchStableListing | dataHandler.py:374-381 | the fetch loop returns the trusted listing after 1 to 6 fetches, all 6 when unstable |
| Reconcile.ByMtime | dataHandler.py:395 | the local files ordered by modification time, all of them and only them |
| Reconcile.Lookup | dataHandler.py:402 | `ola_fdict.get(fn)` is present iff the name is a key, and then is that key's size |
| Reconcile.Pop | dataHandler.py:403 | `pop(fn, None)` removes exactly the entries named `fn` and keeps names unique |
| Reconcile.Pending | dataHandler.py:399-403 | the pending entries are exactly the listing's entries without a local file of the same name and size |
| Reconcile.PendingNoLocal | dataHandler.py:399-403 | with no local files nothing is removed |
| Reconcile.RemoveLocalMatches | dataHandler.py:399-403 | the pop loop over the local files leaves exactly the pending entries |
| Reconcile.ResetCheckAsWritten | dataHandler.py:409 | specification function for the restart check as written, raising on an empty pending list when there are local files (properties in `IndexErrorIff`, `ResetCheckGuarded`) |
| Reconcile.IndexErrorIff | dataHandler.py:409 | the restart check as written raises iff there are local files and every listed file matches one of them |
| Reconcile.IndexErrorExample | dataHandler.py:409 | one listed file already held at the same size makes the check as written raise |
| Reconcile.ResetCheckGuarded | dataHandler.py:409 | the guarded check never raises, archives iff there are local and pending files and the first pending name sorts before the newest local name, and agrees with the check as written whenever something is pending |
| Reconcile.ResetScenarios | dataHandler.py:405-409 | a first pending name below the newest local name archives; one not below any local name does not |
| Reconcile.Archive | dataHandler.py:411-414 | `mv *.*` leaves exactly the local files whose name has no dot or starts with one |
| Reconcile.ArchiveClearsDataFiles | dataHandler.py:414 | after archiving no `dataLog?????.TXT` file is left |
| Reconcile.NotAbove | dataHandler.py:419-422 | the filter keeps exactly the entries whose name is not above the bound |
| Reconcile.UpperBound | dataHandler.py:419-422 | specification function: the pending entries not above the last pending name (properties in `UpperBoundSpec`) |
| Reconcile.UpperBoundSpec | dataHandler.py:416-422 | the last pending entry survives the filter, every survivor is pending and not above it, and every pending entry not above it survives |
| Reconcile.DropAboveLast | dataHandler.py:419-422 | the pop loop over a copy of the keys leaves exactly the filtered entries |
| Reconcile.Requested | dataHandler.py:425-431 | the files requested are a prefix of the list in order, ending at the first `sendline` that raises |
| Reconcile.SendFiles | dataHandler.py:425-440 | the send loop requests exactly that prefix and reports the exception iff it stopped early, whatever the transfer statuses |
| Reconcile.StableListingUnique | dataHandler.py:374-381 | a trusted listing has unique names |
| Reconcile.CycleAsWritten | dataHandler.py:331-447 | specification function for `download_data_files` as written, ending `CrashedAt409` when line 409 raises (properties in `EarlyExitsReturnEmpty`, `CycleRequests`, `GuardedCycleAgrees`) |
| Reconcile.DownloadCycle | dataHandler.py:331-447 | specification function for the cycle with the guarded restart check, which never crashes |
| Reconcile.GuardedCycleAgrees | dataHandler.py:331-447 | the cycle with the guarded check does what the cycle as written does whenever that one does not raise |
| Reconcile.EarlyExitsReturnEmpty | dataHandler.py:349-390 | every cycle that does not reach the replay returns the empty record; the ZModem menu is left iff the cycle failed at the ZModem prompt, failed a fetch, or replayed; nothing is requested or archived before the listing is trusted |
| Reconcile.CycleRequests | dataHandler.py:395-431 | with a trusted listing, the files requested are the requested prefix of the filtered pending list |
| Reconcile.RequestedArePending | dataHandler.py:419-431 | every requested file is pending and not above the last pending name |
| Reconcile.DiffAndTransfer | dataHandler.py:393-447 | the local diff, the restart check (returning the crash when it raises), the upper bound, the transfers and the replay compute `AfterListing` |
| Reconcile.SendAndReplay | dataHandler.py:419-447 | the upper-bound loop, the send loop and the replay compute `Transfer`: no replay after a send that raised |
| Reconcile.DownloadDataFiles | dataHandler.py:331-447 | the method follows the cycle as written, including the raise at line 409 |
| Replay.Glob | dataHandler.py:297 | the glob returns exactly the directory's files whose name matches |
| Replay.ReplayOrder | dataHandler.py:297-298 | the replay reads exactly the `dataLog?????.TXT` files, in ascending name order |
| Replay.BoundedRetry | update_db_from_data_files_with_timedelta.py:107-125 | at most `n` POSTs, stopping at the first success; success iff some allowed POST succeeds, and every POST before the last failed |
| Replay.WriteDatabase | update_db_from_data_files_with_timedelta.py:87-126 | the `numTries` loop makes exactly the POSTs `BoundedRetry` specifies; `used` counts them all, the successful one included |
| Replay.Write | dataHandler.py:308 | specification function: no POST when not logging, otherwise `BoundedRetry` with the policy's number of tries |
| Replay.Step | dataHandler.py:305-320 | specification function for one line: skipped if unparsed or not above the threshold plus margin; published and made the threshold when the write succeeds; the replay stops when it fails (properties in `StepPublishesOwnLine`, `StepConsistent`, `StepCovers`) |
| Replay.Run | dataHandler.py:299-321 | specification function: `Step` over the lines in order (properties in `RunPublishesLines`, `RunGrows`, `RunConsistent`, `PublishedIncreasing`, `RunCovers`) |
| Replay.Shifted | dataHandler.py:306-311 | specification function: the record a parsed line publishes, its own record with the time moved by the policy's shift (no contract of its own) |
| Replay.StepPublishesOwnLine | dataHandler.py:305-311 | one line publishes nothing, or exactly its own record with the shift applied |
| Replay.RunPublishesLines | dataHandler.py:299-321 | the records a replay publishes are its parsed lines' own shifted records, taken from strictly increasing line positions, so in line order and each line at most once |
| Replay.RunPublishedRecord | dataHandler.py:305-311 | each published record is the shifted record of one of the parsed lines replayed |
| Replay.RunStopped | dataHandler.py:314-318 | once a write has failed, nothing further happens |
| Replay.StopAbsorbs | update_db_from_data_files.py:133-137 | after a failed write, the rest of the files changes nothing |
| Replay.RunGrows | dataHandler.py:299-321 | the replay only adds records, only adds POSTs, and never resumes once stopped |
| Replay.PrefixMonotone | dataHandler.py:299-321 | replaying more lines publishes an extension of what fewer lines published |
| Replay.StepConsistent | dataHandler.py:306-320 | one line keeps the threshold at the last published time and `prevData` at the last published record |
| Replay.RunConsistent | dataHandler.py:299-321 | from the anchor, the replay's variables always describe what it published |
| Replay.PublishedIncreasing | dataHandler.py:305-311 | published times climb by more than the margin each and start above anchor plus margin; the returned record is the last one published, or the empty record |
| Replay.RunCovers | dataHandler.py:306-311 | after an uninterrupted replay, every parsed line is at or below the threshold plus margin |
| Replay.CoveredRunIsIdle | dataHandler.py:307 | lines all at or below the threshold publish nothing and post nothing |
| Replay.ReplayIdempotent | dataHandler.py:299-321 | replaying the same lines again from the threshold where an uninterrupted replay ended publishes nothing and posts nothing |
| Replay.ReanchoredReplayIdle | dataHandler.py:287-321 | a new call anchored at or above the threshold where an uninterrupted replay of the same lines ended publishes nothing and posts nothing, so only an anchor below it can post a record twice |
| Replay.ParsedOnly | dataHandler.py:306 | a line is kept iff it is one of the lines and parses under the replay's layout |
| Replay.ParsedOnlyAppend | dataHandler.py:304-306 | the filter works line by line: filtering a concatenation concatenates the filtered parts, so the parsed lines stay in file order |
| Replay.RunIgnoresUnparsed | dataHandler.py:306 | lines that fail to parse do not affect the replay |
| Replay.ReplayLine | dataHandler.py:305-320 | the inner-loop body computes one step of the replay |
| Replay.ReplayFile | dataHandler.py:303-321 | the loop over one file's lines computes the replay of that file |
| Replay.ReplayFiles | dataHandler.py:297-327 | the nested loops return the replay's `prevData` and published records |
| Replay.DataHandlerAnchor | dataHandler.py:277-293 | specification function: the latest database time minus five hours, now minus a day when not logging, or nothing when the query fails |
| Replay.DataHandlerUpdateDbFromDataFiles | dataHandler.py:256-327 | the empty record when the database query fails; otherwise the replay from the latest database time minus five hours (or now minus a day when not logging), with a one-second margin and a single POST per write; the records sent are the files' own records in reading order |
| Replay.ReplayDirPublishesLines | dataHandler.py:297-321 | the database receives the `dataLog?????.TXT` files' own records, shifted, in the order the files and their lines are read, each line at most once |
| Replay.TimeShiftUpdateDbFromDataFiles | update_db_from_data_files_with_timedelta.py:131-178 | the replay from now minus 365 days, no margin, two POSTs per write; every record sent is a line's own record with its time shifted by `TD`, in reading order |
| Replay.WindowUpdateDbFromDataFiles | update_db_from_data_files.py:103-146 | the ten-token replay from now minus 36 hours, no margin, one POST per write; the records sent are the files' own records in reading order |
| LoggedReplay.DailyOrder | dataHandler.py:213-214 | the daily files read are exactly the `20??????.txt` files of the directory, in ascending name order |
| LoggedReplay.DayOfName | dataHandler.py:216-221 | specification function: the name without its four-character extension as an integer, None where `int` raises |
| LoggedReplay.FileStep | dataHandler.py:216-246 | specification function for one daily file: skipped when its name is not a number or its day is before the threshold's day (properties in `FilesTracks`, `FilesNoCrash`) |
| LoggedReplay.LineStep | dataHandler.py:227-245 | specification function for one line: a missing time raises; a record after the threshold plus a second with the next number is written; a failed write returns False (properties in `LineStepTracks`, `LastLineDecides`) |
| LoggedReplay.LineStepTracks | dataHandler.py:227-245 | one line keeps the written numbers consecutive from the database's latest, the times more than a second apart, and the variables at the last record written |
| LoggedReplay.LinesTracks | dataHandler.py:227-246 | one file keeps the same invariant |
| LoggedReplay.FilesTracks | dataHandler.py:215-246 | the loop over the daily files keeps the same invariant |
| LoggedReplay.CatchUpSpec | dataHandler.py:182-252 | specification function for the whole catch-up: False on a failed query, `Raised` when a line's time is missing, otherwise the final `success` (properties in `CatchUpConsecutive`, `CatchUpReturnsOnTimedFiles`) |
| LoggedReplay.CatchUpConsecutive | dataHandler.py:182-252 | the records written are numbered consecutively from the database's latest number, with times more than a second apart and above its time minus five hours; success implies at least one was written |
| LoggedReplay.LastLineDecides | dataHandler.py:229-245 | `success` is True iff the last line examined was written, and a line writes at most its own record |
| LoggedReplay.UntimedLineRaises | dataHandler.py:228-229 | a line with the wrong number of tokens raises when its time is read |
| LoggedReplay.LinesNoCrash | dataHandler.py:228-229 | a file whose lines all carry a time never raises |
| LoggedReplay.FilesNoCrash | dataHandler.py:215-229 | daily files whose lines all carry a time never raise |
| LoggedReplay.CatchUpReturnsOnTimedFiles | dataHandler.py:196-252 | when every daily file's lines carry a time, the catch-up returns instead of raising |
| LoggedReplay.CatchUpFile | dataHandler.py:226-246 | the loop over one file computes the specified replay of it |
| LoggedReplay.CatchUpFiles | dataHandler.py:215-246 | the loop over the files computes the specified replay of them |
| LoggedReplay.UpdateDbFromLoggedFiles | dataHandler.py:182-252 | the method returns the specified catch-up result |
| LiveLoop.Next | dataHandler.py:580-619 | specification function for one pass (properties in `NextKeepsInv`, `DownloadComesFirst`, `LineHandling`, `DatabaseFlag`) |
| LiveLoop.Record | dataHandler.py:612-619 | specification function for a sequential record: append, catch up when out of sync, write when in sync (properties in `DatabaseFlag`) |
| LiveLoop.InitInv | dataHandler.py:531-537 | the initial flags satisfy the loop invariant; a download is wanted and the database is in sync |
| LiveLoop.NextKeepsInv | dataHandler.py:596-611 | every pass keeps the invariant: a record about to become `prevData` parsed and follows `prevData` |
| LiveLoop.DownloadComesFirst | dataHandler.py:580-590 | with a download wanted, bytes waiting start the download and nothing else; the flag clears, `keepPrevData` is set, and `prevData` is what the download returned |
| LiveLoop.EmptyLineSkipped | dataHandler.py:591-595 | a line empty after ASCII filtering changes nothing |
| LiveLoop.LineHandling | dataHandler.py:596-612 | a failed parse or a gap keeps `prevData` and does nothing; a gap also wants a download; a sequential record is appended first and becomes the record to compare against; a download is wanted iff the record was not appended |
| LiveLoop.DatabaseFlag | dataHandler.py:612-619 | for a sequential record, the catch-up runs iff out of sync; the write runs iff in sync or the catch-up succeeded; the new flag is the write's failure, or stays set |
| LiveLoop.CandidateTracks | dataHandler.py:596-611 | the record the next line is compared against is the download's result, the record just appended, or unchanged |
| LiveLoop.ConsecutiveStream | dataHandler.py:596-619 | a run of consecutively numbered lines is appended in order, one record per line, with no download |
| LiveLoop.GapTriggersDownload | dataHandler.py:580-611 | a gap does nothing at once, and the next pass with bytes waiting downloads |
| LiveLoop.StartupDownloads | dataHandler.py:531-609 | the first pass downloads; after a download that returned the empty record, the next parsed line wants another download iff its number is not -998 |
| LiveLoop.DataHandlerLoop.constructor | dataHandler.py:531-537 | the loop's variables start at the initial flags with nothing done |
| LiveLoop.DataHandlerLoop.Pass | dataHandler.py:580-619 | one pass, with the source's two separate `check_sequential` tests, updates the variables and the action log as `Next` specifies |
| LiveLoop.DataHandlerLoop.StoreRecord | dataHandler.py:613-619 | a sequential record is appended locally, the catch-up runs only when the database is out of sync, and the direct write runs only once it is back in sync; the out-of-sync flag becomes "the write failed" |
| RangeDownload.DecimalString | downloadFiles.py:202 | `str(i)` is a non-empty digit string |
| RangeDownload.DecimalRoundTrip | downloadFiles.py:202 | `str(i)` read back as a number is `i` |
| RangeDownload.ZFill | downloadFiles.py:202 | `zfill(5)` pads to width 5 and never shortens |
| RangeDownload.ZFillValue | downloadFiles.py:202 | zero padding keeps a digit string's value |
| RangeDownload.FieldValue | downloadFiles.py:202 | the padded number field reads back as `i` |
| RangeDownload.Name | downloadFiles.py:202 | specification function for `'dataLog' + str(i).zfill(5) + '.TXT'` (properties in `NameRoundTrip`, `NameInjective`, `NameOrder`) |
| RangeDownload.NameRoundTrip | downloadFiles.py:202 | the number between `dataLog` and `.TXT` in a built name is `i` |
| RangeDownload.NameInjective | downloadFiles.py:201-202 | different numbers give different names |
| RangeDownload.NameMatchesDataLog | downloadFiles.py:202 | for numbers below 100000 the built name matches `dataLog?????.TXT`, so the replay picks it up |
| RangeDownload.DigitsOrder | downloadFiles.py:202 | for digit strings of equal length, string order is numeric order |
| RangeDownload.NameOrder | downloadFiles.py:201-202 | built names below 100000 compare as strings exactly as their numbers do |
| RangeDownload.FileRange | downloadFiles.py:194-204 | the list has `endFile - startFile + 1` names (none when start exceeds end), the k-th being the name of `startFile + k` |
| RangeDownload.FileRangeDistinct | downloadFiles.py:201-202 | the list has no duplicate name |
| RangeDownload.FileRangeResume | downloadFiles.py:174-201 | the list from `startFile + k` is the list from `startFile` without its first k names |
| RangeDownload.Succeeded | downloadFiles.py:166 | specification predicate: `(result >> 8) == 0`, a wait status below 256 |
| RangeDownload.SettleFrom | downloadFiles.py:164-172 | a file's retry loop ends at a round that succeeds or raises, or runs out of observed rounds |
| RangeDownload.SettleFromFirst | downloadFiles.py:164-172 | every round before the one that ends the retry loop failed without raising, so that round is the first that settles |
| RangeDownload.SettleFile | downloadFiles.py:164-172 | the retry loop stops at that round |
| RangeDownload.TransferFrom | downloadFiles.py:157-183 | every file is transferred iff the loop ends normally; an interruption follows a `sendline` that raised; rounds running out leaves the loop still retrying |
| RangeDownload.TransferCounts | downloadFiles.py:165-174 | the files transferred are as many as the rounds that succeeded |
| RangeDownload.ExitZModem | downloadFiles.py:208-225 | `exit_zmodem` makes at most three tries, stopping after the first that sees the main menu |
| RangeDownload.AttemptsStopAt | downloadFiles.py:209-218 | a first success at try t means t + 1 tries |
| RangeDownload.AttemptsNone | downloadFiles.py:209-225 | no success means exactly three tries |
| RangeDownload.RangeCycleSpec | downloadFiles.py:99-186 | specification function for a cycle: the menu and ZModem failures, the transfers from `startFile`, and the `exit_zmodem` tries (properties in `CycleResumes`) |
| RangeDownload.CycleResumes | downloadFiles.py:99-186 | after a cycle `startFile` names the first file not transferred, so the next list is the rest of this one; the menu is left iff the cycle failed at the ZModem prompt or transferred every file |
| RangeDownload.RangeNext | downloadFiles.py:312-339 | specification function for one pass of `main` (properties in `RangeFlagLogic`) |
| RangeDownload.RangeFlagLogic | downloadFiles.py:312-339 | a wanted download runs before any read and clears the flag; `prevData` becomes the empty record; every non-empty line wants a download; `startFile` never decreases and moves only in a download |
| RangeDownload.Downloader.constructor | downloadFiles.py:260-266 | `startFile` is 80, both flags are set, `prevData` is empty |
| RangeDownload.Downloader.TransferFiles | downloadFiles.py:157-183 | the loop follows `TransferAll` and advances `startFile` once per transferred file |
| RangeDownload.Downloader.DownloadDataFiles | downloadFiles.py:99-186 | the cycle returns the empty record, follows `RangeCycleSpec`, and advances `startFile` by the files transferred |
| RangeDownload.Downloader.Pass | downloadFiles.py:312-339 | one pass of `main` updates the flags and `startFile` as `RangeNext` specifies |

## Left out

- ble-autoconnect-Trixie-and-beyond.py is not part of this model: it is the Bluetooth connection manager, built on asyncio concurrency.
- Serial and pexpect I/O are booleans of the device oracle: `get_OLA_menu`'s keystroke loop with its EOF reopen, `expect` and `send`, `read_until` and `reset_input_buffer`.
- The ZMODEM transfer programs are reduced to their results. For dataHandler.py this is only whether `sendline` returned, since the exit status is ignored there. For downloadFiles.py it is the wait status of each `rz` round.
- HTTP is reduced to outcomes: a POST oracle per attempt, and the database's latest time (and sequence number) as an option. JSON decoding, authentication and the payload are not modelled.
- Floating point is not modelled: the pressure calibration, the x10 conversion and the float field values. Only whether each field converts is modelled.
- `strptime`, `int()`, `strftime("%Y%m%d")` and the clock are parameters. `datetime.now()` and `today()` are an input instant.
- The watchdog that calls `exit_zmodem` after `MAX_DATA_DELAY` without data is not modelled, because it depends on the clock. This covers dataHandler.py:623-627 and downloadFiles.py:343-345. Neither are the sleeps, signal handlers, configuration loading, argument handling or printing.
- The catch-up functions' success messages are only printed, so they are not modelled.
- The bytes-to-text decoding (`decode("utf-8", "ignore")`) is not modelled. A received line is a string of characters, and only the ASCII filter after it is modelled.
- Reconcile.DownloadDataFiles: the files on disk after the transfers are an input of the replay. The effect of the transfers and of archiving on the directory is recorded as the requested names and an `archived` flag, not applied to the directory.
- Reconcile.DownloadDataFiles: dataHandler.py's single-try `exit_zmodem` (480-495) is recorded only as whether it was called, because its result is never used.
- Replay.DataHandlerUpdateDbFromDataFiles: the database's latest time is an option. A reply that parses as JSON but has no element 0 or a date in another format raises outside the `try` (dataHandler.py:289). That raise is not modelled, and neither is the same one at line 207.
- LiveLoop.Next: a pass that raises is not an outcome of `Next`. A catch-up that raises ends the script, because dataHandler.py's `main` is not restarted; the pass takes only the catch-up's boolean result, and `LoggedReplay.CatchUpSpec` models the raise itself as its `Raised` outcome. Likewise `download_data_files` can raise outside any `try`, ending the script: the IndexError at dataHandler.py:409 and the raise at dataHandler.py:289 inside the replay it calls at line 444. The pass takes the download's returned record only; `Reconcile.CycleAsWritten` models the line-409 crash as `CrashedAt409`, and the line-289 raise is not modelled (see `Replay.DataHandlerUpdateDbFromDataFiles` above).
- RangeDownload.Downloader.Pass: the restart of downloadFiles.py's `__main__` (downloadFiles.py:350-383) is not modelled. An exception escaping `main` is caught there, and `main` starts over after 60 seconds with its flags at their initial values while the global `startFile` keeps its value. Such exceptions come, for example, from `os.chdir`, `os.listdir` and `os.path.getmtime` at downloadFiles.py:153-154, which are outside any `try` and whose result is not used.
- RangeDownload.TransferFrom: the retry loop has no bound, so it is observed through a finite sequence of rounds. Running out of rounds is the outcome `StillRetrying`, not a loop that never ends.
- Sorting.SortByKey: its contract states order and permutation but not stability. The insertion puts each element before equal keys, which keeps Python's stable order among entries with the same minute or modification time.

## Findings

| source | as written | input that shows it | evidently intended | confidence | as-written member | corrected member |
|---|---|---|---|---|---|---|
| dataHandler.py:409 | `list(ola_fdict.keys())[0]` is read whenever the local directory is non-empty, even when nothing is pending | the device lists `dataLog00001.TXT` (10 bytes), and the same file of the same size is already downloaded: no file is pending, and the check raises IndexError outside any `try`, ending `main` | when nothing is pending there is no restart to detect: skip the check and go on to the (empty) transfer and the replay | high (not executed) | Reconcile.IndexErrorExample | Reconcile.ResetCheckGuarded |
