# ODI data transfer system — a Dafny model of its decision logic

This project models the sequential logic of the ODI data transfer tools.
The tools package an exposure directory, decide which exposures still need
transferring, poll the exposure table and notify the pipeline archive
("PPA") through a message broker. They also repair notification records by
hand and look up exposures for a resend.

The database, the broker, the file system, FITS headers, the clock and the
subprocesses are treated as given inputs or as recorded outputs:

- what a query, a glob listing, a header or the broker returns is a parameter;
- what the code does to the outside world is appended to a sequence the model keeps: commands, reports, marks and database calls.

Python exceptions are modelled as `Result` values (`Common.Exception`):
every error path the model covers is a result, not a precondition. The
preconditions that remain, and the failures that are not modelled at all
(a failing subprocess, mkdir or file open), are listed under "## Left out".

| module | file | models |
|---|---|---|
| `Common` | common.dfy | optional values, exceptions, timestamps (whole seconds), exposure rows |
| `Text` | text.dfy | `str.split`, `str.join`, `str.lower` (ASCII), substring search, SQL `LIKE '%t%'` as containment |
| `PosixPath` | posix_path.dfy | `os.path.split(p)[1]` and `os.path.join` on "/"-separated paths |
| `Dts` | dts.dfy | dts.py: the `DTS` packaging object |
| `TransferQuery` | query_db.dfy | query_db.py: the transfer-eligibility selection |
| `PpaCommunication` | ppa_communication.dfy | ppa_communication.py: the notification message and the `PPA` client |
| `DbWatcher` | db_watcher.dfy | db_watcher.py: the `ExposureWatcher` polling loop |
| `PpaSender` | ppa_sender.dfy | ppa_sender.py: `_PPAsender` delivery bookkeeping and `PPA_Sender` |
| `Maintenance` | hacks_and_fixes.dfy | hacks_and_fixes.py: `fix_old`, `fix_backlog`, `fix_all_pyDTS` |
| `ForceResend` | force_resend.dfy | force_resend.py: OBSID collection, the lookup SQL, the locked lookup |

Where the source mutates an object, the model is a class whose methods
change its fields, and each method says what the new state is. Where the
source loops, the model is a method with a loop, proved in one of two ways:
equal to a recursive specification function (the loops of `make_tar`,
`fix_old`, `fix_backlog`, the batch loop of the watcher and the OBSID
collection), or against a closed form or trace predicates (the watcher's
capped wait, and its polling loop, whose recorded queries are described by
`Replays`, `Timed`, `Paced` and `Spaced`). Properties relating several calls
are lemmas about those functions and predicates.

The code does less than its names suggest, and the model follows the code:
- the transfer command is built and printed but never run (dts.py:79-91);
- `register_transfer_complete` only prints (dts.py:93-95);
- the protocol test always picks secure copy (dts.py:81).

## Model

| member | source | states |
|---|---|---|
| Text.FindFrom | hacks_and_fixes.py:66 | the search returns the first index at or after the start where the text occurs, or none when there is no such index |
| Text.IndexOf | hacks_and_fixes.py:66 | a first occurrence exists exactly when the text contains the separator, and it is the leftmost one |
| Text.JoinWith | force_resend.py:50 | `sep.join(parts)`: the parts with the separator between neighbours, "" for none |
| Text.Pieces | ppa_sender.py:293 | a split always has at least one piece |
| Text.Lower | ppa_sender.py:293 | the result has the same length and no upper-case ASCII letter; each upper-case letter becomes its lower-case partner, and every other character is kept |
| Text.LowerIdempotent | ppa_sender.py:293 | lower-casing twice is lower-casing once |
| Text.JoinPieces | hacks_and_fixes.py:66 | joining the pieces of `s.split(sep)` with `sep` gives `s` back |
| Text.PiecesAvoidSeparator | hacks_and_fixes.py:66 | no piece of a split contains the separator |
| Text.PiecesMoreThanOne | ppa_sender.py:293 | a split has a second piece exactly when the separator occurs, so indexing `[1]` raises exactly when it does not |
| Text.PiecesAtFirst | hacks_and_fixes.py:66 | when no occurrence starts inside `a`, splitting `a + sep + b` gives `a` and then the pieces of `b` |
| Text.ContainsIgnoresTail | query_db.py:33 | whether `p + q` contains `t` depends on `p` alone when `q` lacks `t`'s last character |
| Text.JoinContainsParts | force_resend.py:50 | every joined part occurs in the joined text |
| Text.JoinAppend | force_resend.py:50 | joining one more part adds the separator and that part |
| PosixPath.Basename | dts.py:25 | the tail of `os.path.split`: everything after the last "/" |
| PosixPath.Join | dts.py:28 | `os.path.join` of two parts: an absolute second part replaces the first, otherwise a "/" is inserted unless the first is empty or ends in one |
| PosixPath.BasenameIsLastComponent | dts.py:25 | the split tail has no "/", is a suffix of the path, and is preceded by "/" unless it is the whole path |
| PosixPath.JoinShape | dts.py:28 | a join ends with its second part and, when that is relative, starts with its first |
| PosixPath.BasenameOfJoin | dts.py:74 | a "/"-free name joined onto a directory is inside it and is the tail of the result |
| Dts.StripTrailingSlash | dts.py:20-21 | exactly one trailing "/" is dropped, and only when there is one |
| Dts.TransferCommand | dts.py:79-86 | the command is always "scp <tar> <remote>", whatever the protocol; the rsync branch and the error are unreachable |
| Dts.FpackCommand | dts.py:72-74 | the fpack command line for one file, writing `<basename>.fz` into the staging directory |
| Dts.FpackEffects | dts.py:56-57 | one fpack command per listed file, in listing order |
| Dts.TarCommand | dts.py:60-61 | the tar command line that archives the directory name inside the scratch directory into the tar file |
| Dts.DTS.constructor | dts.py:11-37 | with the defaults no scratch directory and "rsync": the stripped directory, the "/tmp" default, the staging directory and tar names, the fixed remote target, no checksum yet, and a mkdir only when the staging directory is missing |
| Dts.DTS.Fpack | dts.py:71-77 | one "fpack -S <src> > <staging>/<basename>.fz" command is issued |
| Dts.DTS.MakeTar | dts.py:47-69 | fpack of every FITS file in glob order, then the tar command, then the checksum of the tar file |
| Dts.DTS.TransferToArchive | dts.py:79-91 | the scp command is announced, never executed, and nothing is returned |
| Dts.DTS.RegisterTransferComplete | dts.py:93-95 | only the completion mark is recorded |
| Dts.DTS.Archive | dts.py:42-45 | make_tar, then transfer, then register, in that order, with the checksum set |
| Dts.Open | dts.py:11-40 | with the defaults no scratch directory, "rsync" and auto start, a non-directory raises ValueError before any object exists; otherwise the derived names, and with auto start the whole archive sequence |
| Dts.FpackEveryFile | dts.py:56-57 | exactly one fpack command per FITS file, at that file's position |
| Dts.DirNameIsLastComponent | dts.py:20-25 | the directory name is the last "/"-free component of the stripped directory |
| Dts.FpackWritesIntoStaging | dts.py:72-74 | the fpack output lies in the staging directory under the source's base name plus ".fz" |
| Dts.TarBallOfStagingDirectory | dts.py:28-33 | the tar file is the staging directory plus ".tar", and the staging directory's last component is the directory name |
| TransferQuery.Completed | query_db.py:29-34 | an exposure id is in the sub-select: one of its events contains ":: 0" |
| TransferQuery.SelectForTransfer | query_db.py:26-35 | an exposure is selected iff none of its events contains ":: 0"; every copy of an eligible row is kept and no row is duplicated or invented |
| TransferQuery.NoEventsSelected | query_db.py:29-34 | an exposure without events is selected |
| TransferQuery.CompletedAfterEvent | query_db.py:29-34 | one more event completes an exposure iff it is that exposure's and contains the marker |
| TransferQuery.OtherEventsIrrelevant | query_db.py:29-34 | events of other exposures never change whether an exposure is selected |
| TransferQuery.FailureEventKeepsEligible | query_db.py:33 | an event ending ":: -1" does not exclude its exposure when the text before the code lacks the marker |
| TransferQuery.SuccessEventExcludes | query_db.py:33 | an event containing ":: 0" anywhere excludes its exposure for good |
| TransferQuery.MarkerMatchesAsSubstring | query_db.py:33 | ":: 05" also contains the marker |
| PpaCommunication.ReportMessage | ppa_communication.py:88-102 | fixed source "instrument" and destination "ppa", the given id and type, the current time and "" as defaults |
| PpaCommunication.MessageRoundTrip | ppa_communication.py:95-102 | a message of this client is rebuilt exactly from the report it carries |
| PpaCommunication.ReportRoundTrip | ppa_communication.py:90-102 | building a message loses nothing but the defaults it fills in |
| PpaCommunication.PPA.constructor | ppa_communication.py:37 | no connection, and the channel attribute is not yet assigned |
| PpaCommunication.PPA.Connect | ppa_communication.py:46-62 | a connection is made only when none is held; the result is true iff connection and channel are held; a refused connection raises AttributeError |
| PpaCommunication.PPA.Close | ppa_communication.py:107-115 | clears channel and connection; raises AttributeError when the channel was never assigned; a second close changes nothing |
| PpaCommunication.PPA.SendMessage | ppa_communication.py:67-83 | publishes once to the target queue, returns the publish result unchanged, and leaves nothing held; a refused connection raises AttributeError with the client unchanged |
| PpaCommunication.PPA.ReportExposure | ppa_communication.py:88-104 | sends the report's message to "instrument.ralftest"; a refused connection raises AttributeError with the client unchanged |
| DbWatcher.CreateReport | db_watcher.py:89-93 | the "create" report of one row, with the row's exposure name and createtime |
| DbWatcher.CreateReports | db_watcher.py:84-94 | as many reports as rows |
| DbWatcher.CreateReportsEach | db_watcher.py:84-94 | one "create" report per returned row, in batch order, with the row's createtime and name |
| DbWatcher.HighWater | db_watcher.py:84-87 | the watermark after a batch is at least the previous one |
| DbWatcher.HighWaterIsMaximum | db_watcher.py:84-87 | the watermark after a batch is the maximum of the previous one and all ids of the batch |
| DbWatcher.HighWaterAppend | db_watcher.py:79-87 | scanning two batches in turn is scanning their concatenation |
| DbWatcher.CreateReportsAppend | db_watcher.py:79-94 | the reports of two batches in turn are the reports of their concatenation |
| DbWatcher.HighWaterMonotone | db_watcher.py:86-87 | a larger starting watermark never gives a smaller one |
| DbWatcher.ExposureWatcher.constructor | db_watcher.py:42-69 | the watermark is the given last exposure (0 by default), shutdown is false, and no query, sleep or report has happened |
| DbWatcher.ExposureWatcher.Observe | db_watcher.py:79 | the shutdown flag, once set, stays set, and it is set from tick `stopTick` on |
| DbWatcher.ExposureWatcher.ProcessBatch | db_watcher.py:84-94 | the watermark becomes the maximum, and every row is reported, including rows at or below the watermark |
| DbWatcher.ExposureWatcher.Wait | db_watcher.py:101-104 | at most 100 sleeps, none once shutdown is set, and exactly up to the tick where it is set |
| DbWatcher.ExposureWatcher.Poll | db_watcher.py:81-104 | one query with the current sleep count and watermark is recorded with the rows it returned, its batch is processed, then the wait leaves the sleep count one full wait later, or at `stopTick` when that comes first |
| DbWatcher.ExposureWatcher.Run | db_watcher.py:76-104 | stops exactly when shutdown is seen; every recorded query returned what the database gives for its sleep count and watermark, and its watermark is the one left by all rows returned before it; a run started before `stopTick` queries at least once, first at its starting sleep count, then every 100 sleeps, the last within one wait of `stopTick`; the final watermark and the reports are those of all returned rows |
| DbWatcher.WatermarksRise | db_watcher.py:79-87 | in such a record the first query gets the starting watermark and later queries never get a smaller one |
| DbWatcher.AfterWait | db_watcher.py:101-104 | one wait started before `stopTick` moves the sleep count forward by 100, or by less only when `stopTick` is reached |
| PpaSender.RemoveFirst | ppa_sender.py:301 | removal never lengthens the pending list |
| PpaSender.RemoveFirstRemovesOne | ppa_sender.py:301 | removing a pending tag drops exactly one copy of it |
| PpaSender.RemoveFirstKeepsOrder | ppa_sender.py:301 | removal keeps the pending tags strictly increasing and adds none |
| PpaSender.ConfirmationType | ppa_sender.py:293 | the only exception the classification raises is IndexError |
| PpaSender.ConfirmationTypeOf | ppa_sender.py:293 | a name without "." raises; otherwise the type is the lower-cased text between the first "." and the next |
| PpaSender.ConfirmationTypeOfKind | ppa_sender.py:293 | a two-part name has its lower-cased second part as its type |
| PpaSender.ConfirmationFrames | ppa_sender.py:293-300 | "Basic.Ack" is an ack and "Basic.Nack" a nack |
| PpaSender.PPASender.constructor | ppa_sender.py:66-74 | no pending tags, zero counters, no connection or channel, neither stopping nor closing |
| PpaSender.PPASender.Run | ppa_sender.py:363-368 | a connection is made |
| PpaSender.PPASender.OnChannelOpen | ppa_sender.py:158-168 | the channel is held |
| PpaSender.PPASender.Reconnect | ppa_sender.py:129-146 | pending tags and all three counters reset first; without a connection it raises AttributeError |
| PpaSender.PPASender.PublishMessage | ppa_sender.py:319-351 | nothing changes and the result is None while stopping; otherwise reconnect if there is no channel, publish, and append tag message_number + 1; a failed reconnect raises after the reset, with nothing published; the counting invariant is kept |
| PpaSender.PPASender.OnDeliveryConfirmation | ppa_sender.py:280-305 | "ack" adds to acked and "nack" to nacked, the tag is removed, a tag that is not pending raises ValueError after counting; with an ack or nack of a pending tag the counting invariant is kept |
| PpaSender.PPASender.OnConnectionClosed | ppa_sender.py:111-127 | the channel is cleared; a deliberate close stops the loop, any other schedules a reconnect in 5 s |
| PpaSender.PPASender.CloseConnection | ppa_sender.py:386-390 | closing is set, and without a connection the close raises |
| PpaSender.PPASender.Stop | ppa_sender.py:370-384 | stopping and closing are set, and the close arriving then stops the loop and clears the channel |
| PpaSender.Sender.constructor | ppa_sender.py:394-400 | a fresh publisher: no connection or channel, no pending tags, zero counters, neither stopping nor closing, nothing published |
| PpaSender.Sender.SendMessage | ppa_sender.py:412-414 | true whatever the broker answered; only an exception from the publish reaches the caller; through `publish_message` the publisher's tag and counter bookkeeping is the same as there, with nothing changed while stopping |
| PpaSender.Sender.ReportExposure | ppa_sender.py:416-432 | the direct client's message is published, and the answer is true unless the publish raised; the bookkeeping, the error value and the stopping case are those of `send_message` |
| Maintenance.Older | hacks_and_fixes.py:31-32 | the exposures created before the cutoff, in table order |
| Maintenance.OlderSelects | hacks_and_fixes.py:31-32 | exactly the exposures created strictly before the cutoff |
| Maintenance.OldMarks | hacks_and_fixes.py:31-38 | one mark per old exposure |
| Maintenance.FixOld | hacks_and_fixes.py:25-40 | one mark per old exposure, in order, with the fixed text and dryrun = verbose, then exit 0 |
| Maintenance.FixOldMarksExactly | hacks_and_fixes.py:26-38 | every old exposure is marked, and every mark is the fixed one for an old exposure |
| Maintenance.TransferText | hacks_and_fixes.py:66 | the extraction fails exactly when the event has no "transfer(" |
| Maintenance.TransferTextOf | hacks_and_fixes.py:66 | for an event `<p>transfer(<t>s<rest>` whose first "transfer(" follows `<p>`, with `<t>` made of digits and points, the extracted text is `<t>` |
| Maintenance.TransferTextAfterPlainPrefix | hacks_and_fixes.py:66 | in particular when `<p>` has no "(" |
| Maintenance.TransferTextHasNoS | hacks_and_fixes.py:66 | the extracted text never contains "s" |
| Maintenance.Matching | hacks_and_fixes.py:53-56 | the events whose text contains "pyDTS <obsid>", in table order |
| Maintenance.BacklogStep | hacks_and_fixes.py:53-94 | one iteration for one exposure: nothing when no event matches, IndexError when the first match has no "transfer(", an error when the transfer time does not parse, and otherwise its replay |
| Maintenance.Replay | hacks_and_fixes.py:70-94 | the create, optional mark, send and send_complete actions of one exposure |
| Maintenance.MatchingSelects | hacks_and_fixes.py:53-56 | the lookup keeps exactly the events mentioning "pyDTS <obsid>" |
| Maintenance.Backlog | hacks_and_fixes.py:42-106 | a run that does not crash exits with status 0 |
| Maintenance.CrashIsFinal | hacks_and_fixes.py:42-106 | after an exception, later exposures change nothing |
| Maintenance.FixBacklog | hacks_and_fixes.py:42-106 | the loop's actions and exit are those of the specification over all exposures |
| Maintenance.UnloggedSkipped | hacks_and_fixes.py:58-61 | an exposure no event mentions gets no action |
| Maintenance.FirstMatchOnly | hacks_and_fixes.py:64 | only the first matching event matters |
| Maintenance.ReplayOrder | hacks_and_fixes.py:70-94 | create at createtime, the mark iff create was delivered, then send at eventtime minus the transfer time, then send_complete at eventtime |
| Maintenance.ReplayMarksFollowCreate | hacks_and_fixes.py:73-84 | within one replay the mark follows its delivered create report |
| Maintenance.StepMarksFollowCreate | hacks_and_fixes.py:53-94 | every iteration keeps marks right behind delivered create reports |
| Maintenance.MarkFollowsDeliveredCreate | hacks_and_fixes.py:42-106 | every mark fix_backlog writes comes right after a delivered create report for the same exposure |
| Maintenance.LikePyDtsOk | hacks_and_fixes.py:114 | `LIKE 'pyDTS%OK :: 0'`: starts with "pyDTS" and ends with "OK :: 0", without overlap |
| Maintenance.Successful | hacks_and_fixes.py:110-123 | the rows that match that pattern and are later than the cutoff, in table order |
| Maintenance.SuccessfulSelects | hacks_and_fixes.py:110-123 | exactly the "pyDTS...OK :: 0" events after the cutoff |
| Maintenance.LikeMatchesAnyMiddle | hacks_and_fixes.py:114 | any text between "pyDTS" and "OK :: 0" matches, the empty text included |
| Maintenance.FixAllPyDts | hacks_and_fixes.py:108-125 | the successful transfers are fetched, nothing is marked or sent, and the exit status is 0 |
| ForceResend.DirObsid | force_resend.py:24-32 | the inner loop: the first OBSID of the listing, skipping files without one; an unreadable file raises |
| ForceResend.Collect | force_resend.py:19-42 | the outer loop over the inputs: a directory adds its first OBSID and raises when a file in it is unreadable, a file with an OBSID adds it and ends the loop, and any other input adds nothing |
| ForceResend.DirObsidIsFirst | force_resend.py:21-32 | a directory yields the first OBSID in listing order after files without one; an unreadable file raises |
| ForceResend.AtMostOnePerInput | force_resend.py:19-42 | each input contributes at most one OBSID |
| ForceResend.CollectedFromHeaders | force_resend.py:19-42 | every collected OBSID was read from an input file or a file of an input directory |
| ForceResend.FileEndsCollection | force_resend.py:33-38 | a file with an OBSID ends the collection: later inputs never matter |
| ForceResend.FirstObsidIn | force_resend.py:24-32 | the inner loop returns the specification's first OBSID or exception |
| ForceResend.CollectObsids | force_resend.py:19-42 | the outer loop returns the specification's collection |
| ForceResend.WhereClause | force_resend.py:50 | the LIKE terms joined with " OR " |
| ForceResend.LookupSql | force_resend.py:51 | the lookup statement with that clause after "WHERE " |
| ForceResend.LikeTerms | force_resend.py:50 | one LIKE term per OBSID |
| ForceResend.EmptyClause | force_resend.py:50-51 | with no OBSID the clause is empty and the statement ends in "WHERE " |
| ForceResend.ClauseMentionsEach | force_resend.py:50 | every collected OBSID has its LIKE term in the clause |
| ForceResend.ClauseExtends | force_resend.py:50 | one more OBSID adds " OR " and its term |
| ForceResend.Database.constructor | force_resend.py:47 | the lock is free and nothing has been executed |
| ForceResend.Database.Lookup | force_resend.py:55-58 | acquire, execute, release; a rejected statement raises with the lock still held |
| ForceResend.Resend | force_resend.py:19-58 | an exception while collecting ends the script before the database is used; otherwise the lookup SQL of the collected OBSIDs runs under the lock, and a rejected statement raises with the lock still held |

## Left out

- Printing and logging are modelled only where printing is all an operation does: the announced transfer command and the completion notice of `DTS`. Everywhere else output text is not modelled, and no contract depends on it.
- The broker is not modelled beyond the answers it gives. The declare/bind/confirm callback chain of `_PPAsender` is left out: setup_exchange, setup_queue, on_queue_declareok, on_bindok, start_publishing and enable_delivery_confirmations. So are on_channel_closed, close_channel, schedule_next_message and the blocking event-loop starts. Only the flags and counters these callbacks touch are modelled.
- `PPA.__del__` is not modelled; garbage collection is not part of the model.
- The JSON encoding of a message and `str(timestamp)` are left out. A message is a record, and times are whole seconds.
- `datetime.now()` is a parameter. `timedelta` arithmetic is integer seconds. A fractional timeframe in days is not modelled.
- `float()` of the extracted transfer time is a parameter (`parse`). A failed parse is a ValueError.
- MD5 hashing is a given function of the tar file name (`Host.md5`).
- `os.system`, `glob` and `mkdir` record or read the host; a failing subprocess or mkdir is not modelled. `glob` order is whatever the host returns.
- FITS reading is a given map from file to header outcome: unreadable, no OBSID, or an OBSID.
- The `ODIDB` database class is not part of this model. `check_for_exposures` is given as its rows, and `mark_exposure_archived` is recorded as a `Mark` action. `Mark` carries no dry-run value where the call omits it, because the default is not visible.
- SQL result order is taken to be table order. LIKE wildcards (`%`, `_`) that occur inside an OBSID are treated as literal text.
- query_db.py only prints the rows it selects; the model returns them.
- Whether the database accepts the lookup statement of force_resend.py is a parameter (`accepts`). The model lets the database accept even the malformed statement ending in "WHERE " that zero OBSIDs produce.
- The round-trip lemmas of `PpaCommunication` only show that a message carries its report's fields. The content of `ReportMessage` lies in its fixed source and destination and in its defaults for time and comment.
- `EXPOSURE_EVENT.expid` is taken to be non-NULL. Under SQL, a single NULL in the sub-select would make `NOT IN` select nothing, and the model cannot express that.
- Threads are not modelled. The watcher's shutdown flag is set by another thread; the model sets it once `stopTick` sleeps have passed.
- db_watcher.py:81 reads a module-level `odidb`, not `self.odidb`. The query is a parameter, so this does not show in the model.
- An exception from `report_exposure` inside the watcher would end its thread. Reports are recorded as calls, and their outcome is not modelled.
- Broker failures inside `PPA.report_exposure` during `fix_backlog` are not modelled. Only the delivered/not-delivered answer of the create report is a parameter.
- The resend loop of `fix_all_pyDTS` (hacks_and_fixes.py:127-147) follows `sys.exit(0)`, so it is unreachable and is not modelled.
- listener.py, dts_logger.py, commandline.py and odi_dts.py are not part of this model. They are broker plumbing, logging, argument parsing and an entry script.
- Text.Pieces: requires a non-empty separator. Every separator in the source is a non-empty literal.
- PpaCommunication.PPA: its methods require `connection ==> channel == Held`. This excludes the state where `self.connection.channel()` itself raises inside `connect`, which is not modelled.
- Text.Lower: lower-cases ASCII letters only, whereas Python's `str.lower` also lower-cases other letters. The confirmation types it decides ("ack", "nack") are ASCII.
- ForceResend.Database.Lookup: requires the lock to be free, since acquiring a held lock would block the script forever.
