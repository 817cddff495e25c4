/** The maintenance script: three one-off repairs of the notification
    records. `fix_old` marks old exposures as notified without notifying,
    `fix_backlog` replays the create/send/send_complete notifications of
    exposures whose transfer is logged, and `fix_all_pyDTS` only looks up the
    successful transfers and exits. Database writes and notifications are
    recorded as actions; what the database returns and what the broker
    answers are parameters. */
module Maintenance {
  import opened Common
  import opened Text
  import opened PpaCommunication

  const SecondsPerDay := 86400
  const FixOldEvent := "ppa notification OK -- manually fixing old file for database only"
  const TransferStart := "transfer("
  const NotAFloat := ValueError("could not convert string to float")

  /** The event text `fix_backlog` writes for exposure `obsid`. */
  function BacklogEvent(obsid: string): string
  {
    "ppa notification OK -- manual create/send/send_complete to PPA for " + obsid
  }

  /** A call `mark_exposure_archived(obsid, event, dryrun)`, where `None`
      means the argument is left to its default, or a `report_exposure` call. */
  datatype Action = Mark(obsid: string, event: string, dryrun: Option<bool>) | Notify(report: Report)

  /** How the script ends: `sys.exit(code)`, or an uncaught exception. */
  datatype Status = Exited(code: int) | Crashed(error: Exception)

  /** A row of the event table: when it was logged and its text. */
  datatype EventRow = EventRow(eventtime: Time, event: string)

  /** The exposures `fix_old` marks, in order: those created strictly before the cutoff. */
  function Older(rows: seq<ExposureRow>, cutoff: Time): seq<ExposureRow>
  {
    if rows == [] then []
    else Older(rows[..|rows| - 1], cutoff)
         + (if rows[|rows| - 1].createtime < cutoff then [rows[|rows| - 1]] else [])
  }

  /** `Older` keeps exactly the exposures created before the cutoff. */
  lemma {:induction false} OlderSelects(rows: seq<ExposureRow>, cutoff: Time)
    ensures forall x :: x in Older(rows, cutoff) <==> x in rows && x.createtime < cutoff
    decreases |rows|
  {
    if rows != [] {
      var init := rows[..|rows| - 1];
      OlderSelects(init, cutoff);
      assert rows == init + [rows[|rows| - 1]];
    }
  }

  /** The mark `fix_old` writes for one exposure. */
  function OldMark(row: ExposureRow, dryrun: bool): Action
  {
    Mark(row.exposure, FixOldEvent, Some(dryrun))
  }

  /** One mark per exposure, in order. */
  function OldMarks(rows: seq<ExposureRow>, dryrun: bool): (r: seq<Action>)
    ensures |r| == |rows|
  {
    seq(|rows|, i requires 0 <= i < |rows| => OldMark(rows[i], dryrun))
  }

  lemma OldMarksAppend(rows: seq<ExposureRow>, more: seq<ExposureRow>, dryrun: bool)
    ensures OldMarks(rows + more, dryrun) == OldMarks(rows, dryrun) + OldMarks(more, dryrun)
  {
    assert forall i :: 0 <= i < |rows| ==> (rows + more)[i] == rows[i];
    assert forall i :: |rows| <= i < |rows + more| ==> (rows + more)[i] == more[i - |rows|];
  }

  /** `fix_old`: the cutoff is `timeframeDays` days before `now`; the
      verbosity flag is what goes out as the dry-run argument. */
  method FixOld(rows: seq<ExposureRow>, now: Time, timeframeDays: int, verbose: bool)
    returns (actions: seq<Action>, status: Status)
    ensures actions == OldMarks(Older(rows, now - timeframeDays * SecondsPerDay), verbose)
    ensures status == Exited(0)
  {
    var cutoff := now - timeframeDays * SecondsPerDay;
    actions := [];
    for i := 0 to |rows|
      invariant actions == OldMarks(Older(rows[..i], cutoff), verbose)
    {
      assert rows[..i + 1][..i] == rows[..i];
      var row := rows[i];
      ghost var kept := if row.createtime < cutoff then [row] else [];
      assert Older(rows[..i + 1], cutoff) == Older(rows[..i], cutoff) + kept;
      OldMarksAppend(Older(rows[..i], cutoff), kept, verbose);
      if row.createtime < cutoff {
        actions := actions + [OldMark(row, verbose)];
      }
    }
    assert rows[..|rows|] == rows;
    status := Exited(0);
  }

  /** Exactly the exposures created before the cutoff are marked, each with
      the fixed text and the verbosity flag as its dry-run argument. */
  lemma FixOldMarksExactly(rows: seq<ExposureRow>, cutoff: Time, dryrun: bool, x: ExposureRow)
    ensures x in rows && x.createtime < cutoff ==> Mark(x.exposure, FixOldEvent, Some(dryrun)) in OldMarks(Older(rows, cutoff), dryrun)
    ensures forall a :: a in OldMarks(Older(rows, cutoff), dryrun) ==>
              a.Mark? && a.event == FixOldEvent && a.dryrun == Some(dryrun)
              && exists y :: y in rows && y.createtime < cutoff && y.exposure == a.obsid
  {
    var older := Older(rows, cutoff);
    var marks := OldMarks(older, dryrun);
    OlderSelects(rows, cutoff);
    if x in rows && x.createtime < cutoff {
      var i :| 0 <= i < |older| && older[i] == x;
      assert marks[i] == Mark(x.exposure, FixOldEvent, Some(dryrun));
    }
    forall a | a in marks
      ensures a.Mark? && a.event == FixOldEvent && a.dryrun == Some(dryrun)
      ensures exists y :: y in rows && y.createtime < cutoff && y.exposure == a.obsid
    {
      var i :| 0 <= i < |marks| && marks[i] == a;
      assert older[i] in older;
    }
  }

  /** `event.split("transfer(")[1].split("s")[0]`: the text after the first
      "transfer(" up to the next "s", or `None` where indexing the split
      raises because there is no "transfer(". */
  function TransferText(event: string): (r: Option<string>)
    ensures r.None? <==> !Contains(event, TransferStart)
  {
    PiecesMoreThanOne(event, TransferStart);
    var parts := Pieces(event, TransferStart);
    if |parts| < 2 then None else Some(Pieces(parts[1], "s")[0])
  }

  /** The digits and decimal point a logged transfer time is written with. */
  predicate Numeric(t: string)
  {
    forall i :: 0 <= i < |t| ==> '0' <= t[i] <= '9' || t[i] == '.'
  }

  /** In an event of the form `<prefix>transfer(<t>s<rest>` with a numeric
      `<t>`, where the "transfer(" after `<prefix>` is the first one, the
      extracted text is `<t>`. */
  lemma TransferTextOf(prefix: string, t: string, rest: string)
    requires forall j: nat :: j < |prefix| ==> !OccursAt(prefix + TransferStart + (t + "s" + rest), TransferStart, j)
    requires Numeric(t)
    ensures TransferText(prefix + TransferStart + t + "s" + rest) == Some(t)
  {
    var tail := t + "s" + rest;
    PiecesAtFirst(prefix, TransferStart, tail);
    assert prefix + TransferStart + t + "s" + rest == prefix + TransferStart + tail;
    NumberBeforeS(t, rest);
  }

  /** In particular, a prefix without "(" cannot hide an earlier "transfer(". */
  lemma TransferTextAfterPlainPrefix(prefix: string, t: string, rest: string)
    requires '(' !in prefix && Numeric(t)
    ensures TransferText(prefix + TransferStart + t + "s" + rest) == Some(t)
  {
    NoEarlyTransferStart(prefix, t + "s" + rest);
    TransferTextOf(prefix, t, rest);
  }

  /** Cutting `<t>s...` at "transfer(" and then at "s" leaves the number `<t>`. */
  lemma NumberBeforeS(t: string, rest: string)
    requires Numeric(t)
    ensures Pieces(Pieces(t + "s" + rest, TransferStart)[0], "s")[0] == t
  {
    var tail := t + "s" + rest;
    assert t + ['s'] + rest == tail;
    assert 's' !in t by {
      forall i | 0 <= i < |t| ensures t[i] != 's' { }
    }
    match IndexOf(tail, TransferStart)
    case None =>
      PiecesAtFirstChar(t, 's', rest);
    case Some(q) =>
      assert tail[q] == 't' by {
        assert tail[q..q + 9][0] == 't';
      }
      assert q > |t|;
      var piece := tail[..q];
      assert Pieces(tail, TransferStart)[0] == piece;
      assert piece == t + ['s'] + rest[..q - |t| - 1];
      PiecesAtFirstChar(t, 's', rest[..q - |t| - 1]);
  }

  /** "transfer(" cannot start inside a text without "(": its "(" would
      have to lie in that text or among the letters of "transfer". */
  lemma NoEarlyTransferStart(prefix: string, tail: string)
    requires '(' !in prefix
    ensures forall j: nat :: j < |prefix| ==> !OccursAt(prefix + TransferStart + tail, TransferStart, j)
  {
    var s := prefix + TransferStart + tail;
    forall j: nat | j < |prefix| ensures !OccursAt(s, TransferStart, j) {
      if j + 9 <= |s| {
        assert s[j..j + 9][8] == s[j + 8];
        if j + 8 < |prefix| {
          assert s[j + 8] == prefix[j + 8];
        } else {
          assert s[j + 8] == TransferStart[j + 8 - |prefix|];
        }
      }
    }
  }

  /** The transfer time text never contains an "s". */
  lemma TransferTextHasNoS(event: string)
    ensures TransferText(event).Some? ==> 's' !in TransferText(event).value
  {
    if TransferText(event).Some? {
      var piece := Pieces(event, TransferStart)[1];
      PiecesAvoidSeparator(piece, "s");
      var t := Pieces(piece, "s")[0];
      if 's' in t {
        var i :| 0 <= i < |t| && t[i] == 's';
        assert OccursAt(t, "s", i);
      }
    }
  }

  /** The rows of `SELECT eventtime,event ... where event like '%pyDTS <obsid>%'`, in table order. */
  function Matching(events: seq<EventRow>, obsid: string): seq<EventRow>
  {
    if events == [] then []
    else Matching(events[..|events| - 1], obsid)
         + (if Contains(events[|events| - 1].event, "pyDTS " + obsid) then [events[|events| - 1]] else [])
  }

  /** The lookup keeps exactly the events that mention "pyDTS <obsid>". */
  lemma {:induction false} MatchingSelects(events: seq<EventRow>, obsid: string)
    ensures forall e :: e in Matching(events, obsid) <==> e in events && Contains(e.event, "pyDTS " + obsid)
    decreases |events|
  {
    if events != [] {
      var init := events[..|events| - 1];
      MatchingSelects(init, obsid);
      assert events == init + [events[|events| - 1]];
    }
  }

  /** The report `fix_backlog` sends first: the exposure was created at its createtime. */
  function CreateNotice(row: ExposureRow): Report
  {
    Report(row.exposure, "create", Some(row.createtime), None)
  }

  /** One iteration of `fix_backlog`: nothing when no event mentions the
      exposure; otherwise, from the first matching event, the create report,
      the mark when that report was delivered, then the send report dated the
      transfer time before the event and the send_complete report dated at
      it. The extraction or the parse of the transfer time can raise.
      `parse` stands for `float()` and `delivered` for the broker's answer. */
  function BacklogStep(row: ExposureRow, events: seq<EventRow>,
                       parse: string -> Option<int>, delivered: Report -> bool): Result<seq<Action>>
  {
    var found := Matching(events, row.exposure);
    if found == [] then Ok([])
    else
      var first := found[0];
      match TransferText(first.event)
      case None => Err(IndexError)
      case Some(text) =>
        match parse(text)
        case None => Err(NotAFloat)
        case Some(seconds) => Ok(Replay(row, first.eventtime, seconds, delivered))
  }

  /** The replay for an exposure whose transfer of `seconds` was logged at
      `eventtime`. */
  function Replay(row: ExposureRow, eventtime: Time, seconds: int, delivered: Report -> bool): seq<Action>
  {
    var create := CreateNotice(row);
    [Notify(create)]
    + (if delivered(create) then [Mark(row.exposure, BacklogEvent(row.exposure), None)] else [])
    + [Notify(Report(row.exposure, "send", Some(eventtime - seconds), None)),
       Notify(Report(row.exposure, "send_complete", Some(eventtime), None))]
  }

  /** What `fix_backlog` has done after the given exposures: every action so
      far, and how it ended; the first exception ends the script. */
  datatype Outcome = Outcome(actions: seq<Action>, status: Status)

  function Backlog(rows: seq<ExposureRow>, events: seq<EventRow>,
                   parse: string -> Option<int>, delivered: Report -> bool): (o: Outcome)
    ensures o.status.Exited? ==> o.status.code == 0
  {
    if rows == [] then Outcome([], Exited(0))
    else
      var previous := Backlog(rows[..|rows| - 1], events, parse, delivered);
      if previous.status.Crashed? then previous
      else
        match BacklogStep(rows[|rows| - 1], events, parse, delivered)
        case Err(e) => Outcome(previous.actions, Crashed(e))
        case Ok(acts) => Outcome(previous.actions + acts, Exited(0))
  }

  /** Once the script has crashed, later exposures change nothing. */
  lemma {:induction false} CrashIsFinal(rows: seq<ExposureRow>, k: nat, events: seq<EventRow>,
                                        parse: string -> Option<int>, delivered: Report -> bool)
    requires k <= |rows|
    requires Backlog(rows[..k], events, parse, delivered).status.Crashed?
    ensures Backlog(rows, events, parse, delivered) == Backlog(rows[..k], events, parse, delivered)
    decreases |rows| - k
  {
    if k < |rows| {
      var init := rows[..|rows| - 1];
      assert init[..k] == rows[..k];
      CrashIsFinal(init, k, events, parse, delivered);
    } else {
      assert rows[..k] == rows;
    }
  }

  /** `fix_backlog`. */
  method FixBacklog(rows: seq<ExposureRow>, events: seq<EventRow>,
                    parse: string -> Option<int>, delivered: Report -> bool)
    returns (actions: seq<Action>, status: Status)
    ensures Outcome(actions, status) == Backlog(rows, events, parse, delivered)
  {
    actions := [];
    var i := 0;
    while i < |rows|
      invariant 0 <= i <= |rows|
      invariant Backlog(rows[..i], events, parse, delivered) == Outcome(actions, Exited(0))
    {
      assert rows[..i + 1][..i] == rows[..i];
      var step := BacklogStep(rows[i], events, parse, delivered);
      if step.Err? {
        status := Crashed(step.error);
        CrashIsFinal(rows, i + 1, events, parse, delivered);
        return;
      }
      actions := actions + step.value;
      i := i + 1;
    }
    assert rows[..|rows|] == rows;
    status := Exited(0);
  }

  /** An exposure no logged transfer mentions gets no action. */
  lemma UnloggedSkipped(row: ExposureRow, events: seq<EventRow>,
                        parse: string -> Option<int>, delivered: Report -> bool)
    requires forall e :: e in events ==> !Contains(e.event, "pyDTS " + row.exposure)
    ensures BacklogStep(row, events, parse, delivered) == Ok([])
  {
    MatchingSelects(events, row.exposure);
    if Matching(events, row.exposure) != [] {
      assert Matching(events, row.exposure)[0] in Matching(events, row.exposure);
    }
  }

  /** Only the first matching event counts: two event tables whose first
      match agree give the same actions. */
  lemma FirstMatchOnly(row: ExposureRow, events: seq<EventRow>, others: seq<EventRow>,
                       parse: string -> Option<int>, delivered: Report -> bool)
    requires Matching(events, row.exposure) != [] && Matching(others, row.exposure) != []
    requires Matching(events, row.exposure)[0] == Matching(others, row.exposure)[0]
    ensures BacklogStep(row, events, parse, delivered) == BacklogStep(row, others, parse, delivered)
  {
  }

  /** The order of one replay: create first, the mark right after it exactly
      when the create report was delivered, then send dated `seconds` before
      the event and send_complete dated at it. */
  lemma ReplayOrder(row: ExposureRow, eventtime: Time, seconds: int, delivered: Report -> bool)
    ensures var acts := Replay(row, eventtime, seconds, delivered);
            && |acts| == (if delivered(CreateNotice(row)) then 4 else 3)
            && acts[0] == Notify(CreateNotice(row))
            && (delivered(CreateNotice(row)) <==> acts[1] == Mark(row.exposure, BacklogEvent(row.exposure), None))
            && acts[|acts| - 2] == Notify(Report(row.exposure, "send", Some(eventtime - seconds), None))
            && acts[|acts| - 1] == Notify(Report(row.exposure, "send_complete", Some(eventtime), None))
  {
  }

  /** Every mark comes right after a delivered create report for the same exposure. */
  ghost predicate MarksFollowCreate(acts: seq<Action>, delivered: Report -> bool)
  {
    forall i :: 0 <= i < |acts| && acts[i].Mark? ==>
      0 < i && acts[i - 1].Notify? && acts[i - 1].report.msgType == "create"
      && acts[i - 1].report.obsid == acts[i].obsid && delivered(acts[i - 1].report)
  }

  lemma MarksFollowCreateAppend(a: seq<Action>, b: seq<Action>, delivered: Report -> bool)
    requires MarksFollowCreate(a, delivered) && MarksFollowCreate(b, delivered)
    ensures MarksFollowCreate(a + b, delivered)
  {
    var ab := a + b;
    forall i | 0 <= i < |ab| && ab[i].Mark?
      ensures 0 < i && ab[i - 1].Notify? && ab[i - 1].report.msgType == "create"
              && ab[i - 1].report.obsid == ab[i].obsid && delivered(ab[i - 1].report)
    {
      if i < |a| {
        assert ab[i] == a[i] && ab[i - 1] == a[i - 1];
      } else {
        assert ab[i] == b[i - |a|] && ab[i - 1] == b[i - |a| - 1];
      }
    }
  }

  lemma ReplayMarksFollowCreate(row: ExposureRow, eventtime: Time, seconds: int, delivered: Report -> bool)
    ensures MarksFollowCreate(Replay(row, eventtime, seconds, delivered), delivered)
  {
    var create := CreateNotice(row);
    var mark := Mark(row.exposure, BacklogEvent(row.exposure), None);
    var send := Notify(Report(row.exposure, "send", Some(eventtime - seconds), None));
    var complete := Notify(Report(row.exposure, "send_complete", Some(eventtime), None));
    var acts := Replay(row, eventtime, seconds, delivered);
    if delivered(create) {
      assert acts == [Notify(create), mark, send, complete];
    } else {
      assert acts == [Notify(create), send, complete];
    }
  }

  /** Each iteration of `fix_backlog` keeps marks behind their create reports. */
  lemma StepMarksFollowCreate(row: ExposureRow, events: seq<EventRow>,
                              parse: string -> Option<int>, delivered: Report -> bool)
    ensures BacklogStep(row, events, parse, delivered).Ok? ==>
              MarksFollowCreate(BacklogStep(row, events, parse, delivered).value, delivered)
  {
    var found := Matching(events, row.exposure);
    if found != [] && TransferText(found[0].event).Some? && parse(TransferText(found[0].event).value).Some? {
      var eventtime := found[0].eventtime;
      var seconds := parse(TransferText(found[0].event).value).value;
      assert BacklogStep(row, events, parse, delivered) == Ok(Replay(row, eventtime, seconds, delivered));
      ReplayMarksFollowCreate(row, eventtime, seconds, delivered);
    }
  }

  /** Every mark `fix_backlog` writes comes right after a delivered create
      report for the same exposure. */
  lemma {:induction false} MarkFollowsDeliveredCreate(rows: seq<ExposureRow>, events: seq<EventRow>,
                                                      parse: string -> Option<int>, delivered: Report -> bool)
    ensures MarksFollowCreate(Backlog(rows, events, parse, delivered).actions, delivered)
    decreases |rows|
  {
    if rows != [] {
      var init := rows[..|rows| - 1];
      MarkFollowsDeliveredCreate(init, events, parse, delivered);
      StepMarksFollowCreate(rows[|rows| - 1], events, parse, delivered);
      var previous := Backlog(init, events, parse, delivered);
      var step := BacklogStep(rows[|rows| - 1], events, parse, delivered);
      if previous.status.Exited? && step.Ok? {
        MarksFollowCreateAppend(previous.actions, step.value, delivered);
      }
    }
  }

  /** `v.event like 'pyDTS%OK :: 0'`: starts with "pyDTS" and ends with "OK :: 0". */
  predicate LikePyDtsOk(event: string)
  {
    |event| >= |"pyDTS"| + |"OK :: 0"| && StartsWith(event, "pyDTS") && EndsWith(event, "OK :: 0")
  }

  /** A row of the joined query: the event's time and text and the exposure name. */
  datatype TransferRow = TransferRow(eventtime: Time, event: string, exposure: string)

  /** The rows `fix_all_pyDTS` selects: successful transfer events logged after the cutoff. */
  function Successful(rows: seq<TransferRow>, cutoff: Time): seq<TransferRow>
  {
    if rows == [] then []
    else Successful(rows[..|rows| - 1], cutoff)
         + (if LikePyDtsOk(rows[|rows| - 1].event) && rows[|rows| - 1].eventtime > cutoff
            then [rows[|rows| - 1]] else [])
  }

  /** The query keeps exactly the successful transfers after the cutoff. */
  lemma {:induction false} SuccessfulSelects(rows: seq<TransferRow>, cutoff: Time)
    ensures forall x :: x in Successful(rows, cutoff) <==> x in rows && LikePyDtsOk(x.event) && x.eventtime > cutoff
    decreases |rows|
  {
    if rows != [] {
      var init := rows[..|rows| - 1];
      SuccessfulSelects(init, cutoff);
      assert rows == init + [rows[|rows| - 1]];
    }
  }

  /** LIKE's `%` matches nothing as well: the pattern's two fixed parts
      side by side form a matching event. */
  lemma LikeMatchesAnyMiddle(middle: string)
    ensures LikePyDtsOk("pyDTS" + middle + "OK :: 0")
  {
    var e := "pyDTS" + middle + "OK :: 0";
    assert e[..5] == "pyDTS";
    assert e[|e| - 7..] == "OK :: 0";
  }

  /** `fix_all_pyDTS`: the successful transfers of the last `timeframeDays`
      days are fetched and printed, and the script exits before its resend
      loop, so nothing is written and nothing is sent. */
  method FixAllPyDts(rows: seq<TransferRow>, now: Time, timeframeDays: int)
    returns (selected: seq<TransferRow>, actions: seq<Action>, status: Status)
    ensures selected == Successful(rows, now - timeframeDays * SecondsPerDay)
    ensures actions == [] && status == Exited(0)
  {
    var cutoff := now - timeframeDays * SecondsPerDay;
    selected := Successful(rows, cutoff);
    actions := [];
    status := Exited(0);
  }
}
