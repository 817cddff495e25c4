/** The polling thread `ExposureWatcher`: it keeps the highest exposure id
    seen so far, reports every exposure a query returns as created, and
    sleeps in 10 ms steps between queries until another thread sets its
    shutdown flag. The notification client is recorded as the sequence of
    reports handed to it; the database query is a parameter. */
module DbWatcher {
  import opened Common
  import opened PpaCommunication

  /** The report sent for one returned exposure row. */
  function CreateReport(row: ExposureRow): Report
  {
    Report(row.exposure, "create", Some(row.createtime), None)
  }

  /** The reports sent for a batch: one per row, in batch order. */
  function CreateReports(batch: seq<ExposureRow>): (rs: seq<Report>)
    ensures |rs| == |batch|
  {
    if batch == [] then [] else CreateReports(batch[..|batch| - 1]) + [CreateReport(batch[|batch| - 1])]
  }

  /** Exactly one report per row, at the row's own position. */
  lemma {:induction false} CreateReportsEach(batch: seq<ExposureRow>)
    ensures forall i :: 0 <= i < |batch| ==> CreateReports(batch)[i] == CreateReport(batch[i])
    decreases |batch|
  {
    if batch != [] {
      CreateReportsEach(batch[..|batch| - 1]);
    }
  }

  /** The watermark after scanning `batch` from watermark `w`: the largest
      of `w` and every id in the batch. */
  function HighWater(w: int, batch: seq<ExposureRow>): (h: int)
    ensures h >= w
  {
    if batch == [] then w
    else
      var previous := HighWater(w, batch[..|batch| - 1]);
      if batch[|batch| - 1].id > previous then batch[|batch| - 1].id else previous
  }

  /** The watermark is the maximum: no id exceeds it, and it is the starting
      watermark or one of the ids. */
  lemma {:induction false} HighWaterIsMaximum(w: int, batch: seq<ExposureRow>)
    ensures forall i :: 0 <= i < |batch| ==> batch[i].id <= HighWater(w, batch)
    ensures HighWater(w, batch) == w || exists i :: 0 <= i < |batch| && batch[i].id == HighWater(w, batch)
    decreases |batch|
  {
    if batch != [] {
      var init := batch[..|batch| - 1];
      HighWaterIsMaximum(w, init);
      assert forall i :: 0 <= i < |init| ==> batch[i] == init[i];
    }
  }

  /** Scanning two batches one after the other is scanning their concatenation. */
  lemma {:induction false} HighWaterAppend(w: int, a: seq<ExposureRow>, b: seq<ExposureRow>)
    ensures HighWater(w, a + b) == HighWater(HighWater(w, a), b)
    decreases |b|
  {
    if b == [] {
      assert a + b == a;
    } else {
      assert (a + b)[..|a + b| - 1] == a + b[..|b| - 1];
      HighWaterAppend(w, a, b[..|b| - 1]);
    }
  }

  /** The reports of two batches are the reports of their concatenation. */
  lemma CreateReportsAppend(a: seq<ExposureRow>, b: seq<ExposureRow>)
    ensures CreateReports(a + b) == CreateReports(a) + CreateReports(b)
  {
    CreateReportsEach(a + b);
    CreateReportsEach(a);
    CreateReportsEach(b);
    forall i | 0 <= i < |a + b|
      ensures CreateReports(a + b)[i] == (CreateReports(a) + CreateReports(b))[i]
    {
      if i < |a| {
        assert (a + b)[i] == a[i];
      } else {
        assert (a + b)[i] == b[i - |a|];
      }
    }
  }

  /** A larger starting watermark never gives a smaller result. */
  lemma {:induction false} HighWaterMonotone(v: int, w: int, batch: seq<ExposureRow>)
    requires v <= w
    ensures HighWater(v, batch) <= HighWater(w, batch)
    decreases |batch|
  {
    if batch != [] {
      HighWaterMonotone(v, w, batch[..|batch| - 1]);
    }
  }

  /** One query of the polling loop: the sleep count when it was made, the
      watermark it was given and the rows it returned. */
  datatype PollRecord = PollRecord(tick: nat, watermark: int, rows: seq<ExposureRow>)

  /** Every row the recorded queries returned, in order. */
  function Rows(polls: seq<PollRecord>): seq<ExposureRow>
  {
    if polls == [] then [] else Rows(polls[..|polls| - 1]) + polls[|polls| - 1].rows
  }

  lemma RowsSnoc(polls: seq<PollRecord>, p: PollRecord)
    ensures Rows(polls + [p]) == Rows(polls) + p.rows
  {
    assert (polls + [p])[..|polls|] == polls;
  }

  /** The rows of two runs of queries are the rows of their concatenation. */
  lemma {:induction false} RowsAppend(a: seq<PollRecord>, b: seq<PollRecord>)
    ensures Rows(a + b) == Rows(a) + Rows(b)
    decreases |b|
  {
    if b == [] {
      assert a + b == a;
    } else {
      var init := b[..|b| - 1];
      assert a + b == (a + init) + [b[|b| - 1]];
      assert b == init + [b[|b| - 1]];
      RowsSnoc(a + init, b[|b| - 1]);
      RowsSnoc(init, b[|b| - 1]);
      RowsAppend(a, init);
    }
  }

  /** From position `from` on, each recorded query returned what `query`
      gives for its sleep count and watermark, and its watermark is the one
      left by the rows of the queries before it, starting from `w`. */
  ghost predicate Replays(polls: seq<PollRecord>, from: nat, w: int, query: (nat, int) -> seq<ExposureRow>)
  {
    && from <= |polls|
    && forall k :: from <= k < |polls| ==>
         && polls[k].rows == query(polls[k].tick, polls[k].watermark)
         && polls[k].watermark == HighWater(w, Rows(polls[from..k]))
  }

  /** A query made with the watermark of all rows so far keeps the record a replay. */
  lemma ReplaysExtend(polls: seq<PollRecord>, from: nat, w: int, query: (nat, int) -> seq<ExposureRow>,
                      p: PollRecord)
    requires Replays(polls, from, w, query)
    requires p.rows == query(p.tick, p.watermark)
    requires p.watermark == HighWater(w, Rows(polls[from..]))
    ensures Replays(polls + [p], from, w, query)
  {
    var ps := polls + [p];
    forall k | from <= k < |ps|
      ensures ps[k].rows == query(ps[k].tick, ps[k].watermark)
      ensures ps[k].watermark == HighWater(w, Rows(ps[from..k]))
    {
      assert ps[from..k] == polls[from..k];
      if k < |polls| {
        assert ps[k] == polls[k];
      }
    }
  }

  /** The watermarks handed to successive queries never decrease, and the
      first is the starting one. */
  lemma WatermarksRise(polls: seq<PollRecord>, from: nat, w: int, query: (nat, int) -> seq<ExposureRow>,
                       j: nat, k: nat)
    requires Replays(polls, from, w, query)
    requires from <= j <= k < |polls|
    ensures polls[from].watermark == w
    ensures polls[j].watermark <= polls[k].watermark
  {
    assert polls[from..from] == [];
    assert polls[from..k] == polls[from..j] + polls[j..k];
    RowsAppend(polls[from..j], polls[j..k]);
    HighWaterAppend(w, Rows(polls[from..j]), Rows(polls[j..k]));
  }

  /** From position `from` on, the queries were made at increasing sleep
      counts, all below `now` and below `stopTick`. */
  ghost predicate Timed(polls: seq<PollRecord>, from: nat, now: nat, stopTick: nat)
  {
    && (forall k :: from <= k < |polls| ==> polls[k].tick < now && polls[k].tick < stopTick)
    && (forall j, k :: from <= j < k < |polls| ==> polls[j].tick < polls[k].tick)
  }

  lemma TimedExtend(polls: seq<PollRecord>, from: nat, now: nat, later: nat, stopTick: nat, p: PollRecord)
    requires Timed(polls, from, now, stopTick) && from <= |polls|
    requires p.tick == now && now < later && now < stopTick
    ensures Timed(polls + [p], from, later, stopTick)
  {
    var ps := polls + [p];
    assert forall k :: from <= k < |polls| ==> ps[k] == polls[k];
  }

  /** What the polling loop keeps: the queries from position `from` on
      are a timed replay starting from watermark `w`, the watermark `last` is
      that of all their rows, and the reports are those of all their rows. */
  ghost predicate Traced(polls: seq<PollRecord>, from: nat, w: int, query: (nat, int) -> seq<ExposureRow>,
                         now: nat, stopTick: nat, last: int, reports0: seq<Report>, reports: seq<Report>)
  {
    && Replays(polls, from, w, query)
    && Timed(polls, from, now, stopTick)
    && last == HighWater(w, Rows(polls[from..]))
    && reports == reports0 + CreateReports(Rows(polls[from..]))
  }

  /** One more query, made with the current watermark before `stopTick`,
      keeps the record a timed replay. */
  lemma TracedExtend(polls: seq<PollRecord>, from: nat, w: int, query: (nat, int) -> seq<ExposureRow>,
                     now: nat, later: nat, stopTick: nat, last: int, reports0: seq<Report>, reports: seq<Report>)
    requires Traced(polls, from, w, query, now, stopTick, last, reports0, reports)
    requires now < later && now < stopTick
    ensures Replays(polls + [PollRecord(now, last, query(now, last))], from, w, query)
    ensures Timed(polls + [PollRecord(now, last, query(now, last))], from, later, stopTick)
  {
    var p := PollRecord(now, last, query(now, last));
    ReplaysExtend(polls, from, w, query, p);
    TimedExtend(polls, from, now, later, stopTick, p);
  }

  /** The rows of one more query account for the new watermark and the new reports. */
  lemma TracedRowsExtend(polls: seq<PollRecord>, from: nat, w: int, query: (nat, int) -> seq<ExposureRow>,
                         now: nat, stopTick: nat, last: int, reports0: seq<Report>, reports: seq<Report>)
    requires Traced(polls, from, w, query, now, stopTick, last, reports0, reports)
    ensures HighWater(last, query(now, last))
            == HighWater(w, Rows((polls + [PollRecord(now, last, query(now, last))])[from..]))
    ensures reports + CreateReports(query(now, last))
            == reports0 + CreateReports(Rows((polls + [PollRecord(now, last, query(now, last))])[from..]))
  {
    RowsExtend(polls, from, w, PollRecord(now, last, query(now, last)));
  }

  /** The watermark and the reports after one more query are those of the
      rows so far followed by the query's rows. */
  lemma RowsExtend(polls: seq<PollRecord>, from: nat, w: int, p: PollRecord)
    requires from <= |polls|
    ensures HighWater(w, Rows((polls + [p])[from..])) == HighWater(HighWater(w, Rows(polls[from..])), p.rows)
    ensures CreateReports(Rows((polls + [p])[from..])) == CreateReports(Rows(polls[from..])) + CreateReports(p.rows)
  {
    assert (polls + [p])[from..] == polls[from..] + [p];
    RowsSnoc(polls[from..], p);
    HighWaterAppend(w, Rows(polls[from..]), p.rows);
    CreateReportsAppend(Rows(polls[from..]), p.rows);
  }

  /** Consecutive queries of a record from `from` on are one full wait of
      100 sleeps apart. */
  ghost predicate Spaced(polls: seq<PollRecord>, from: nat)
  {
    forall k :: from <= k < |polls| - 1 ==> polls[k + 1].tick == polls[k].tick + 100
  }

  /** The sleep count after one wait that starts at `t` before `stopTick`. */
  function AfterWait(t: nat, stopTick: nat): (r: nat)
    requires t < stopTick
    ensures t < r <= stopTick && r <= t + 100
    ensures r < stopTick ==> r == t + 100
  {
    if stopTick - t < 100 then stopTick else t + 100
  }

  /** A run started at `t0` before `stopTick` has reached `now`: without a
      query yet it is still at `t0`; otherwise its first query was at `t0`
      and `now` is one wait after its last query. */
  ghost predicate Paced(polls: seq<PollRecord>, from: nat, t0: nat, now: nat, stopTick: nat)
  {
    && from <= |polls|
    && (|polls| == from ==> now == t0)
    && (|polls| > from ==> polls[from].tick == t0 && polls[|polls| - 1].tick < stopTick
                           && now == AfterWait(polls[|polls| - 1].tick, stopTick))
  }

  /** A query at `now` before `stopTick`, followed by a wait, keeps both the
      pacing and the spacing of the record. */
  lemma PacedExtend(polls: seq<PollRecord>, from: nat, t0: nat, now: nat, stopTick: nat, p: PollRecord)
    requires Paced(polls, from, t0, now, stopTick) && Spaced(polls, from)
    requires p.tick == now < stopTick
    ensures Paced(polls + [p], from, t0, AfterWait(now, stopTick), stopTick)
    ensures Spaced(polls + [p], from)
  {
    var q := polls + [p];
    forall k | from <= k < |q| - 1
      ensures q[k + 1].tick == q[k].tick + 100
    {
      if k + 1 == |polls| {
        assert q[k] == polls[|polls| - 1];
      } else {
        assert q[k] == polls[k] && q[k + 1] == polls[k + 1];
      }
    }
  }

  class ExposureWatcher {
    var lastKnown: int
    var shutdown: bool
    var ticks: nat                 // 10 ms sleeps taken so far
    var polls: seq<PollRecord>     // every query made, in order
    var reports: seq<Report>       // every report handed to the notification client

    constructor (lastExposure: int := 0)
      ensures lastKnown == lastExposure && !shutdown
      ensures ticks == 0 && polls == [] && reports == []
    {
      lastKnown := lastExposure;
      shutdown := false;
      ticks := 0;
      polls := [];
      reports := [];
    }

    /** A read of the shutdown flag, which another thread sets once `stopTick`
        sleeps have passed and which stays set. */
    method Observe(stopTick: nat)
      modifies this`shutdown
      ensures shutdown == (old(shutdown) || ticks >= stopTick)
    {
      shutdown := shutdown || ticks >= stopTick;
    }

    /** The body of the loop over one batch: raise the watermark and report
        every row, including rows at or below the watermark. */
    method ProcessBatch(batch: seq<ExposureRow>)
      modifies this`lastKnown, this`reports
      ensures lastKnown == HighWater(old(lastKnown), batch)
      ensures reports == old(reports) + CreateReports(batch)
    {
      for i := 0 to |batch|
        invariant lastKnown == HighWater(old(lastKnown), batch[..i])
        invariant reports == old(reports) + CreateReports(batch[..i])
      {
        assert batch[..i + 1][..i] == batch[..i];
        var row := batch[i];
        if row.id > lastKnown {
          lastKnown := row.id;
        }
        reports := reports + [CreateReport(row)];
      }
      assert batch[..|batch|] == batch;
    }

    /** The wait between queries: at most 100 sleeps, stopping as soon as the
        flag is seen set. */
    method Wait(stopTick: nat) returns (slept: nat)
      modifies this`ticks, this`shutdown
      ensures slept <= 100
      ensures ticks == old(ticks) + slept
      ensures shutdown == (old(shutdown) || ticks >= stopTick)
      ensures old(shutdown) || old(ticks) >= stopTick ==> slept == 0
      ensures !old(shutdown) && old(ticks) < stopTick ==>
                slept == if stopTick - old(ticks) < 100 then stopTick - old(ticks) else 100
    {
      var loop := 0;
      Observe(stopTick);
      while loop < 100 && !shutdown
        invariant 0 <= loop <= 100
        invariant ticks == old(ticks) + loop
        invariant shutdown == (old(shutdown) || ticks >= stopTick)
        invariant loop > 0 ==> !old(shutdown) && ticks <= stopTick
        decreases 100 - loop
      {
        ticks := ticks + 1;
        loop := loop + 1;
        Observe(stopTick);
      }
      slept := loop;
    }

    /** One iteration of the loop in `run`: query with the current
        watermark, process the batch, then wait. */
    method Poll(query: (nat, int) -> seq<ExposureRow>, stopTick: nat) returns (batch: seq<ExposureRow>)
      modifies this
      ensures batch == query(old(ticks), old(lastKnown))
      ensures polls == old(polls) + [PollRecord(old(ticks), old(lastKnown), batch)]
      ensures lastKnown == HighWater(old(lastKnown), batch)
      ensures reports == old(reports) + CreateReports(batch)
      ensures shutdown == (old(shutdown) || ticks >= stopTick)
      ensures !old(shutdown) && old(ticks) < stopTick ==> ticks == AfterWait(old(ticks), stopTick)
      ensures old(shutdown) || old(ticks) >= stopTick ==> ticks == old(ticks)
    {
      var watermark := lastKnown;
      var now := ticks;
      batch := query(now, watermark);
      polls := polls + [PollRecord(now, watermark, batch)];
      ProcessBatch(batch);
      var _ := Wait(stopTick);
    }

    /** `run`: poll until the flag is seen set at the top of an iteration.
        `query` stands for the database: the rows it returns at a given
        sleep count for a given watermark. */
    method Run(query: (nat, int) -> seq<ExposureRow>, stopTick: nat)
      modifies this
      ensures shutdown
      ensures ticks == if old(shutdown) || old(ticks) >= stopTick then old(ticks) else stopTick
      ensures |polls| >= |old(polls)| && polls[..|old(polls)|] == old(polls)
      ensures old(shutdown) || old(ticks) >= stopTick ==> polls == old(polls)
      ensures Replays(polls, |old(polls)|, old(lastKnown), query)
      ensures Timed(polls, |old(polls)|, ticks, stopTick)
      ensures lastKnown == HighWater(old(lastKnown), Rows(polls[|old(polls)|..]))
      ensures reports == old(reports) + CreateReports(Rows(polls[|old(polls)|..]))
      ensures !old(shutdown) && old(ticks) < stopTick ==>
                |polls| > |old(polls)| && polls[|old(polls)|].tick == old(ticks) && polls[|polls| - 1].tick + 100 >= stopTick
      ensures Spaced(polls, |old(polls)|)
    {
      ghost var from := |polls|;
      Observe(stopTick);
      assert polls[from..] == [];
      while !shutdown
        invariant shutdown == (old(shutdown) || ticks >= stopTick)
        invariant !old(shutdown) && old(ticks) < stopTick ==> ticks <= stopTick
        invariant old(shutdown) || old(ticks) >= stopTick ==> ticks == old(ticks) && polls == old(polls)
        invariant from <= |polls| && polls[..from] == old(polls)
        invariant Traced(polls, from, old(lastKnown), query, ticks, stopTick, lastKnown, old(reports), reports)
        invariant !old(shutdown) && old(ticks) < stopTick ==> Paced(polls, from, old(ticks), ticks, stopTick)
        invariant Spaced(polls, from)
        decreases stopTick - ticks
      {
        ghost var earlier := polls;
        ghost var now := ticks;
        ghost var before := lastKnown;
        ghost var reported := reports;
        var batch := Poll(query, stopTick);
        assert polls[..from] == earlier[..from];
        TracedExtend(earlier, from, old(lastKnown), query, now, ticks, stopTick, before, old(reports), reported);
        TracedRowsExtend(earlier, from, old(lastKnown), query, now, stopTick, before, old(reports), reported);
        PacedExtend(earlier, from, old(ticks), now, stopTick, polls[|polls| - 1]);
      }
    }
  }
}
