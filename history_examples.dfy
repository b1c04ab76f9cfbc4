/**
 * Concrete calls of `BrokerHistory2`: a one-minute bar built from three
 * ticks, and the inputs on which the loop as written repeats a day, next to
 * the corrected loop on the same inputs.
 */
module HistoryExamples {
  import opened Wrappers
  import opened Ticks
  import opened Resampler
  import opened HistoryProperties

  const NoTicks: TickSeries := Series([], [], [])
  const Blank: Bar := Bar(0, 0, 0, 0, 0, 0, 0)

  // ---- one bar ----

  /** Day 0: one tick in minute 0 and three in minute 1, oldest first. */
  const MinuteDay: TickSeries :=
    Series([30_000, 60_080, 60_090, 60_100], [5, 10_980, 11_000, 10_995], [10, 10_990, 11_010, 11_000])

  function MinuteLoader(): Loader
  {
    d => if d == 0 then Some(MinuteDay) else None
  }

  const OneBar: Request := Request(0, 70_000, 1, 1)

  /** Inside the call: the bar of minute 1 holds the ticks above `ndx`, with volume `vol`. */
  predicate InMinuteOne(w: Walk, ndx: int, vol: int, bar: Bar)
  {
    && Wf(OneBar, w) && w.series == MinuteDay && !w.first
    && w.ndx == ndx && w.prev == 1 && w.count == 0 && w.vol == vol
    && w.out == [bar, Blank]
  }

  lemma MinuteOneStart()
    ensures var o := Step(false, OneBar, MinuteLoader(), Begin(OneBar, -1, 0, true, NoTicks, [Blank, Blank]));
      o.Continue? && InMinuteOne(o.w, 2, 1, Bar(60_100, 11_000, 11_000, 11_000, 11_000, 5, 1))
  {
    assert Search(MinuteLoader(), 70_000, Lowest(OneBar)) == Some(Found(70_000, MinuteDay));
    assert Bucket(TickAt(MinuteDay, 3).dt, 1) == 1;
  }

  lemma MinuteOneGrows(w: Walk, ndx: int, vol: int, bar: Bar)
    requires InMinuteOne(w, ndx, vol, bar) && 1 <= ndx
    ensures var o := Step(false, OneBar, MinuteLoader(), w);
      o.Continue? && InMinuteOne(o.w, ndx - 1, vol + 1, Extend(bar, TickAt(MinuteDay, ndx), vol + 1))
  {
    assert Bucket(TickAt(MinuteDay, ndx).dt, 1) == 1;
  }

  lemma MinuteZeroBreaks(w: Walk, vol: int, bar: Bar)
    requires InMinuteOne(w, 0, vol, bar)
    ensures Step(false, OneBar, MinuteLoader(), w) ==
      Return(1, Open(w, TickAt(MinuteDay, 0), 1))
  {
    assert Bucket(TickAt(MinuteDay, 0).dt, 1) == 0;
  }

  /**
   * Asked for one one-minute bar, the call loads day 0, builds the bar of
   * minute 1 from its three ticks, newest first, and breaks when the tick
   * of minute 0 opens the next bar, leaving the cursor on that tick.
   */
  lemma OneMinuteBar()
    ensures var r := Run(OneBar, MinuteLoader(), Begin(OneBar, -1, 0, true, NoTicks, [Blank, Blank]));
      && r.n == 1
      && r.w.out[0] == Bar(60_100, 10_990, 11_010, 10_990, 11_000, 10, 3)
      && r.w.out[1] == Bar(30_000, 10, 10, 10, 10, 0, 0)
      && r.w.ndx == 0 && r.w.series == MinuteDay
  {
    var req, loader := OneBar, MinuteLoader();
    var w0 := Begin(req, -1, 0, true, NoTicks, [Blank, Blank]);
    MinuteOneStart();
    var w1 := Step(false, req, loader, w0).w;
    var b1 := Bar(60_100, 11_000, 11_000, 11_000, 11_000, 5, 1);
    MinuteOneGrows(w1, 2, 1, b1);
    var w2 := Step(false, req, loader, w1).w;
    var b2 := Extend(b1, TickAt(MinuteDay, 2), 2);
    MinuteOneGrows(w2, 1, 2, b2);
    var w3 := Step(false, req, loader, w2).w;
    var b3 := Extend(b2, TickAt(MinuteDay, 1), 3);
    assert b3 == Bar(60_100, 10_990, 11_010, 10_990, 11_000, 10, 3);
    MinuteZeroBreaks(w3, 3, b3);
    assert Run(req, loader, w0) == Run(req, loader, w1) == Run(req, loader, w2) == Run(req, loader, w3);
  }

  /**
   * `End` only chooses the day: the walk starts at that day's last record,
   * so a raw call with `End` at 50 s still emits the tick of 60.1 s first.
   */
  lemma TicksAfterEnd()
    ensures var r := Run(Request(0, 50_000, 0, 1), MinuteLoader(), Begin(Request(0, 50_000, 0, 1), -1, 0, true, NoTicks, [Blank]));
      r.n == 1 && r.w.out[0].time == 60_100 && r.w.out[0].time > 50_000
  {
    var req := Request(0, 50_000, 0, 1);
    var w0 := Begin(req, -1, 0, true, NoTicks, [Blank]);
    assert Search(MinuteLoader(), 50_000, Lowest(req)) == Some(Found(50_000, MinuteDay));
    assert Step(false, req, MinuteLoader(), w0).Return?;
  }

  // ---- the day search as written ----

  /** Only day 1 has data: one tick. */
  const LoneDay: TickSeries := Series([MsPerDay + 1000], [5], [7])

  function LoneLoader(): Loader
  {
    d => if d == 1 then Some(LoneDay) else None
  }

  /** A call with `End` a little after the start of day 2, not the first after login. */
  function LaterCall(minutes: int): Request
  {
    Request(0, 2 * MsPerDay + 5, minutes, 3)
  }

  function LaterStart(minutes: int): Walk
  {
    Begin(LaterCall(minutes), -1, 0, false, NoTicks, [Blank, Blank, Blank, Blank])
  }

  /** The state the bar-mode call as written comes back to, over and over. */
  predicate Cycling(w: Walk)
  {
    && Wf(LaterCall(1), w)
    && w.ndx == -1 && w.prev == Bucket(LoneDay.dt[0], 1) && w.count == 0 && !w.first
  }

  lemma CyclingStep(w: Walk)
    requires Cycling(w) || w == LaterStart(1)
    ensures Step(true, LaterCall(1), LoneLoader(), w).Continue?
    ensures Cycling(Step(true, LaterCall(1), LoneLoader(), w).w)
  {
    var req, loader := LaterCall(1), LoneLoader();
    assert SearchStart(true, req, w) == MsPerDay + 5;
    assert Search(loader, MsPerDay + 5, Lowest(req)) == Some(Found(MsPerDay + 5, LoneDay));
  }

  lemma {:induction false} CyclingForever(w: Walk, fuel: nat)
    requires Cycling(w)
    ensures RunAsWritten(LaterCall(1), LoneLoader(), w, fuel).Continue?
    decreases fuel
  {
    if fuel > 0 {
      CyclingStep(w);
      CyclingForever(Step(true, LaterCall(1), LoneLoader(), w).w, fuel - 1);
    }
  }

  /**
   * As written, this bar-mode call, whose only day holds one tick, never
   * returns: each reload loads day 1 again, its one tick stays in the bar
   * already open, and no bar is ever completed.
   */
  lemma AsWrittenBarCallNeverReturns(fuel: nat)
    ensures RunAsWritten(LaterCall(1), LoneLoader(), LaterStart(1), fuel).Continue?
  {
    var req, loader, w0 := LaterCall(1), LoneLoader(), LaterStart(1);
    if fuel > 0 {
      CyclingStep(w0);
      CyclingForever(Step(true, req, loader, w0).w, fuel - 1);
    }
  }

  /** Only day 1 has data: two ticks, in minutes 1440 and 1442. */
  const PairDay: TickSeries := Series([MsPerDay + 1000, MsPerDay + 120_000], [5, 6], [7, 8])

  function PairLoader(): Loader
  {
    d => if d == 1 then Some(PairDay) else None
  }

  /** Inside the call on `PairDay`: cursor `ndx`, slot `c` in use, bucket `prev`. */
  predicate PairAt(w: Walk, ndx: int, c: int, prev: int)
  {
    && Wf(LaterCall(1), w) && w.series == PairDay && !w.first
    && w.ndx == ndx && w.count == c && w.prev == prev
  }

  /** A pass with the cursor used up reloads day 1 and adds its minute-1442 tick to slot `c`. */
  lemma PairReloadStep(w: Walk, c: int)
    requires (c == 0 && w == LaterStart(1)) || (1 <= c <= 2 && PairAt(w, -1, c, 1440))
    ensures var o := Step(true, LaterCall(1), PairLoader(), w);
      o.Continue? && PairAt(o.w, 0, c, 1442)
  {
    var req, loader := LaterCall(1), PairLoader();
    assert SearchStart(true, req, w) == MsPerDay + 5;
    assert Search(loader, MsPerDay + 5, Lowest(req)) == Some(Found(MsPerDay + 5, PairDay));
    assert Bucket(PairDay.dt[1], 1) == 1442;
  }

  /** The minute-1440 tick is a lower bucket: it opens slot `c + 1`, the third such one ends the call. */
  lemma PairLowStep(w: Walk, c: int)
    requires 0 <= c <= 2 && PairAt(w, 0, c, 1442)
    ensures var o := Step(true, LaterCall(1), PairLoader(), w);
      && (c < 2 ==> o.Continue? && PairAt(o.w, -1, c + 1, 1440))
      && (c == 2 ==> o.Return? && o.n == 3)
  {
    assert Bucket(PairDay.dt[0], 1) == 1440;
  }

  /** A pass that continues hands the rest of the fuel to the state it leaves. */
  lemma PassOn(req: Request, loader: Loader, w: Walk, fuel: nat)
    requires Wf(req, w) && Step(true, req, loader, w).Continue?
    ensures RunAsWritten(req, loader, w, fuel + 1) == RunAsWritten(req, loader, Step(true, req, loader, w).w, fuel)
  {
  }

  /** A pass that returns ends the call, whatever fuel is left. */
  lemma PassEnds(req: Request, loader: Loader, w: Walk, fuel: nat)
    requires Wf(req, w) && Step(true, req, loader, w).Return?
    ensures RunAsWritten(req, loader, w, fuel + 1) == Step(true, req, loader, w)
  {
  }

  /**
   * From the minute-1442 tick with slot `c` open, the loop as written
   * returns 3 after `5 - 2c` more passes.
   */
  lemma {:induction false} PairEnds(w: Walk, c: int)
    requires 0 <= c <= 2 && PairAt(w, 0, c, 1442)
    ensures var r := RunAsWritten(LaterCall(1), PairLoader(), w, 5 - 2 * c);
      r.Return? && r.n == 3
    decreases 3 - c
  {
    var req, loader := LaterCall(1), PairLoader();
    PairLowStep(w, c);
    var w1 := Step(true, req, loader, w).w;
    if c < 2 {
      PassOn(req, loader, w, 4 - 2 * c);
      PairReloadStep(w1, c + 1);
      PassOn(req, loader, w1, 3 - 2 * c);
      PairEnds(Step(true, req, loader, w1).w, c + 1);
    } else {
      PassEnds(req, loader, w, 0);
    }
  }

  /**
   * As written, the same call on a day with ticks in two buckets does
   * return: after each reload the re-walked minute-1440 tick is a lower
   * bucket than the bar already open, so bars are completed from ticks
   * visited again.
   */
  lemma AsWrittenPairCallReturns()
    ensures RunAsWritten(LaterCall(1), PairLoader(), LaterStart(1), 6).Return?
    ensures RunAsWritten(LaterCall(1), PairLoader(), LaterStart(1), 6).n == 3
  {
    PairReloadStep(LaterStart(1), 0);
    PassOn(LaterCall(1), PairLoader(), LaterStart(1), 5);
    PairEnds(Step(true, LaterCall(1), PairLoader(), LaterStart(1)).w, 0);
  }

  /** The search below day 1 finds nothing: no earlier day loads. */
  lemma NothingBelowDayOne(req: Request)
    ensures Search(LoneLoader(), 5, Lowest(req)) == None
  {
  }

  /** The corrected loop, on the same call, uses day 1 once and returns 0 when no earlier day loads. */
  lemma CorrectedBarCallReturns()
    ensures Run(LaterCall(1), LoneLoader(), LaterStart(1)).n == 0
  {
    var req, loader, w0 := LaterCall(1), LoneLoader(), LaterStart(1);
    assert Search(loader, MsPerDay + 5, Lowest(req)) == Some(Found(MsPerDay + 5, LoneDay));
    var o := Step(false, req, loader, w0);
    assert o.Continue? && o.w.ndx == -1 && o.w.from == 5;
    NothingBelowDayOne(req);
    assert Step(false, req, loader, o.w).Return?;
  }

  /** Raw mode as written: `k` copies of the lone tick written and the cursor used up again. */
  predicate Repeating(w: Walk, k: int)
  {
    && Wf(LaterCall(0), w)
    && w.ndx == -1 && w.count == k && !w.first
    && forall j | 0 <= j < k :: w.out[j] == RawBar(TickAt(LoneDay, 0))
  }

  lemma RepeatingStep(w: Walk, k: int)
    requires Repeating(w, k) || (k == 0 && w == LaterStart(0))
    requires 0 <= k < 3
    ensures var o := Step(true, LaterCall(0), LoneLoader(), w);
      && (k < 2 ==> o.Continue? && Repeating(o.w, k + 1))
      && (k == 2 ==> o.Return? && o.n == 3 && forall j | 0 <= j < 3 :: o.w.out[j] == RawBar(TickAt(LoneDay, 0)))
  {
    var req, loader := LaterCall(0), LoneLoader();
    assert SearchStart(true, req, w) == MsPerDay + 5;
    assert Search(loader, MsPerDay + 5, Lowest(req)) == Some(Found(MsPerDay + 5, LoneDay));
  }

  /** From `k` copies written, the loop as written ends after `3 - k` more iterations with three copies. */
  lemma {:induction false} RepeatingEnds(w: Walk, k: int)
    requires Repeating(w, k) || (k == 0 && w == LaterStart(0))
    requires 0 <= k < 3
    ensures var r := RunAsWritten(LaterCall(0), LoneLoader(), w, 3 - k);
      && r.Return? && r.n == 3
      && r.w.out[0] == r.w.out[1] == r.w.out[2] == RawBar(TickAt(LoneDay, 0))
    decreases 3 - k
  {
    RepeatingStep(w, k);
    if k < 2 {
      RepeatingEnds(Step(true, LaterCall(0), LoneLoader(), w).w, k + 1);
    }
  }

  /**
   * As written, a raw-mode call that reloads twice emits the one tick of
   * day 1 three times.
   */
  lemma AsWrittenRawCallRepeatsDay()
    ensures var r := RunAsWritten(LaterCall(0), LoneLoader(), LaterStart(0), 3);
      && r.Return? && r.n == 3
      && r.w.out[0] == r.w.out[1] == r.w.out[2] == RawBar(TickAt(LoneDay, 0))
  {
    RepeatingEnds(LaterStart(0), 0);
  }
}
