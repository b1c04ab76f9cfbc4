/**
 * The plugin's global state and the two entry points that change it:
 * `BrokerLogin`, which builds the cache path and resets the cursor, and
 * `BrokerHistory2`, which walks the cached ticks backwards from `End` and
 * fills the caller's buffer.
 *
 * `History` runs the loop of `BrokerHistory2` on the object's fields, with
 * the day search continued below the day loaded last; each iteration is
 * shown to be one `Step` of the corrected machine, so the call as a whole
 * ends in `Call(..)` of the entry state, about which `HistoryProperties`
 * proves what the output holds.
 */
module Broker {
  import opened Wrappers
  import opened Ticks
  import opened Resampler
  import opened HistoryProperties

  /** `APPDATA\Spotware\Cache\<User>\BacktestingCache\V1\<Password>`. */
  function CachePath(appData: string, user: string, password: string): (p: string)
    ensures |p| == |appData| + |user| + |password| + 37
    ensures p[..|appData|] == appData && p[|p| - |password|..] == password
  {
    appData + "\\Spotware\\Cache\\" + user + "\\BacktestingCache\\V1\\" + password
  }

  class Session {
    var cachePath: string     // mCachePath
    var ndx: int              // mCurrentTickNdx
    var tickVolume: int       // mTickVolume
    var prevMinutes: int      // mPrevMinutes
    var first: bool           // mIs1stAfterBrokerLogin
    var series: TickSeries    // mSerialArrays: the day loaded last

    /** The cursor is -1 or on a record of the day loaded last. */
    predicate Valid()
      reads this
    {
      -1 <= ndx < |series.dt|
    }

    /** The globals as the DLL is loaded: all zero, no day loaded. */
    constructor ()
      ensures cachePath == "" && ndx == 0 && tickVolume == 0 && prevMinutes == 0 && !first
      ensures series == Series([], [], [])
    {
      cachePath := "";
      ndx := 0;
      tickVolume := 0;
      prevMinutes := 0;
      first := false;
      series := Series([], [], []);
    }

    /**
     * `BrokerLogin`: no user means logging out, which changes nothing and
     * returns 1. Otherwise the cache path is built from `APPDATA`, the user
     * (the broker) and the password (the account), the cursor is reset so
     * that the next call searches from `End`, and the result says whether
     * the path is a directory.
     */
    method Login(user: Option<string>, password: string, appData: string, isDirectory: string -> bool)
      returns (r: int)
      modifies this
      ensures user.None? ==> r == 1 && unchanged(this)
      ensures user.Some? ==>
        && cachePath == CachePath(appData, user.value, password)
        && ndx == -1 && prevMinutes == 0 && first
        && tickVolume == old(tickVolume) && series == old(series)
        && r == (if isDirectory(cachePath) then 1 else 0)
      ensures user.Some? ==> Valid()
    {
      if user.None? {
        return 1;
      }
      cachePath := CachePath(appData, user.value, password);
      ndx := -1;
      prevMinutes := 0;
      first := true;
      r := if isDirectory(cachePath) then 1 else 0;
    }

    /** The fields agree with the machine state `w`. */
    ghost predicate Mirrors(w: Walk, count: int, ticks: array<Bar>)
      reads this, ticks
    {
      && ndx == w.ndx && prevMinutes == w.prev && tickVolume == w.vol && first == w.first
      && series == w.series && count == w.count && ticks[..] == w.out
    }

    /**
     * `if (mCurrentTickNdx < 0)`: search down from `from` for a day that
     * loads and put the cursor on its last record; `from` moves below it.
     */
    method LoadEarlierDay(req: Request, loader: Loader, from: int, ghost w: Walk) returns (from': int)
      requires Wf(req, w) && ndx == w.ndx && series == w.series && from == w.from
      modifies this
      ensures var r := Reload(false, req, loader, w); ndx == r.ndx && series == r.series && from' == r.from
      ensures cachePath == old(cachePath) && tickVolume == old(tickVolume)
      ensures prevMinutes == old(prevMinutes) && first == old(first)
    {
      from' := from;
      if 0 <= ndx {
        return;
      }
      var lowest := Lowest(req);
      var endRun := from;
      while endRun >= lowest
        invariant Search(loader, endRun, lowest) == Search(loader, from, lowest)
        invariant ndx == old(ndx) && series == old(series) && from' == from
        decreases endRun - lowest
      {
        var day := loader(endRun / MsPerDay);
        if day.Some? {
          series := day.value;
          ndx := |series.dt| - 1;
          from' := endRun - MsPerDay;
          return;
        }
        endRun := endRun - MsPerDay;
      }
    }

    /** Raw mode: one iteration on the record under the cursor. */
    method RawIteration(req: Request, count: int, ticks: array<Bar>, ghost w: Walk) returns (count': int, stop: bool)
      requires Wf(req, w) && 0 <= w.ndx && req.minutes == 0 && Mirrors(w, count, ticks)
      modifies this, ticks
      ensures var o := RawStep(req, w); stop == o.Return? && Mirrors(o.w, count', ticks)
      ensures cachePath == old(cachePath)
    {
      var t := TickAt(series, ndx);
      ticks[count] := RawBar(t);
      count' := count + 1;
      stop := req.nTicks <= count' || t.dt <= req.start;
      if !stop {
        ndx := ndx - 1;
      }
    }

    /** Bar mode, the bucket dropped: move to slot `c` and open a bar there on `t`. */
    method OpenSlot(count: int, ticks: array<Bar>, t: Tick, c: int, ghost w: Walk)
      requires 0 <= c < |w.out| && c <= |w.groups| && Mirrors(w, count, ticks)
      modifies this, ticks
      ensures Mirrors(Open(w, t, c), c, ticks)
      ensures cachePath == old(cachePath)
    {
      ticks[c] := OpenBar(t, ticks[c]);
      tickVolume := 0;
    }

    /** Bar mode: grow the bar in use by `t`, record its bucket and move the cursor down. */
    method GrowSlot(count: int, ticks: array<Bar>, t: Tick, b: int, ghost w: Walk)
      requires 0 <= count < |w.out| && Mirrors(w, count, ticks)
      modifies this, ticks
      ensures Mirrors(Grow(w, t, b).(ndx := w.ndx - 1), count, ticks)
      ensures cachePath == old(cachePath)
    {
      ticks[count] := Extend(ticks[count], t, tickVolume + 1);
      tickVolume := tickVolume + 1;
      prevMinutes := b;
      ndx := ndx - 1;
    }

    /** Bar mode: one iteration on the record under the cursor. */
    method BarIteration(req: Request, count: int, ticks: array<Bar>, ghost w: Walk) returns (count': int, stop: bool)
      requires Wf(req, w) && 0 <= w.ndx && req.minutes != 0 && Mirrors(w, count, ticks)
      modifies this, ticks
      ensures var o := BarStep(req, w); stop == o.Return? && Mirrors(o.w, count', ticks)
      ensures cachePath == old(cachePath)
    {
      var t := TickAt(series, ndx);
      var b := Bucket(t.dt, req.minutes);
      count' := if prevMinutes != IntMax then count + 1 else count;
      BarStepCases(req, w, t, b, count');
      stop := false;
      if b < prevMinutes {
        OpenSlot(count, ticks, t, count', w);
        if req.nTicks <= count' || t.dt <= req.start {
          stop := true;
        } else {
          GrowSlot(count', ticks, t, b, Open(w, t, count'));
        }
      } else {
        count' := count;
        GrowSlot(count, ticks, t, b, w);
      }
    }

    /** One pass through the body of the `for (;;)` loop. */
    method Iteration(req: Request, loader: Loader, count: int, from: int, ticks: array<Bar>, ghost w: Walk)
      returns (count': int, from': int, n: int, stop: bool)
      requires Wf(req, w) && Mirrors(w, count, ticks) && from == w.from
      modifies this, ticks
      ensures var o := Step(false, req, loader, w);
        && stop == o.Return? && Mirrors(o.w, count', ticks) && from' == o.w.from
        && (stop ==> n == o.n)
      ensures cachePath == old(cachePath)
    {
      from' := LoadEarlierDay(req, loader, from, w);
      first := false;
      ghost var w1 := Reload(false, req, loader, w).(first := false);
      count' := count;
      if ndx == -1 {
        return count', from', 0, true;
      }
      if req.minutes == 0 {
        count', stop := RawIteration(req, count, ticks, w1);
      } else {
        count', stop := BarIteration(req, count, ticks, w1);
      }
      n := count';
    }

    /**
     * `BrokerHistory2`: fills `ticks` backwards from `End` and returns the
     * count, leaving the cursor where the next call goes on. The new state
     * and the buffer are those of `Call` on the state at entry, and no slot
     * at or above `Room(req)` is written.
     */
    method History(req: Request, loader: Loader, ticks: array<Bar>) returns (n: int)
      requires Valid() && ValidRequest(req) && Room(req) <= ticks.Length
      modifies this, ticks
      ensures Valid()
      ensures var r := Call(req, loader, old(ndx), old(tickVolume), old(first), old(series), old(ticks[..]));
        && n == r.n && ticks[..] == r.w.out
        && ndx == r.w.ndx && prevMinutes == r.w.prev && tickVolume == r.w.vol
        && first == r.w.first && series == r.w.series
      ensures 0 <= n <= Limit(req)
      ensures forall k | Room(req) <= k < ticks.Length :: ticks[k] == old(ticks[k])
      ensures cachePath == old(cachePath)
    {
      ghost var w := Begin(req, ndx, tickVolume, first, series, ticks[..]);
      ghost var final := Run(req, loader, w);
      assert final == Call(req, loader, ndx, tickVolume, first, series, ticks[..]);
      RunWritesWithin(req, loader, w);
      var count := 0;
      prevMinutes := IntMax;
      var from := if first then req.end else req.end - MsPerDay;
      while true
        invariant Wf(req, w) && Mirrors(w, count, ticks) && from == w.from
        invariant Run(req, loader, w) == final
        invariant cachePath == old(cachePath)
        decreases Rank(req, w), w.ndx + 1
      {
        ghost var o := Step(false, req, loader, w);
        var stop;
        count, from, n, stop := Iteration(req, loader, count, from, ticks, w);
        if stop {
          assert final == o;
          return;
        }
        w := o.w;
      }
    }
  }
}
