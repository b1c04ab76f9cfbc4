/**
 * The backward resampler of `BrokerHistory2`, as a pure step machine.
 *
 * One `Walk` value holds everything one call of `BrokerHistory2` reads and
 * writes: the global cursor state (`mCurrentTickNdx`, `mPrevMinutes`,
 * `mTickVolume`, `mIs1stAfterBrokerLogin`, the current day's vectors), the
 * call's locals (`tickCount`, the search start) and the caller's output
 * buffer. Besides these it carries ghost-like bookkeeping that the source
 * does not have and that only the proofs read: the ticks visited during the
 * call, where the current day's part of them begins, and the ticks that
 * make up each bar.
 *
 * `Step` is one pass through the body of the `for (;;)` loop; `Run` iterates
 * it until the call returns. `Step(true, ..)` is the loop as written, where
 * every day search starts again at `End - 1`; `Step(false, ..)` continues the
 * search below the day loaded last, and `Run` uses that corrected form.
 *
 * Time is in integer milliseconds since the Unix epoch, prices are integer
 * tick counts, and days are numbered from the epoch.
 */
module Resampler {
  import opened Wrappers
  import opened Ticks

  const MsPerDay: int := 86_400_000
  const MsPerMinute: int := 60_000
  const IntMin: int := -0x8000_0000
  const IntMax: int := 0x7fff_ffff
  /** How many days below `Start` the day search still looks. */
  const SearchDays: int := 10

  /** One entry of Zorro's `T6` output buffer. */
  datatype Bar = Bar(time: int, open: int, high: int, low: int, close: int, spread: int, vol: int)

  /** The arguments of `BrokerHistory2` that the resampler reads. */
  datatype Request = Request(start: int, end: int, minutes: int, nTicks: int)

  /** The day file loader: the decoded day with this number, or none. */
  type Loader = int -> Option<TickSeries>

  /** A day that loaded, and the search time that named it. */
  datatype Found = Found(endRun: int, day: TickSeries)

  datatype Walk = Walk(
    ndx: int,                  // mCurrentTickNdx
    prev: int,                 // mPrevMinutes
    vol: int,                  // mTickVolume
    first: bool,               // mIs1stAfterBrokerLogin
    series: TickSeries,        // mSerialArrays
    from: int,                 // where the next day search starts
    count: int,                // tickCount, also the output slot in use
    out: seq<Bar>,             // the caller's Ticks buffer
    visited: seq<Tick>,        // ticks taken into the output during this call
    mark: int,                 // index in visited where the current day begins
    top: int,                  // the current day's records below `top` are the ones visited from it
    loads: nat,                // days loaded during this call
    groups: seq<seq<Tick>>)    // bar mode: the ticks taken into each slot

  /** `Continue` passes to the next loop iteration; `Return` ends the call. */
  datatype Outcome = Continue(w: Walk) | Return(n: int, w: Walk)

  function Max(a: int, b: int): int { if a < b then b else a }
  function Min(a: int, b: int): int { if a < b then a else b }

  /** `int` narrowing of an integer: two's complement wrap-around to 32 bits. */
  function Int32(x: int): (r: int)
    ensures IntMin <= r <= IntMax
    ensures (r - x) % 0x1_0000_0000 == 0
    ensures IntMin <= x <= IntMax ==> r == x
  {
    (x - IntMin) % 0x1_0000_0000 + IntMin
  }

  /** `TickMinutes * 60000` must not overflow `int`. */
  predicate ValidRequest(req: Request)
  {
    IntMin <= req.minutes * MsPerMinute <= IntMax
  }

  /** The divisor `TickMinutes * 60000`, converted to `uint64_t` for the division. */
  function Divisor(minutes: int): (d: int)
    requires IntMin <= minutes * MsPerMinute <= IntMax
    ensures 0 < d < U64Bound <==> minutes != 0
    ensures 0 <= minutes ==> d == minutes * MsPerMinute
  {
    (minutes * MsPerMinute) % U64Bound
  }

  /** `epocMinutes`: the bar number of a timestamp, narrowed to `int`. */
  function Bucket(dt: u64, minutes: int): int
    requires minutes != 0 && IntMin <= minutes * MsPerMinute <= IntMax
  {
    Int32(dt / Divisor(minutes))
  }

  /** How many output slots a call may write. */
  function Room(req: Request): int
  {
    if req.minutes == 0 then Max(req.nTicks, 1) else Max(req.nTicks, 0) + 1
  }

  /** The largest count a call may return. */
  function Limit(req: Request): int
  {
    if req.minutes == 0 then Max(req.nTicks, 1) else Max(req.nTicks, 0)
  }

  /** The day search goes down to `Start - 10` days. */
  function Lowest(req: Request): int
  {
    req.start - SearchDays * MsPerDay
  }

  /** A raw tick: all four prices are the ask, the spread a `uint64_t` difference. */
  function RawBar(t: Tick): Bar
  {
    Bar(t.dt, t.ask, t.ask, t.ask, t.ask, (t.ask - t.bid) % U64Bound, 1)
  }

  /** A bar opened on its newest tick; `fVal` keeps what the slot held. */
  function OpenBar(t: Tick, held: Bar): Bar
  {
    Bar(t.dt, t.ask, t.ask, t.ask, t.ask, held.spread, 0)
  }

  /** A bar grown backwards by one older tick. */
  function Extend(b: Bar, t: Tick, vol: int): Bar
  {
    b.(high := Max(b.high, t.ask), low := Min(b.low, t.ask), open := t.ask,
       spread := t.ask - t.bid, vol := vol)
  }

  // ---- the day search ----

  /** `e` is one of the search times `from`, `from - 1 day`, ... down to `lowest`. */
  predicate Candidate(from: int, lowest: int, e: int)
  {
    lowest <= e <= from && (from - e) % MsPerDay == 0
  }

  /** The day that search time `e` names does not load. */
  predicate Misses(loader: Loader, e: int)
  {
    loader(e / MsPerDay).None?
  }

  lemma CandidateStep(from: int, lowest: int, e: int)
    requires Candidate(from, lowest, e) && e != from
    ensures Candidate(from - MsPerDay, lowest, e)
  {
    var q := (from - e) / MsPerDay;
    assert from - e == q * MsPerDay;
    assert 1 <= q;
    assert from - MsPerDay - e == (q - 1) * MsPerDay;
  }

  /** The inner `for` loop of `BrokerHistory2`: the first search time, going down, whose day loads. */
  function Search(loader: Loader, from: int, lowest: int): (r: Option<Found>)
    decreases from - lowest
    ensures r.Some? ==> Candidate(from, lowest, r.value.endRun)
    ensures r.Some? ==> loader(r.value.endRun / MsPerDay) == Some(r.value.day)
    ensures r.Some? ==> forall e :: Candidate(from, lowest, e) && r.value.endRun < e ==> Misses(loader, e)
    ensures r.None? ==> forall e :: Candidate(from, lowest, e) ==> Misses(loader, e)
  {
    if from < lowest then None
    else match loader(from / MsPerDay)
      case Some(s) => Some(Found(from, s))
      case None =>
        var r := Search(loader, from - MsPerDay, lowest);
        assert forall e :: Candidate(from, lowest, e) && e != from ==> Candidate(from - MsPerDay, lowest, e) by {
          forall e | Candidate(from, lowest, e) && e != from
            ensures Candidate(from - MsPerDay, lowest, e)
          {
            CandidateStep(from, lowest, e);
          }
        }
        r
  }

  // ---- one iteration ----

  /**
   * What a state must satisfy for the loop body to index safely, and what
   * the bar bookkeeping needs: the cursor is -1 or on a record, the slot in
   * use is inside the buffer, and in bar mode a started bar has its group.
   */
  predicate Wf(req: Request, w: Walk)
  {
    && ValidRequest(req)
    && -1 <= w.ndx < |w.series.dt|
    && 0 <= w.count < |w.out| && Room(req) <= |w.out|
    && (w.count == 0 || w.count < req.nTicks)
    && (req.minutes != 0 ==>
          && w.count <= |w.groups| <= w.count + 1
          && (w.prev != IntMax ==> w.count < req.nTicks && |w.groups| == w.count + 1))
  }

  /** The measure that the corrected loop decreases, with the cursor. */
  function Rank(req: Request, w: Walk): nat
  {
    if w.from < Lowest(req) then 0 else w.from - Lowest(req) + 1
  }

  /** Where a day search starts: as written, always at `End` or `End - 1`. */
  function SearchStart(asWritten: bool, req: Request, w: Walk): int
  {
    if asWritten then (if w.first then req.end else req.end - MsPerDay) else w.from
  }

  /** `if (mCurrentTickNdx < 0)`: look for an earlier day and put the cursor on its last record. */
  function Reload(asWritten: bool, req: Request, loader: Loader, w: Walk): (r: Walk)
    requires Wf(req, w)
    ensures Wf(req, r)
    ensures 0 <= w.ndx ==> r == w
    ensures w.ndx < 0 && r.ndx < 0 ==> r.from == w.from || |r.series.dt| == 0
    ensures !asWritten ==> r.from == w.from || Lowest(req) <= r.from + MsPerDay <= w.from
    ensures r.out == w.out && r.count == w.count && r.visited == w.visited && r.groups == w.groups
    ensures r.prev == w.prev && r.vol == w.vol && r.first == w.first
    ensures w.ndx < 0 ==> match Search(loader, SearchStart(asWritten, req, w), Lowest(req))
      case None => r == w
      case Some(f) =>
        && r.series == f.day && r.ndx == |f.day.dt| - 1 && r.from == f.endRun - MsPerDay
        && r.mark == |w.visited| && r.top == |f.day.dt| && r.loads == w.loads + 1
    ensures w.loads <= r.loads
    ensures r.loads == w.loads ==> r.series == w.series && r.ndx == w.ndx && r.mark == w.mark && r.top == w.top
  {
    if 0 <= w.ndx then w
    else match Search(loader, SearchStart(asWritten, req, w), Lowest(req))
      case None => w
      case Some(f) =>
        w.(series := f.day, ndx := |f.day.dt| - 1, from := f.endRun - MsPerDay, mark := |w.visited|,
           top := |f.day.dt|, loads := w.loads + 1)
  }

  /** Raw mode: emit the tick under the cursor, then stop or move down. */
  function RawStep(req: Request, w: Walk): (o: Outcome)
    requires Wf(req, w) && 0 <= w.ndx && req.minutes == 0
    ensures o.Continue? ==> Wf(req, o.w) && o.w.ndx == w.ndx - 1
    ensures o.Return? ==> 1 <= o.n <= Limit(req) && 0 <= o.w.ndx < |o.w.series.dt|
    ensures o.Return? ==> o.n == w.count + 1 && o.w.ndx == w.ndx
    ensures o.w.out == w.out[w.count := RawBar(TickAt(w.series, w.ndx))] && o.w.count == w.count + 1
    ensures o.w.visited == w.visited + [TickAt(w.series, w.ndx)]
    ensures o.w.from == w.from && |o.w.out| == |w.out|
    ensures o.w.series == w.series && o.w.mark == w.mark && o.w.top == w.top && o.w.loads == w.loads
  {
    var t := TickAt(w.series, w.ndx);
    var w2 := w.(out := w.out[w.count := RawBar(t)], count := w.count + 1, visited := w.visited + [t]);
    if req.nTicks <= w2.count || t.dt <= req.start then Return(w2.count, w2)
    else Continue(w2.(ndx := w.ndx - 1))
  }

  /** Bar mode: add the tick under the cursor to the slot in use, updating the bucket. */
  function Grow(w: Walk, t: Tick, b: int): (r: Walk)
    requires 0 <= w.count < |w.out|
  {
    w.(out := w.out[w.count := Extend(w.out[w.count], t, w.vol + 1)], vol := w.vol + 1, prev := b,
       visited := w.visited + [t],
       groups := if |w.groups| == w.count + 1 then w.groups[..w.count] + [w.groups[w.count] + [t]] else w.groups)
  }

  /** Bar mode: move to slot `c` and open a new bar there on tick `t`. */
  function Open(w: Walk, t: Tick, c: int): (r: Walk)
    requires 0 <= c < |w.out| && c <= |w.groups|
  {
    w.(count := c, out := w.out[c := OpenBar(t, w.out[c])], vol := 0, groups := w.groups[..c] + [[]])
  }

  /** Bar mode: open a new bar when the bucket drops, then stop or grow the bar and move down. */
  function BarStep(req: Request, w: Walk): (o: Outcome)
    requires Wf(req, w) && 0 <= w.ndx && req.minutes != 0
    ensures o.Continue? ==> Wf(req, o.w) && o.w.ndx == w.ndx - 1
    ensures o.Return? ==> 0 <= o.n <= Limit(req) && 0 <= o.w.ndx < |o.w.series.dt|
    ensures o.w.from == w.from && |o.w.out| == |w.out|
    ensures o.w.series == w.series && o.w.mark == w.mark && o.w.top == w.top && o.w.loads == w.loads
  {
    var t := TickAt(w.series, w.ndx);
    var b := Bucket(t.dt, req.minutes);
    if b < w.prev then
      var c := if w.prev != IntMax then w.count + 1 else w.count;
      var w2 := Open(w, t, c);
      if req.nTicks <= c || t.dt <= req.start then Return(c, w2)
      else Continue(Grow(w2, t, b).(ndx := w.ndx - 1))
    else
      Continue(Grow(w, t, b).(ndx := w.ndx - 1))
  }

  /** One pass through the body of the `for (;;)` loop of `BrokerHistory2`. */
  function Step(asWritten: bool, req: Request, loader: Loader, w: Walk): (o: Outcome)
    requires Wf(req, w)
    ensures o.Continue? ==> Wf(req, o.w) && !o.w.first
    ensures o.Return? ==> 0 <= o.n <= Limit(req) && -1 <= o.w.ndx < |o.w.series.dt|
    ensures !asWritten && o.Continue? ==>
              Rank(req, o.w) < Rank(req, w) || (Rank(req, o.w) == Rank(req, w) && o.w.ndx < w.ndx)
    ensures |o.w.out| == |w.out|
    ensures w.loads <= o.w.loads
    ensures o.w.loads == w.loads ==> o.w.series == w.series && o.w.mark == w.mark && o.w.top == w.top
  {
    var w1 := Reload(asWritten, req, loader, w).(first := false);
    if w1.ndx == -1 then Return(0, w1)
    else if req.minutes == 0 then RawStep(req, w1)
    else BarStep(req, w1)
  }

  /** The state at entry to `BrokerHistory2`: `mPrevMinutes` is reset and nothing is counted yet. */
  function Begin(req: Request, ndx: int, vol: int, first: bool, series: TickSeries, out: seq<Bar>): (w: Walk)
  {
    Walk(ndx, IntMax, vol, first, series, if first then req.end else req.end - MsPerDay,
         0, out, [], 0, ndx + 1, 0, [])
  }

  /** A whole call of `BrokerHistory2`, with the corrected day search. */
  function Run(req: Request, loader: Loader, w: Walk): (r: Outcome)
    requires Wf(req, w)
    decreases Rank(req, w), w.ndx + 1
    ensures r.Return? && 0 <= r.n <= Limit(req)
    ensures -1 <= r.w.ndx < |r.w.series.dt| && |r.w.out| == |w.out|
  {
    match Step(false, req, loader, w)
    case Return(n, w1) => Return(n, w1)
    case Continue(w1) => Run(req, loader, w1)
  }

  /**
   * At most `fuel` iterations of the loop as written: `Continue` means the
   * call had not returned yet.
   */
  function RunAsWritten(req: Request, loader: Loader, w: Walk, fuel: nat): (r: Outcome)
    requires Wf(req, w)
    decreases fuel
    ensures r.Continue? ==> Wf(req, r.w)
    ensures r.Return? ==> 0 <= r.n <= Limit(req) && -1 <= r.w.ndx < |r.w.series.dt|
    ensures |r.w.out| == |w.out|
  {
    if fuel == 0 then Continue(w)
    else match Step(true, req, loader, w)
      case Return(n, w1) => Return(n, w1)
      case Continue(w1) => RunAsWritten(req, loader, w1, fuel - 1)
  }
}
