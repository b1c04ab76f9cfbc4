/**
 * What one call of `BrokerHistory2` (the corrected `Resampler.Run`) promises:
 * raw ticks are the records under the cursor in visit order (newest first
 * on a day in ascending time order); bars summarise
 * runs of ticks that share a bucket; the count stays within `NTicks`; a
 * call that runs out of days returns 0; after a `break` the cursor stays on
 * the record consumed last.
 *
 * The proofs go through an invariant `Inv` of the loop state that every
 * `Step` keeps, and a description `Done` of the state a call returns in.
 */
module HistoryProperties {
  import opened Wrappers
  import opened Ticks
  import opened Resampler

  // ---- reference definitions ----

  function Last<T>(s: seq<T>): T
    requires s != []
  {
    s[|s| - 1]
  }

  /** The largest ask of a group of ticks. */
  function MaxAsk(g: seq<Tick>): (r: int)
    requires g != []
    ensures forall i | 0 <= i < |g| :: g[i].ask <= r
    ensures exists i | 0 <= i < |g| :: g[i].ask == r
  {
    if |g| == 1 then g[0].ask
    else
      var m := MaxAsk(g[..|g| - 1]);
      assert forall i | 0 <= i < |g| - 1 :: g[..|g| - 1][i] == g[i];
      Max(m, Last(g).ask)
  }

  /** The smallest ask of a group of ticks. */
  function MinAsk(g: seq<Tick>): (r: int)
    requires g != []
    ensures forall i | 0 <= i < |g| :: r <= g[i].ask
    ensures exists i | 0 <= i < |g| :: g[i].ask == r
  {
    if |g| == 1 then g[0].ask
    else
      var m := MinAsk(g[..|g| - 1]);
      assert forall i | 0 <= i < |g| - 1 :: g[..|g| - 1][i] == g[i];
      Min(m, Last(g).ask)
  }

  /**
   * The bar that a group of ticks, newest first, stands for: time and close
   * of the newest tick, open and spread of the oldest, high and low the
   * extreme asks, and one unit of volume per tick.
   */
  function Summary(g: seq<Tick>): Bar
    requires g != []
  {
    Bar(g[0].dt, Last(g).ask, MaxAsk(g), MinAsk(g), g[0].ask, Last(g).ask - Last(g).bid, |g|)
  }

  /** The ticks of all groups, one group after the other. */
  function Concat(gs: seq<seq<Tick>>): seq<Tick>
  {
    if gs == [] then [] else Concat(gs[..|gs| - 1]) + Last(gs)
  }

  /** No visited tick falls in bucket `INT_MAX`, the value that marks "no bar yet". */
  predicate NoSentinel(req: Request, ticks: seq<Tick>)
    requires req.minutes != 0 && ValidRequest(req)
  {
    forall i | 0 <= i < |ticks| :: Bucket(ticks[i].dt, req.minutes) != IntMax
  }

  /**
   * Within a bar the bucket never drops from one tick to the next older
   * one, and from the oldest tick of a bar to the newest tick of the next
   * bar it does drop.
   */
  predicate GroupShape(req: Request, gs: seq<seq<Tick>>)
    requires req.minutes != 0 && ValidRequest(req)
  {
    && (forall k, j | 0 <= k < |gs| && 0 < j < |gs[k]| ::
          Bucket(gs[k][j - 1].dt, req.minutes) <= Bucket(gs[k][j].dt, req.minutes))
    && (forall k | 0 < k < |gs| && gs[k] != [] && gs[k - 1] != [] ::
          Bucket(gs[k][0].dt, req.minutes) < Bucket(Last(gs[k - 1]).dt, req.minutes))
  }

  // ---- the loop invariant ----

  /**
   * The ticks visited since the current day was loaded (or since the call
   * began) are its records below `w.top`, one after the other downwards.
   */
  predicate DayRun(w: Walk)
  {
    && 0 <= w.mark <= |w.visited|
    && |w.visited| - w.mark <= w.top <= |w.series.dt|
    && forall k | w.mark <= k < |w.visited| :: w.visited[k] == TickAt(w.series, w.top - 1 - (k - w.mark))
  }

  /** ... and they are exactly the records from index `cur` up to `w.top`. */
  predicate Trail(w: Walk, cur: int)
  {
    && DayRun(w)
    && 0 <= cur && cur + |w.visited| - w.mark == w.top
  }

  /** Raw mode: one output slot per visited tick, none of them at or before `Start`. */
  predicate RawInv(req: Request, w: Walk)
    requires Wf(req, w)
  {
    && |w.visited| == w.count
    && (forall k | 0 <= k < |w.visited| :: w.out[k] == RawBar(w.visited[k]))
    && (forall k | 0 <= k < |w.visited| :: req.start < w.visited[k].dt)
  }

  /**
   * Bar mode, when no tick marks bucket `INT_MAX`: the groups are the
   * visited ticks cut at the bucket drops, and `prev` is the bucket of the
   * tick visited last.
   */
  predicate Chain(req: Request, gs: seq<seq<Tick>>, visited: seq<Tick>, prev: int)
    requires req.minutes != 0 && ValidRequest(req)
  {
    && Concat(gs) == visited
    && (prev == IntMax <==> visited == [])
    && (visited != [] ==> prev == Bucket(Last(visited).dt, req.minutes))
    && GroupShape(req, gs)
  }

  predicate Chained(req: Request, w: Walk)
    requires req.minutes != 0 && ValidRequest(req)
  {
    Chain(req, w.groups, w.visited, w.prev)
  }

  /**
   * Bar mode: every slot below the one in use holds the summary of its
   * group, so does the slot in use once its bar is started, and every bar
   * began with a tick after `Start`.
   */
  predicate BarSlots(req: Request, w: Walk)
    requires 0 <= w.count < |w.out| && w.count <= |w.groups|
  {
    && (forall k | 0 <= k < w.count :: w.groups[k] != [] && w.out[k] == Summary(w.groups[k]))
    && (|w.groups| == w.count + 1 ==>
          w.groups[w.count] != [] && w.out[w.count] == Summary(w.groups[w.count]) && w.vol == |w.groups[w.count]|)
    && (forall k | 0 <= k < |w.groups| :: w.groups[k] != [] ==> req.start < w.groups[k][0].dt)
  }

  predicate BarInv(req: Request, w: Walk)
    requires Wf(req, w) && req.minutes != 0
  {
    && BarSlots(req, w)
    && (NoSentinel(req, w.visited) ==> Chained(req, w))
  }

  /** What holds at the top of every iteration of the `for (;;)` loop. */
  predicate Inv(req: Request, w: Walk)
  {
    && Wf(req, w)
    && Trail(w, w.ndx + 1)
    && (0 < w.loads ==> w.top == |w.series.dt|)
    && (req.minutes == 0 ==> RawInv(req, w))
    && (req.minutes != 0 ==> BarInv(req, w))
  }

  // ---- the state a call returns in ----

  /** Raw mode at return. */
  predicate RawDone(req: Request, n: int, w: Walk)
    requires -1 <= w.ndx < |w.series.dt|
  {
    && |w.visited| <= |w.out|
    && (forall k | 0 <= k < |w.visited| :: w.out[k] == RawBar(w.visited[k]))
    && (forall k | 0 <= k < |w.visited| - 1 :: req.start < w.visited[k].dt)
    && (0 <= w.ndx ==>
          && n == |w.visited| && 1 <= n
          && (req.nTicks <= n || w.visited[n - 1].dt <= req.start)
          && w.mark < |w.visited| && Trail(w, w.ndx))
  }

  /** Bar mode at return. */
  predicate BarDone(req: Request, n: int, w: Walk)
    requires -1 <= w.ndx < |w.series.dt|
    requires req.minutes != 0 && ValidRequest(req)
  {
    0 <= w.ndx ==>
      && n == w.count && 0 <= n < |w.out| && |w.groups| == n + 1
      && (forall k | 0 <= k < n :: w.groups[k] != [] && w.out[k] == Summary(w.groups[k]))
      && (forall k | 0 <= k < n :: req.start < w.groups[k][0].dt)
      && w.out[n] == OpenBar(TickAt(w.series, w.ndx), w.out[n])
      && (req.nTicks <= n || TickAt(w.series, w.ndx).dt <= req.start)
      && Trail(w, w.ndx + 1)
      && (NoSentinel(req, w.visited) ==>
            && Concat(w.groups[..n]) == w.visited
            && GroupShape(req, w.groups[..n])
            && (w.visited != [] ==>
                  Bucket(TickAt(w.series, w.ndx).dt, req.minutes) < Bucket(Last(w.visited).dt, req.minutes)))
  }

  /**
   * The state a call returns in: either the cursor is -1 and the call
   * returns 0 because the day found was empty or no day down to `Start - 10`
   * loads, or the call broke out of the loop with the cursor on a record.
   */
  ghost predicate Done(req: Request, loader: Loader, n: int, w: Walk)
  {
    && ValidRequest(req)
    && -1 <= w.ndx < |w.series.dt|
    && DayRun(w) && (0 < w.loads ==> w.top == |w.series.dt|)
    && (w.ndx == -1 ==>
          n == 0 && (|w.series.dt| == 0 || forall e | Candidate(w.from, Lowest(req), e) :: Misses(loader, e)))
    && (req.minutes == 0 ==> RawDone(req, n, w))
    && (req.minutes != 0 ==> BarDone(req, n, w))
  }

  // ---- facts about the reference definitions ----

  lemma SummaryOne(t: Tick, held: Bar)
    ensures Extend(OpenBar(t, held), t, 1) == Summary([t])
  {
  }

  /** Growing a bar by an older tick gives the summary of the longer group. */
  lemma SummaryExtend(g: seq<Tick>, t: Tick)
    requires g != []
    ensures Summary(g + [t]) == Extend(Summary(g), t, |g| + 1)
  {
    var h := g + [t];
    assert h[..|h| - 1] == g;
  }

  lemma ConcatSnoc(gs: seq<seq<Tick>>, g: seq<Tick>)
    ensures Concat(gs + [g]) == Concat(gs) + g
  {
    assert (gs + [g])[..|gs|] == gs;
  }

  lemma ConcatGrowLast(gs: seq<seq<Tick>>, t: Tick)
    requires gs != []
    ensures Concat(gs[..|gs| - 1] + [Last(gs) + [t]]) == Concat(gs) + [t]
  {
    ConcatSnoc(gs[..|gs| - 1], Last(gs) + [t]);
  }

  // ---- every step keeps the invariant ----

  lemma ReloadKeeps(req: Request, loader: Loader, w: Walk)
    requires Inv(req, w)
    ensures Inv(req, Reload(false, req, loader, w).(first := false))
    ensures var r := Reload(false, req, loader, w);
      w.ndx < 0 && r.ndx < 0 ==>
        |r.series.dt| == 0 || forall e | Candidate(r.from, Lowest(req), e) :: Misses(loader, e)
  {
  }

  lemma RawStepKeeps(req: Request, w: Walk)
    requires Inv(req, w) && 0 <= w.ndx && req.minutes == 0
    ensures var o := RawStep(req, w);
      && (o.Continue? ==> Inv(req, o.w))
      && (o.Return? ==> 0 <= o.w.ndx < |o.w.series.dt| && RawDone(req, o.n, o.w))
  {
    var t := TickAt(w.series, w.ndx);
    var w2 := w.(out := w.out[w.count := RawBar(t)], count := w.count + 1, visited := w.visited + [t]);
    RawPush(req, w, t);
    if req.nTicks <= w2.count || t.dt <= req.start {
      assert RawStep(req, w) == Return(w2.count, w2);
      TrailPush(w, w2);
    } else {
      assert RawStep(req, w) == Continue(w2.(ndx := w.ndx - 1));
      TrailPush(w, w2.(ndx := w.ndx - 1));
    }
  }

  lemma RawPush(req: Request, w: Walk, t: Tick)
    requires 0 <= w.count < |w.out| && |w.visited| == w.count
    requires forall k | 0 <= k < |w.visited| :: w.out[k] == RawBar(w.visited[k])
    ensures var out := w.out[w.count := RawBar(t)]; var v := w.visited + [t];
      forall k | 0 <= k < |v| :: out[k] == RawBar(v[k])
  {
  }


  lemma ConcatLast(gs: seq<seq<Tick>>)
    requires gs != [] && Last(gs) != []
    ensures Concat(gs) != [] && Last(Concat(gs)) == Last(Last(gs))
  {
  }

  lemma GroupShapePrefix(req: Request, gs: seq<seq<Tick>>, c: nat)
    requires req.minutes != 0 && ValidRequest(req)
    requires GroupShape(req, gs) && c <= |gs|
    ensures GroupShape(req, gs[..c])
  {
    assert forall k | 0 <= k < c :: gs[..c][k] == gs[k];
  }

  /** No group is empty. */
  predicate Filled(gs: seq<seq<Tick>>)
  {
    forall k | 0 <= k < |gs| :: gs[k] != []
  }

  lemma SlotsFilled(req: Request, w: Walk)
    requires Wf(req, w) && req.minutes != 0 && BarSlots(req, w)
    ensures Filled(w.groups)
  {
  }

  /**
   * Bar mode: the groups of the slots below `c`, the slot a new bar opens
   * in, hold all visited ticks.
   */
  lemma OpenedGroups(req: Request, gs: seq<seq<Tick>>, visited: seq<Tick>, prev: int, count: int, c: int)
    requires req.minutes != 0 && ValidRequest(req)
    requires Chain(req, gs, visited, prev) && Filled(gs)
    requires 0 <= count <= |gs| <= count + 1 && (prev != IntMax ==> |gs| == count + 1)
    requires c == if prev != IntMax then count + 1 else count
    ensures c <= |gs| && Concat(gs[..c]) == visited
    ensures 0 < c ==> gs[..c] == gs && prev != IntMax
  {
    if prev != IntMax {
      assert gs[..c] == gs;
    } else if gs != [] {
      ConcatLast(gs);
      assert false;
    }
  }

  /** The tick under the cursor joins the visited ticks of the current day. */
  lemma TrailPush(w: Walk, w1: Walk)
    requires Trail(w, w.ndx + 1) && 0 <= w.ndx < |w.series.dt|
    requires w1.visited == w.visited + [TickAt(w.series, w.ndx)] && w1.mark == w.mark && w1.series == w.series
    requires w1.top == w.top
    ensures Trail(w1, w.ndx)
  {
    assert forall k | 0 <= k < |w.visited| :: w1.visited[k] == w.visited[k];
  }

  lemma NoSentinelPrefix(req: Request, s: seq<Tick>, t: Tick)
    requires req.minutes != 0 && ValidRequest(req)
    requires NoSentinel(req, s + [t])
    ensures NoSentinel(req, s) && Bucket(t.dt, req.minutes) != IntMax
  {
    assert forall i | 0 <= i < |s| :: (s + [t])[i] == s[i];
    assert (s + [t])[|s|] == t;
  }

  // bar mode, the bucket did not drop: the tick joins the bar in the slot in use

  lemma GrowSlots(req: Request, w: Walk, t: Tick, b: int)
    requires 0 <= w.count < |w.out| && w.count <= |w.groups| <= w.count + 1
    requires BarSlots(req, w)
    ensures BarSlots(req, Grow(w, t, b))
  {
    var g := Grow(w, t, b);
    if |w.groups| == w.count + 1 {
      SummaryExtend(w.groups[w.count], t);
      assert g.groups[w.count] == w.groups[w.count] + [t];
      assert forall k | 0 <= k < w.count :: g.groups[k] == w.groups[k];
    }
  }

  lemma GroupShapeGrow(req: Request, gs: seq<seq<Tick>>, t: Tick)
    requires req.minutes != 0 && ValidRequest(req)
    requires GroupShape(req, gs) && gs != [] && Last(gs) != []
    requires Bucket(Last(Last(gs)).dt, req.minutes) <= Bucket(t.dt, req.minutes)
    ensures GroupShape(req, gs[..|gs| - 1] + [Last(gs) + [t]])
  {
    var hs := gs[..|gs| - 1] + [Last(gs) + [t]];
    assert forall k | 0 <= k < |gs| - 1 :: hs[k] == gs[k];
    assert forall j | 0 <= j < |Last(gs)| :: hs[|gs| - 1][j] == Last(gs)[j];
  }

  lemma GrowChain(req: Request, gs: seq<seq<Tick>>, visited: seq<Tick>, prev: int, t: Tick, b: int)
    requires req.minutes != 0 && ValidRequest(req)
    requires Chain(req, gs, visited, prev) && Filled(gs)
    requires b == Bucket(t.dt, req.minutes) && prev <= b && b != IntMax
    ensures gs != []
    ensures Chain(req, gs[..|gs| - 1] + [Last(gs) + [t]], visited + [t], b)
  {
    assert visited != [];
    if gs == [] {
      assert false;
    }
    ConcatGrowLast(gs, t);
    ConcatLast(gs);
    GroupShapeGrow(req, gs, t);
  }

  lemma GrowChained(req: Request, w: Walk, t: Tick, b: int)
    requires Wf(req, w) && req.minutes != 0 && BarSlots(req, w)
    requires b == Bucket(t.dt, req.minutes) && w.prev <= b
    requires NoSentinel(req, w.visited) ==> Chained(req, w)
    requires NoSentinel(req, w.visited + [t])
    ensures Chained(req, Grow(w, t, b))
  {
    NoSentinelPrefix(req, w.visited, t);
    SlotsFilled(req, w);
    GrowChain(req, w.groups, w.visited, w.prev, t, b);
    assert |w.groups| == w.count + 1;
  }


  lemma BarGrowKeeps(req: Request, w: Walk)
    requires Inv(req, w) && 0 <= w.ndx && req.minutes != 0
    requires Bucket(TickAt(w.series, w.ndx).dt, req.minutes) >= w.prev
    ensures BarStep(req, w).Continue? && Inv(req, BarStep(req, w).w)
  {
    var t := TickAt(w.series, w.ndx);
    var b := Bucket(t.dt, req.minutes);
    var w1 := Grow(w, t, b).(ndx := w.ndx - 1);
    BarStepCases(req, w, t, b, if w.prev != IntMax then w.count + 1 else w.count);
    TrailPush(w, w1);
    GrowSlots(req, w, t, b);
    if NoSentinel(req, w1.visited) {
      GrowChained(req, w, t, b);
    }
  }

  // bar mode, the bucket dropped: a new bar opens on the tick, in the next slot once a bar was started

  /** The three ways a bar-mode iteration can go. */
  lemma BarStepCases(req: Request, w: Walk, t: Tick, b: int, c: int)
    requires Wf(req, w) && 0 <= w.ndx && req.minutes != 0
    requires t == TickAt(w.series, w.ndx) && b == Bucket(t.dt, req.minutes)
    requires c == if w.prev != IntMax then w.count + 1 else w.count
    ensures w.prev <= b ==> BarStep(req, w) == Continue(Grow(w, t, b).(ndx := w.ndx - 1))
    ensures b < w.prev ==> c < |w.out| && c <= |w.groups|
    ensures b < w.prev && (req.nTicks <= c || t.dt <= req.start) ==> BarStep(req, w) == Return(c, Open(w, t, c))
    ensures b < w.prev && !(req.nTicks <= c || t.dt <= req.start) ==>
              BarStep(req, w) == Continue(Grow(Open(w, t, c), t, b).(ndx := w.ndx - 1))
  {
    if w.prev <= b {
      assert BarStep(req, w) == Continue(Grow(w, t, b).(ndx := w.ndx - 1));
    } else if req.nTicks <= c || t.dt <= req.start {
      assert BarStep(req, w) == Return(c, Open(w, t, c));
    } else {
      assert BarStep(req, w) == Continue(Grow(Open(w, t, c), t, b).(ndx := w.ndx - 1));
    }
  }

  /** Opening a bar and growing it by the same tick. */
  lemma OpenGrow(w: Walk, t: Tick, b: int, c: int)
    requires 0 <= c < |w.out| && c <= |w.groups|
    ensures Grow(Open(w, t, c), t, b) ==
      w.(count := c, out := w.out[c := Summary([t])], vol := 1, prev := b,
         visited := w.visited + [t], groups := w.groups[..c] + [[t]])
  {
    SummaryOne(t, w.out[c]);
    var o := Open(w, t, c);
    assert o.groups[..c] == w.groups[..c];
    assert o.groups[c] + [t] == [t];
  }

  lemma GroupShapeOpen(req: Request, gs: seq<seq<Tick>>, t: Tick)
    requires req.minutes != 0 && ValidRequest(req)
    requires GroupShape(req, gs)
    requires gs != [] ==> Last(gs) != [] && Bucket(t.dt, req.minutes) < Bucket(Last(Last(gs)).dt, req.minutes)
    ensures GroupShape(req, gs + [[t]])
  {
    var hs := gs + [[t]];
    assert forall k | 0 <= k < |gs| :: hs[k] == gs[k];
  }

  lemma OpenSlots(req: Request, w: Walk, t: Tick, b: int, c: int)
    requires Wf(req, w) && req.minutes != 0 && BarSlots(req, w)
    requires c == if w.prev != IntMax then w.count + 1 else w.count
    requires c < |w.out| && req.start < t.dt
    ensures BarSlots(req, Grow(Open(w, t, c), t, b))
  {
    OpenGrow(w, t, b, c);
    var g := Grow(Open(w, t, c), t, b);
    assert forall k | 0 <= k < c :: g.groups[k] == w.groups[k];
  }

  lemma OpenChain(req: Request, gs: seq<seq<Tick>>, visited: seq<Tick>, prev: int, count: int, c: int, t: Tick, b: int)
    requires req.minutes != 0 && ValidRequest(req)
    requires Chain(req, gs, visited, prev) && Filled(gs)
    requires 0 <= count <= |gs| <= count + 1 && (prev != IntMax ==> |gs| == count + 1)
    requires c == if prev != IntMax then count + 1 else count
    requires b == Bucket(t.dt, req.minutes) && b < prev
    ensures c <= |gs| && Chain(req, gs[..c] + [[t]], visited + [t], b)
  {
    OpenedGroups(req, gs, visited, prev, count, c);
    ConcatSnoc(gs[..c], [t]);
    GroupShapePrefix(req, gs, c);
    if c > 0 {
      ConcatLast(gs);
    }
    GroupShapeOpen(req, gs[..c], t);
  }

  lemma OpenChained(req: Request, w: Walk, t: Tick, b: int, c: int)
    requires Wf(req, w) && req.minutes != 0 && BarSlots(req, w)
    requires c == if w.prev != IntMax then w.count + 1 else w.count
    requires c < |w.out|
    requires b == Bucket(t.dt, req.minutes) && b < w.prev
    requires NoSentinel(req, w.visited) ==> Chained(req, w)
    requires NoSentinel(req, w.visited + [t])
    ensures Chained(req, Grow(Open(w, t, c), t, b))
  {
    OpenGrow(w, t, b, c);
    NoSentinelPrefix(req, w.visited, t);
    SlotsFilled(req, w);
    OpenChain(req, w.groups, w.visited, w.prev, w.count, c, t, b);
  }

  lemma BarOpenKeeps(req: Request, w: Walk)
    requires Inv(req, w) && 0 <= w.ndx && req.minutes != 0
    requires Bucket(TickAt(w.series, w.ndx).dt, req.minutes) < w.prev
    requires BarStep(req, w).Continue?
    ensures Inv(req, BarStep(req, w).w)
  {
    var t := TickAt(w.series, w.ndx);
    var b := Bucket(t.dt, req.minutes);
    var c := if w.prev != IntMax then w.count + 1 else w.count;
    var w1 := Grow(Open(w, t, c), t, b).(ndx := w.ndx - 1);
    BarStepCases(req, w, t, b, c);
    OpenGrow(w, t, b, c);
    TrailPush(w, w1);
    OpenSlots(req, w, t, b, c);
    if NoSentinel(req, w1.visited) {
      OpenChained(req, w, t, b, c);
    }
  }

  /** The slots below `c` keep their summaries when a bar opens in slot `c`. */
  lemma OpenKeepsSlots(req: Request, w: Walk, t: Tick, c: int)
    requires Wf(req, w) && req.minutes != 0 && BarSlots(req, w)
    requires c == if w.prev != IntMax then w.count + 1 else w.count
    requires c < |w.out|
    ensures var w1 := Open(w, t, c);
      forall k | 0 <= k < c :: w1.groups[k] != [] && w1.out[k] == Summary(w1.groups[k]) && req.start < w1.groups[k][0].dt
  {
    var w1 := Open(w, t, c);
    assert forall k | 0 <= k < c :: w1.groups[k] == w.groups[k] by {
      assert w1.groups == w.groups[..c] + [[]];
    }
  }

  lemma OpenKeepsChain(req: Request, w: Walk, t: Tick, c: int)
    requires Wf(req, w) && req.minutes != 0 && BarSlots(req, w) && Chained(req, w)
    requires c == if w.prev != IntMax then w.count + 1 else w.count
    requires c < |w.out| && Bucket(t.dt, req.minutes) < w.prev
    ensures var w1 := Open(w, t, c);
      && Concat(w1.groups[..c]) == w1.visited
      && GroupShape(req, w1.groups[..c])
      && (w1.visited != [] ==> Bucket(t.dt, req.minutes) < Bucket(Last(w1.visited).dt, req.minutes))
  {
    var w1 := Open(w, t, c);
    assert w1.groups[..c] == w.groups[..c];
    SlotsFilled(req, w);
    OpenedGroups(req, w.groups, w.visited, w.prev, w.count, c);
    GroupShapePrefix(req, w.groups, c);
  }

  lemma OpenDone(req: Request, w: Walk, t: Tick, c: int)
    requires Wf(req, w) && req.minutes != 0 && BarSlots(req, w) && 0 <= w.ndx
    requires Trail(w, w.ndx + 1) && (NoSentinel(req, w.visited) ==> Chained(req, w))
    requires t == TickAt(w.series, w.ndx) && Bucket(t.dt, req.minutes) < w.prev
    requires c == if w.prev != IntMax then w.count + 1 else w.count
    requires c < |w.out| && (req.nTicks <= c || t.dt <= req.start)
    ensures BarDone(req, c, Open(w, t, c))
  {
    OpenKeepsSlots(req, w, t, c);
    if NoSentinel(req, w.visited) {
      OpenKeepsChain(req, w, t, c);
    }
  }

  lemma BarBreakDone(req: Request, w: Walk)
    requires Inv(req, w) && 0 <= w.ndx && req.minutes != 0
    requires Bucket(TickAt(w.series, w.ndx).dt, req.minutes) < w.prev
    requires BarStep(req, w).Return?
    ensures var o := BarStep(req, w); 0 <= o.w.ndx < |o.w.series.dt| && BarDone(req, o.n, o.w)
  {
    var t := TickAt(w.series, w.ndx);
    var c := if w.prev != IntMax then w.count + 1 else w.count;
    BarStepCases(req, w, t, Bucket(t.dt, req.minutes), c);
    OpenDone(req, w, t, c);
  }

  lemma BarStepKeeps(req: Request, w: Walk)
    requires Inv(req, w) && 0 <= w.ndx && req.minutes != 0
    ensures var o := BarStep(req, w);
      && (o.Continue? ==> Inv(req, o.w))
      && (o.Return? ==> 0 <= o.w.ndx < |o.w.series.dt| && BarDone(req, o.n, o.w))
  {
    if Bucket(TickAt(w.series, w.ndx).dt, req.minutes) >= w.prev {
      BarGrowKeeps(req, w);
    } else if BarStep(req, w).Continue? {
      BarOpenKeeps(req, w);
    } else {
      BarBreakDone(req, w);
    }
  }

  /** One iteration of the corrected loop keeps `Inv`, or the call returns in a `Done` state. */
  lemma StepKeeps(req: Request, loader: Loader, w: Walk)
    requires Inv(req, w)
    ensures var o := Step(false, req, loader, w);
      && (o.Continue? ==> Inv(req, o.w))
      && (o.Return? ==> Done(req, loader, o.n, o.w))
  {
    var w1 := Reload(false, req, loader, w).(first := false);
    ReloadKeeps(req, loader, w);
    if w1.ndx == -1 {
      assert Step(false, req, loader, w) == Return(0, w1);
    } else if req.minutes == 0 {
      assert Step(false, req, loader, w) == RawStep(req, w1);
      RawStepKeeps(req, w1);
      DoneOfStep(req, loader, w1, RawStep(req, w1));
    } else {
      assert Step(false, req, loader, w) == BarStep(req, w1);
      BarStepKeeps(req, w1);
      DoneOfStep(req, loader, w1, BarStep(req, w1));
    }
  }

  /** A step that returns keeps the day run and the top of a loaded day. */
  lemma DoneOfStep(req: Request, loader: Loader, w: Walk, o: Outcome)
    requires Inv(req, w) && 0 <= w.ndx
    requires o.w.series == w.series && o.w.loads == w.loads && o.w.top == w.top
    requires o.Return? ==> 0 <= o.w.ndx < |o.w.series.dt|
    requires o.Return? && req.minutes == 0 ==> RawDone(req, o.n, o.w)
    requires o.Return? && req.minutes != 0 ==> BarDone(req, o.n, o.w)
    ensures o.Return? ==> Done(req, loader, o.n, o.w)
  {
  }

  // ---- whole calls ----

  lemma BeginInv(req: Request, ndx: int, vol: int, first: bool, series: TickSeries, out: seq<Bar>)
    requires ValidRequest(req) && -1 <= ndx < |series.dt| && Room(req) <= |out|
    ensures Inv(req, Begin(req, ndx, vol, first, series, out))
  {
  }

  lemma {:induction false} RunKeeps(req: Request, loader: Loader, w: Walk)
    requires Inv(req, w)
    ensures Done(req, loader, Run(req, loader, w).n, Run(req, loader, w).w)
    decreases Rank(req, w), w.ndx + 1
  {
    StepKeeps(req, loader, w);
    match Step(false, req, loader, w)
    case Return(_, _) =>
    case Continue(w1) => RunKeeps(req, loader, w1);
  }

  /** A state `BrokerHistory2` may be entered in: at most `Room(req)` slots are written. */
  predicate CallOk(req: Request, ndx: int, series: TickSeries, out: seq<Bar>)
  {
    ValidRequest(req) && -1 <= ndx < |series.dt| && Room(req) <= |out|
  }

  /** A whole call, from the global state at entry. */
  function Call(req: Request, loader: Loader, ndx: int, vol: int, first: bool, series: TickSeries, out: seq<Bar>): Outcome
    requires CallOk(req, ndx, series, out)
  {
    Run(req, loader, Begin(req, ndx, vol, first, series, out))
  }

  lemma CallDone(req: Request, loader: Loader, ndx: int, vol: int, first: bool, series: TickSeries, out: seq<Bar>)
    requires CallOk(req, ndx, series, out)
    ensures var r := Call(req, loader, ndx, vol, first, series, out); Done(req, loader, r.n, r.w)
  {
    BeginInv(req, ndx, vol, first, series, out);
    RunKeeps(req, loader, Begin(req, ndx, vol, first, series, out));
  }

  /** A call that loads no day ends on the day it began with, its run still starting at the same record. */
  lemma {:induction false} RunSameDay(req: Request, loader: Loader, w: Walk)
    requires Wf(req, w)
    ensures var r := Run(req, loader, w);
      && w.loads <= r.w.loads
      && (r.w.loads == w.loads ==> r.w.series == w.series && r.w.mark == w.mark && r.w.top == w.top)
    decreases Rank(req, w), w.ndx + 1
  {
    match Step(false, req, loader, w)
    case Return(_, _) =>
    case Continue(w1) => RunSameDay(req, loader, w1);
  }

  /**
   * Where the visited ticks come from: without a reload, they are the
   * records of the entry day from the entry cursor down; after a reload,
   * those visited since it are the records of the day loaded last from its
   * last record down.
   */
  lemma VisitedRecords(req: Request, loader: Loader, ndx: int, vol: int, first: bool, series: TickSeries, out: seq<Bar>)
    requires CallOk(req, ndx, series, out)
    ensures var r := Call(req, loader, ndx, vol, first, series, out);
      && (r.w.loads == 0 ==>
            && r.w.series == series && |r.w.visited| <= ndx + 1
            && forall k | 0 <= k < |r.w.visited| :: r.w.visited[k] == TickAt(series, ndx - k))
      && (0 < r.w.loads ==>
            && 0 <= r.w.mark <= |r.w.visited| && |r.w.visited| - r.w.mark <= |r.w.series.dt|
            && forall k | r.w.mark <= k < |r.w.visited| ::
                 r.w.visited[k] == TickAt(r.w.series, |r.w.series.dt| - 1 - (k - r.w.mark)))
  {
    var w := Begin(req, ndx, vol, first, series, out);
    CallDone(req, loader, ndx, vol, first, series, out);
    RunSameDay(req, loader, w);
  }

  /**
   * Raw mode: slot k holds the k-th tick visited, as a raw tick; the call
   * returns 0 exactly when it ran out of data, and otherwise the number of
   * ticks visited, stopping at the first that reaches `NTicks` or is at or
   * before `Start`.
   */
  lemma RawTicks(req: Request, loader: Loader, ndx: int, vol: int, first: bool, series: TickSeries, out: seq<Bar>)
    requires CallOk(req, ndx, series, out) && req.minutes == 0
    ensures var r := Call(req, loader, ndx, vol, first, series, out);
      && 0 <= r.n <= Max(req.nTicks, 1)
      && |r.w.visited| <= |r.w.out|
      && (forall k | 0 <= k < |r.w.visited| :: r.w.out[k] == RawBar(r.w.visited[k]))
      && (forall k | 0 <= k < |r.w.visited| - 1 :: req.start < r.w.visited[k].dt)
      && (r.n == 0 <==> r.w.ndx == -1)
      && (0 < r.n ==> r.n == |r.w.visited| && (req.nTicks <= r.n || r.w.visited[r.n - 1].dt <= req.start))
      && (0 < r.n && r.w.loads == 0 ==> r.w.series == series && r.w.ndx == ndx - (r.n - 1))
      && (r.w.loads == 0 ==>
            forall k | 0 <= k < |r.w.visited| :: 0 <= ndx - k && r.w.out[k] == RawBar(TickAt(series, ndx - k)))
      && (0 < r.w.loads ==>
            forall k | r.w.mark <= k < |r.w.visited| ::
              0 <= r.w.mark && 0 <= |r.w.series.dt| - 1 - (k - r.w.mark) &&
              r.w.out[k] == RawBar(TickAt(r.w.series, |r.w.series.dt| - 1 - (k - r.w.mark))))
  {
    CallDone(req, loader, ndx, vol, first, series, out);
    VisitedRecords(req, loader, ndx, vol, first, series, out);
    RunSameDay(req, loader, Begin(req, ndx, vol, first, series, out));
  }

  /**
   * Raw mode, after a `break`: the ticks visited since the last day was
   * loaded are its records from the cursor upwards, newest first, so the
   * cursor stays on the record emitted last.
   */
  lemma RawCursorOnLastRecord(req: Request, loader: Loader, ndx: int, vol: int, first: bool, series: TickSeries, out: seq<Bar>)
    requires CallOk(req, ndx, series, out) && req.minutes == 0
    ensures var r := Call(req, loader, ndx, vol, first, series, out);
      0 <= r.w.ndx ==>
        && 0 <= r.w.mark < |r.w.visited|
        && r.w.ndx + |r.w.visited| - r.w.mark <= |r.w.series.dt|
        && (forall k | r.w.mark <= k < |r.w.visited| ::
              r.w.visited[k] == TickAt(r.w.series, r.w.ndx + |r.w.visited| - 1 - k))
        && Last(r.w.visited) == TickAt(r.w.series, r.w.ndx)
  {
    CallDone(req, loader, ndx, vol, first, series, out);
  }

  /** A day whose records are in ascending time order, as cTrader writes them. */
  predicate Ascending(s: TickSeries)
  {
    forall i, j | 0 <= i <= j < |s.dt| :: s.dt[i] <= s.dt[j]
  }

  /**
   * Raw mode, after a `break`, on a day in ascending time order: the slots
   * written since that day was loaded have non-increasing times, the most
   * recent tick first.
   */
  lemma RawNewestFirst(req: Request, loader: Loader, ndx: int, vol: int, first: bool, series: TickSeries, out: seq<Bar>)
    requires CallOk(req, ndx, series, out) && req.minutes == 0
    ensures var r := Call(req, loader, ndx, vol, first, series, out);
      0 <= r.w.ndx && Ascending(r.w.series) ==>
        && 0 <= r.w.mark < r.n <= |r.w.out|
        && forall k, l | r.w.mark <= k <= l < r.n :: r.w.out[l].time <= r.w.out[k].time
  {
    RawTicks(req, loader, ndx, vol, first, series, out);
    RawCursorOnLastRecord(req, loader, ndx, vol, first, series, out);
    var r := Call(req, loader, ndx, vol, first, series, out);
    if 0 <= r.w.ndx && Ascending(r.w.series) {
      var v, top := r.w.visited, r.w.ndx + |r.w.visited| - 1;
      forall k, l | r.w.mark <= k <= l < r.n
        ensures r.w.out[l].time <= r.w.out[k].time
      {
        assert v[k] == TickAt(r.w.series, top - k) && v[l] == TickAt(r.w.series, top - l);
        assert r.w.out[k] == RawBar(v[k]) && r.w.out[l] == RawBar(v[l]);
      }
    }
  }

  /**
   * Bar mode: every counted bar summarises its group of ticks and opened on
   * a tick after `Start`; the bar after them was opened on the record under
   * the cursor and is not counted, because the count reached `NTicks` or
   * that record is at or before `Start`.
   */
  lemma Bars(req: Request, loader: Loader, ndx: int, vol: int, first: bool, series: TickSeries, out: seq<Bar>)
    requires CallOk(req, ndx, series, out) && req.minutes != 0
    ensures var r := Call(req, loader, ndx, vol, first, series, out);
      && 0 <= r.n <= Max(req.nTicks, 0)
      && (0 <= r.w.ndx ==>
            && r.n < |r.w.out| && r.n < |r.w.groups|
            && (forall k | 0 <= k < r.n ::
                  r.w.groups[k] != [] && r.w.out[k] == Summary(r.w.groups[k]) && req.start < r.w.groups[k][0].dt)
            && r.w.out[r.n] == OpenBar(TickAt(r.w.series, r.w.ndx), r.w.out[r.n])
            && (req.nTicks <= r.n || TickAt(r.w.series, r.w.ndx).dt <= req.start))
      && (r.w.loads == 0 ==>
            && r.w.series == series
            && (forall k | 0 <= k < |r.w.visited| :: 0 <= ndx - k && r.w.visited[k] == TickAt(series, ndx - k))
            && (0 <= r.w.ndx ==> r.w.ndx == ndx - |r.w.visited|))
      && (0 < r.w.loads ==>
            && 0 <= r.w.mark <= |r.w.visited| && |r.w.visited| - r.w.mark <= |r.w.series.dt|
            && (forall k | r.w.mark <= k < |r.w.visited| ::
                  r.w.visited[k] == TickAt(r.w.series, |r.w.series.dt| - 1 - (k - r.w.mark)))
            && (0 <= r.w.ndx ==> r.w.ndx == |r.w.series.dt| - 1 - (|r.w.visited| - r.w.mark)))
  {
    CallDone(req, loader, ndx, vol, first, series, out);
    VisitedRecords(req, loader, ndx, vol, first, series, out);
    RunSameDay(req, loader, Begin(req, ndx, vol, first, series, out));
  }

  /**
   * Bar mode, when no visited tick falls in bucket `INT_MAX`: the counted
   * bars' groups are exactly the visited ticks, in order, cut wherever the
   * bucket drops, and the uncounted bar's tick starts a lower bucket.
   */
  lemma BarsCoverVisitedTicks(req: Request, loader: Loader, ndx: int, vol: int, first: bool, series: TickSeries, out: seq<Bar>)
    requires CallOk(req, ndx, series, out) && req.minutes != 0
    ensures var r := Call(req, loader, ndx, vol, first, series, out);
      0 <= r.w.ndx && NoSentinel(req, r.w.visited) ==>
        && r.n <= |r.w.groups|
        && Concat(r.w.groups[..r.n]) == r.w.visited
        && GroupShape(req, r.w.groups[..r.n])
        && (r.w.visited != [] ==>
              Bucket(TickAt(r.w.series, r.w.ndx).dt, req.minutes) < Bucket(Last(r.w.visited).dt, req.minutes))
  {
    CallDone(req, loader, ndx, vol, first, series, out);
  }

  /**
   * A call that finds no record returns 0, with the cursor at -1: the day
   * it found was empty, or no day from the last search start down to
   * `Start - 10` days loads.
   */
  lemma NoDataReturnsZero(req: Request, loader: Loader, ndx: int, vol: int, first: bool, series: TickSeries, out: seq<Bar>)
    requires CallOk(req, ndx, series, out)
    ensures var r := Call(req, loader, ndx, vol, first, series, out);
      r.w.ndx == -1 ==>
        && r.n == 0
        && (|r.w.series.dt| == 0 || forall e | Candidate(r.w.from, Lowest(req), e) :: Misses(loader, e))
  {
    CallDone(req, loader, ndx, vol, first, series, out);
  }

  lemma RawStepWritesWithin(req: Request, w: Walk)
    requires Wf(req, w) && 0 <= w.ndx && req.minutes == 0
    ensures forall k | Room(req) <= k < |w.out| :: RawStep(req, w).w.out[k] == w.out[k]
  {
    assert RawStep(req, w).w.out == w.out[w.count := RawBar(TickAt(w.series, w.ndx))];
  }

  lemma BarStepWritesWithin(req: Request, w: Walk)
    requires Wf(req, w) && 0 <= w.ndx && req.minutes != 0
    ensures forall k | Room(req) <= k < |w.out| :: BarStep(req, w).w.out[k] == w.out[k]
  {
    var t := TickAt(w.series, w.ndx);
    var b := Bucket(t.dt, req.minutes);
    var c := if w.prev != IntMax then w.count + 1 else w.count;
    BarStepCases(req, w, t, b, c);
    if b < w.prev {
      OpenGrow(w, t, b, c);
    }
  }

  /** One iteration writes no slot at or above `Room(req)`. */
  lemma StepWritesWithin(asWritten: bool, req: Request, loader: Loader, w: Walk)
    requires Wf(req, w)
    ensures forall k | Room(req) <= k < |w.out| :: Step(asWritten, req, loader, w).w.out[k] == w.out[k]
  {
    var w1 := Reload(asWritten, req, loader, w).(first := false);
    if w1.ndx == -1 {
    } else if req.minutes == 0 {
      RawStepWritesWithin(req, w1);
    } else {
      BarStepWritesWithin(req, w1);
    }
  }

  /** A call writes only the slots below `Room(req)` of the buffer. */
  lemma {:induction false} RunWritesWithin(req: Request, loader: Loader, w: Walk)
    requires Wf(req, w)
    ensures forall k | Room(req) <= k < |w.out| :: Run(req, loader, w).w.out[k] == w.out[k]
    decreases Rank(req, w), w.ndx + 1
  {
    StepWritesWithin(false, req, loader, w);
    match Step(false, req, loader, w)
    case Return(_, _) =>
    case Continue(w1) => RunWritesWithin(req, loader, w1);
  }

  /**
   * The first day search of a call starts where the source starts it; the
   * correction changes only the searches after a day was used up.
   */
  lemma FirstSearchAsWritten(req: Request, loader: Loader, ndx: int, vol: int, first: bool, series: TickSeries, out: seq<Bar>)
    requires CallOk(req, ndx, series, out)
    ensures var w := Begin(req, ndx, vol, first, series, out);
      Step(true, req, loader, w) == Step(false, req, loader, w)
  {
    var w := Begin(req, ndx, vol, first, series, out);
    assert SearchStart(true, req, w) == SearchStart(false, req, w);
    assert Reload(true, req, loader, w) == Reload(false, req, loader, w);
  }
}
