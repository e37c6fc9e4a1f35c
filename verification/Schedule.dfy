/** What the executor does over a whole run: closed forms of its timing for a constant delay, and the laws that hold
    whatever the delays are. */
module Schedule {
  import opened Options
  import opened Fmath
  import opened Executor

  /** `run_executor`: the state after ticks `0 .. n-1`, or the exception that stopped them. */
  ghost function Run(c: ExecCfg, n: nat): (r: Result<Ex, ExecError>)
    requires c.Valid()
    ensures r.Ok? ==> Fits(c, r.value)
  {
    if n == 0 then Ok(START)
    else
      var was := Run(c, n - 1);
      if was.Err? then was
      else
        var r := Ticked(c, was.value, n - 1);
        if r.1.Ok? then Ok(r.0) else Err(r.1.error)
  }

  ghost function TickAt(c: ExecCfg, t: nat): (r: Result<ExTick, ExecError>)
    requires c.Valid()
  {
    var was := Run(c, t);
    if was.Err? then Err(was.error) else Ticked(c, was.value, t).1
  }

  /** The policy answers every request with a full chunk. */
  ghost predicate Supplied(c: ExecCfg) {
    c.Valid() && c.policy.Some? && forall t :: |c.policy.value(t)| == c.horizon
  }

  function Min(a: int, b: int): int { if a < b then a else b }

  function Pos(a: int): nat { if a < 0 then 0 else a }

  // ---- closed forms for a constant delay ------------------------------------------------------------------

  ghost predicate Constant(c: ExecCfg) { Supplied(c) && c.extra.None? }

  /** One delivered chunk's reign: it lands on tick `b` at row `e`, was asked for at `rq`, is number `k`, and the next
      request leaves `gap` ticks after `b`; `h0` ticks were held before it. */
  datatype Seg = Seg(b: nat, e: nat, gap: nat, rq: nat, k: nat, h0: nat)

  /** Row a chunk starts at, and the gap to the next request, for every chunk but the first. */
  function FirstRow(c: ExecCfg): nat { if c.Dropping() then c.d else 0 }

  function Gap(c: ExecCfg): (r: nat)
    ensures c.Valid() ==> r >= 1
  {
    if c.Dropping() then Cadence(c) - c.d else c.steps
  }

  /** Async drop: ticks between two requests after the first. */
  function Cadence(c: ExecCfg): (r: nat)
    ensures r > c.d && r >= c.steps
  {
    if c.steps < c.d + 1 then c.d + 1 else c.steps
  }

  ghost predicate InSeg(c: ExecCfg, n: nat, x: Ex, g: Seg)
    requires Supplied(c)
  {
    && g.e <= g.b < n <= g.b + g.gap + c.d && g.e < c.Limit() && 1 <= g.gap
    && x.cur == Some(c.policy.value(g.rq)) && x.curEmit == g.b - g.e && x.curSeq == g.k && x.delivered == g.k + 1
    && x.execPos == Min(g.e + n - g.b, c.Limit()) && x.nextReq == g.b + g.gap && x.reqRows == None
    && x.inflight == (if n > g.b + g.gap
                      then Some(Flight(g.b + g.gap + c.d, g.b + g.gap, c.policy.value(g.b + g.gap))) else None)
    && x.requested == g.k + 1 + (if n > g.b + g.gap then 1 else 0)
    && x.holdTicks == g.h0 + Pos(g.e + n - g.b - c.Limit()) && x.lastTick == Some(n - 1)
  }

  /** The tick the reign `g` produces at time `t`. */
  ghost function SegTick(c: ExecCfg, g: Seg, t: nat): ExTick
    requires Supplied(c) && g.e <= g.b <= t
  {
    var row := g.e + t - g.b;
    var idx := Min(row, c.Limit() - 1);
    ExTick(t, idx, if t == g.b then Some(c.policy.value(g.rq)) else None, g.b - g.e, g.k, c.policy.value(g.rq)[idx],
           if row >= c.Limit() then FromHold else if t == g.b || idx < c.steps then FromPolicy else FromDrain)
  }

  /** The reign after `g`: its request leaves `g.gap` ticks after `g` began, and it lands `d` ticks later. */
  function NextSeg(c: ExecCfg, g: Seg): Seg
    requires c.Valid()
  {
    Seg(g.b + g.gap + c.d, FirstRow(c), Gap(c), g.b + g.gap, g.k + 1, g.h0 + Pos(g.e + g.gap + c.d - c.Limit()))
  }

  function FirstSeg(c: ExecCfg): Seg { Seg(0, 0, c.steps, 0, 0, 0) }

  lemma FirstTick(c: ExecCfg)
    requires Constant(c)
    ensures var r := Ticked(c, START, 0);
            r.1 == Ok(SegTick(c, FirstSeg(c), 0)) && InSeg(c, 1, r.0, FirstSeg(c))
  {}

  lemma SameReign(c: ExecCfg, n: nat, x: Ex, g: Seg)
    requires Constant(c) && InSeg(c, n, x, g) && Fits(c, x) && n < g.b + g.gap + c.d
    ensures var r := Ticked(c, x, n); r.1 == Ok(SegTick(c, g, n)) && InSeg(c, n + 1, r.0, g)
  {}

  function Asking(c: ExecCfg, x: Ex, n: nat): Ex
    requires c.policy.Some?
  {
    var x1 := x.(lastTick := Some(n));
    if Needs(x1, n) then x1.(reqRows := Some(c.policy.value(n))) else x1
  }

  /** The state in which reign `g` lands, before its first row is read. */
  ghost function LandedIn(c: ExecCfg, n: nat, g: Seg): Ex
    requires Supplied(c) && g.e <= n
  {
    Ex(Some(c.policy.value(g.rq)), n - g.e, g.k, g.e, n + g.gap, None, None, g.k + 1, g.k + 1, g.h0, Some(n))
  }

  /** With a delay, the chunk asked for `d` ticks ago lands. */
  lemma ArrivesLater(c: ExecCfg, n: nat, x: Ex, g: Seg)
    requires Constant(c) && InSeg(c, n, x, g) && Fits(c, x) && n == g.b + g.gap + c.d && c.d > 0
    ensures FirstRow(c) <= n && Moved(c, Asking(c, x, n), n) == (LandedIn(c, n, NextSeg(c, g)), true)
  {}

  /** Without one, the chunk is asked for and lands on the same tick. */
  lemma ArrivesNow(c: ExecCfg, n: nat, x: Ex, g: Seg)
    requires Constant(c) && InSeg(c, n, x, g) && Fits(c, x) && n == g.b + g.gap && c.d == 0
    ensures Moved(c, Asking(c, x, n), n) == (LandedIn(c, n, NextSeg(c, g)), true)
  {}

  lemma FirstRowRead(c: ExecCfg, n: nat, g: Seg)
    requires Constant(c) && g.e <= n && g.b == n && g.e < c.Limit() && 1 <= g.gap
    ensures Fits(c, LandedIn(c, n, g))
    ensures var r := Emitted(c, LandedIn(c, n, g), n, true);
            r.1 == Ok(SegTick(c, g, n)) && InSeg(c, n + 1, r.0, g)
  {}

  lemma TickedByParts(c: ExecCfg, n: nat, x: Ex)
    requires Supplied(c) && Fits(c, x) && InOrder(x, n) && Fits(c, Asking(c, x, n)) && !Needs(Asking(c, x, n), n)
    ensures var m := Moved(c, Asking(c, x, n), n); Ticked(c, x, n) == Emitted(c, m.0, n, m.1)
  {
    hide Moved, Emitted;
  }

  lemma AskingFits(c: ExecCfg, n: nat, x: Ex, g: Seg)
    requires Constant(c) && InSeg(c, n, x, g) && Fits(c, x)
    ensures InOrder(x, n) && Fits(c, Asking(c, x, n)) && !Needs(Asking(c, x, n), n)
  {}

  lemma NextReign(c: ExecCfg, n: nat, x: Ex, g: Seg)
    requires Constant(c) && InSeg(c, n, x, g) && Fits(c, x) && n == g.b + g.gap + c.d
    ensures var r, g' := Ticked(c, x, n), NextSeg(c, g);
            g'.e <= g'.b && r.1 == Ok(SegTick(c, g', n)) && InSeg(c, n + 1, r.0, g')
  {
    AskingFits(c, n, x, g);
    TickedByParts(c, n, x);
    if c.d > 0 {
      ArrivesLater(c, n, x, g);
    } else {
      ArrivesNow(c, n, x, g);
    }
    hide Moved, Emitted, Ticked, Asking, LandedIn, InSeg, SegTick;
    FirstRowRead(c, n, NextSeg(c, g));
  }

  function Slot(u: nat, p: nat): nat
    requires p > 0
  {
    u / p
  }

  function Offset(u: nat, p: nat): nat
    requires p > 0
  {
    u % p
  }

  function Prod(k: nat, h: nat): nat { k * h }

  lemma ProdStep(k: nat, h: nat)
    ensures Prod(0, h) == 0 && Prod(k + 1, h) == Prod(k, h) + h
  {
    assert (k + 1) * h == k * h + h;
  }

  lemma SlotStep(u: nat, p: nat)
    requires p > 0
    ensures Offset(u, p) < p && Offset(u, p) <= u && Slot(0, p) == 0 && Offset(0, p) == 0
    ensures if Offset(u, p) + 1 < p then Slot(u + 1, p) == Slot(u, p) && Offset(u + 1, p) == Offset(u, p) + 1
            else Slot(u + 1, p) == Slot(u, p) + 1 && Offset(u + 1, p) == 0
  {
    var q, o := u / p, u % p;
    if o + 1 < p {
      DivUnique(u + 1, p, q, o + 1);
    } else {
      assert (q + 1) * p == q * p + p;
      DivUnique(u + 1, p, q + 1, 0);
    }
  }

  lemma AtLeast(k: nat, p: nat)
    requires k >= 1
    ensures k * p >= p
  {
    assert k * p == (k - 1) * p + p;
    assert (k - 1) * p >= 0;
  }

  lemma DivUnique(u: nat, p: nat, q: nat, o: nat)
    requires o < p && u == q * p + o
    ensures u / p == q && u % p == o
  {
    var q', o' := u / p, u % p;
    assert u == q' * p + o';
    if q' > q {
      assert q' * p == (q' - q) * p + q * p;
      AtLeast(q' - q, p);
    } else if q' < q {
      assert q * p == (q - q') * p + q' * p;
      AtLeast(q - q', p);
    }
  }

  /** The reign tick `t` belongs to: the first lasts `steps + d` ticks, every later one `Gap + d`. */
  function SegAt(c: ExecCfg, t: nat): Seg
    requires c.Valid()
  {
    if t < c.steps + c.d then FirstSeg(c)
    else
      var u, p := t - (c.steps + c.d), Gap(c) + c.d;
      Seg(c.steps + c.d + (u - Offset(u, p)), FirstRow(c), Gap(c), c.steps + (u - Offset(u, p)), 1 + Slot(u, p),
          Pos(c.steps + c.d - c.Limit()) + Prod(Slot(u, p), Pos(FirstRow(c) + p - c.Limit())))
  }

  lemma SegAtStep(c: ExecCfg, t: nat)
    requires c.Valid()
    ensures var g := SegAt(c, t);
            SegAt(c, t + 1) == if t + 1 < g.b + g.gap + c.d then g else NextSeg(c, g)
    ensures var g := SegAt(c, t); g.e <= g.b <= t < g.b + g.gap + c.d
  {
    hide Slot, Offset, Prod;
    var p := Gap(c) + c.d;
    if t >= c.steps + c.d {
      SlotStep(t - (c.steps + c.d), p);
      ProdStep(Slot(t - (c.steps + c.d), p), Pos(FirstRow(c) + p - c.Limit()));
    } else {
      SlotStep(0, p);
      ProdStep(0, Pos(FirstRow(c) + p - c.Limit()));
    }
  }

  /** With a constant delay the run never raises, and its state and tick are those of the closed form. */
  lemma {:induction false} ClosedForm(c: ExecCfg, t: nat)
    requires Constant(c)
    ensures SegAt(c, t).e <= SegAt(c, t).b <= t
    ensures Run(c, t + 1).Ok? && InSeg(c, t + 1, Run(c, t + 1).value, SegAt(c, t))
    ensures TickAt(c, t) == Ok(SegTick(c, SegAt(c, t), t))
  {
    hide Ticked, Fits, SegTick, Gap, NextSeg, SegAt;
    if t == 0 {
      FirstIsFirst(c);
      FirstTick(c);
      assert Run(c, 0) == Ok(START);
    } else {
      ClosedForm(c, t - 1);
      SegAtStep(c, t - 1);
      SegAtStep(c, t);
      var x, g := Run(c, t).value, SegAt(c, t - 1);
      if t < g.b + g.gap + c.d {
        SameReign(c, t, x, g);
      } else {
        NextReign(c, t, x, g);
      }
    }
  }

  lemma FirstIsFirst(c: ExecCfg)
    requires c.Valid()
    ensures SegAt(c, 0) == FirstSeg(c) && FirstSeg(c).b == FirstSeg(c).e == 0
  {}

  /** Sync and async freeze: with period `steps + d`, tick `t` executes row `min(t mod period, limit - 1)` of the chunk
      asked for `d` ticks before the period began, chunks land exactly at the multiples of the period, and
      `hold_ticks` counts, in every period, the ticks past the limit. */
  lemma PeriodicSchedule(c: ExecCfg, t: nat)
    requires Constant(c) && !c.Dropping()
    ensures var p := c.steps + c.d; var o := t % p;
            var req := if t < p then 0 else t - o - c.d;
            var idx := Min(o, c.Limit() - 1);
            && o <= t && req >= 0
            && TickAt(c, t) == Ok(ExTick(t, idx, if o == 0 then Some(c.policy.value(req)) else None, t - o, t / p,
                                         c.policy.value(req)[idx],
                                         if o >= c.Limit() then FromHold else if idx < c.steps then FromPolicy else FromDrain))
    ensures var p := c.steps + c.d;
            Run(c, t + 1).Ok? &&
            Run(c, t + 1).value.holdTicks == ((t + 1) / p) * Pos(p - c.Limit()) + Pos((t + 1) % p - c.Limit())
  {
    hide Ticked, Run, TickAt;
    ClosedForm(c, t);
    PeriodicSeg(c, t);
    hide InSeg, Constant;
    var p := c.steps + c.d;
    SlotStep(t, p);
    ProdStep(Slot(t, p), Pos(p - c.Limit()));
    HoldsAt(c, t);
  }

  lemma HoldsAt(c: ExecCfg, t: nat)
    requires Constant(c)
    ensures var g := SegAt(c, t);
            && g.b <= t && Run(c, t + 1).Ok?
            && Run(c, t + 1).value.holdTicks == g.h0 + Pos(g.e + t + 1 - g.b - c.Limit())
  {
    hide Ticked, Run, SegAt, TickAt;
    ClosedForm(c, t);
  }

  lemma PeriodicSeg(c: ExecCfg, t: nat)
    requires c.Valid() && !c.Dropping()
    ensures var p := c.steps + c.d; var o, k := Offset(t, p), Slot(t, p);
            o <= t && SegAt(c, t) == Seg(t - o, 0, c.steps, if t < p then 0 else t - o - c.d, k, Prod(k, Pos(p - c.Limit())))
  {
    var p := c.steps + c.d;
    hide Prod;
    if t < p {
      DivUnique(t, p, 0, t);
      ProdStep(0, Pos(p - c.Limit()));
    } else {
      var u := t - p;
      assert (u / p + 1) * p == u / p * p + p;
      DivUnique(t, p, u / p + 1, u % p);
      ProdStep(u / p, Pos(p - c.Limit()));
    }
  }

  lemma DropSeg(c: ExecCfg, t: nat)
    requires c.Valid() && c.Dropping()
    ensures var first, p, h := c.steps + c.d, Cadence(c), c.horizon;
            if t < first then SegAt(c, t) == Seg(0, 0, c.steps, 0, 0, 0)
            else
              var k, o := (t - first) / p, (t - first) % p;
              && o <= t - first
              && SegAt(c, t) == Seg(t - o, c.d, p - c.d, t - o - c.d, 1 + k, Pos(first - h) + k * Pos(p + c.d - h))
  {
    if t >= c.steps + c.d { SlotStep(t - (c.steps + c.d), Cadence(c)); }
  }

  /** Async drop: up to tick `steps + d` the first chunk runs; after it a chunk lands every `Cadence` ticks, `d` ticks
      after it was asked for, and row `i` of it executes `i` ticks after the request. It never raises. A landing row counts
      as policy wherever it stands; `hold_ticks` counts the ticks past the horizon, chunk by chunk. */
  lemma DropSchedule(c: ExecCfg, t: nat)
    requires Constant(c) && c.Dropping()
    ensures var first := c.steps + c.d;
            var o := if t < first then t else (t - first) % Cadence(c) + c.d;
            var idx, lands := Min(o, c.horizon - 1), o == if t < first then 0 else c.d;
            && o <= t
            && TickAt(c, t) == Ok(ExTick(t, idx, if lands then Some(c.policy.value(t - o)) else None, t - o,
                                         if t < first then 0 else 1 + (t - first) / Cadence(c), c.policy.value(t - o)[idx],
                                         if o >= c.horizon then FromHold
                                         else if lands || idx < c.steps then FromPolicy else FromDrain))
    ensures var first, h := c.steps + c.d, c.horizon;
            && Run(c, t + 1).Ok?
            && Run(c, t + 1).value.holdTicks
               == if t < first then Pos(t + 1 - h)
                  else Pos(first - h) + ((t - first) / Cadence(c)) * Pos(Cadence(c) + c.d - h)
                       + Pos((t - first) % Cadence(c) + c.d + 1 - h)
  {
    hide Ticked, Run, TickAt, InSeg, SegAt, Cadence;
    ClosedForm(c, t);
    HoldsAt(c, t);
    DropSeg(c, t);
  }

  ghost predicate NeverHolds(c: ExecCfg)
    requires Constant(c)
  {
    forall t :: TickAt(c, t).Ok? && TickAt(c, t).value.src != FromHold
  }

  /** Async drop never repeats an action exactly when a chunk outlasts the delay plus the cadence. */
  lemma DropNeverHolds(c: ExecCfg)
    requires Constant(c) && c.Dropping()
    ensures NeverHolds(c) <==> Cadence(c) + c.d <= c.horizon
  {
    hide Ticked, Run, TickAt;
    if Cadence(c) + c.d <= c.horizon {
      forall t ensures TickAt(c, t).Ok? && TickAt(c, t).value.src != FromHold {
        DropSchedule(c, t);
      }
    } else {
      var t := c.steps + c.d + Cadence(c) - 1;
      DropSchedule(c, t);
      DivUnique(Cadence(c) - 1, Cadence(c), 0, Cadence(c) - 1);
      assert TickAt(c, t).value.src == FromHold;
    }
  }

  /** Async freeze never repeats an action exactly when a chunk outlasts the executed prefix plus the delay; sync mode
      exactly when there is no delay. */
  lemma PeriodicNeverHolds(c: ExecCfg)
    requires Constant(c) && !c.Dropping()
    ensures NeverHolds(c) <==> c.steps + c.d <= c.Limit()
  {
    hide Ticked, Run, TickAt;
    var p := c.steps + c.d;
    if p <= c.Limit() {
      forall t ensures TickAt(c, t).Ok? && TickAt(c, t).value.src != FromHold {
        PeriodicSchedule(c, t);
      }
    } else {
      PeriodicSchedule(c, p - 1);
      DivUnique(p - 1, p, 0, p - 1);
      assert TickAt(c, p - 1).value.src == FromHold;
    }
  }

  // ---- laws for any delays --------------------------------------------------------------------------------

  /** Holds between ticks, whatever the delays: one request is in flight or one is due, the current chunk is what the
      policy answered at `asked`, and no chunk is read past its limit. */
  ghost predicate Steady(c: ExecCfg, n: nat, x: Ex, asked: nat)
    requires Supplied(c)
  {
    && x.cur == Some(c.policy.value(asked)) && x.reqRows == None && x.lastTick == Some(n - 1) && n >= 1
    && x.curEmit < n && asked <= x.curEmit && (c.Dropping() ==> x.curEmit == asked)
    && 0 <= x.curSeq < n && x.delivered == x.curSeq + 1 && x.requested >= 1
    && 1 <= x.execPos <= c.Limit()
    && (x.execPos < c.Limit() ==> x.execPos == n - x.curEmit) && x.execPos <= n - x.curEmit
    && (x.inflight.None? ==> n <= x.nextReq)
    && (x.inflight.Some? ==> x.inflight.value.req < n <= x.inflight.value.arrival
                             && x.inflight.value.rows == c.policy.value(x.inflight.value.req))
  }

  /** A tick that delivers carries the next number and the whole chunk, indexed by its age; any other tick repeats the
      current number. Either way the action is the indexed row of the chunk asked for at `asked`. */
  ghost predicate TickFits(c: ExecCfg, x: Ex, t: nat, tick: ExTick, asked: nat)
    requires Supplied(c)
  {
    && tick.t == t && tick.idx < c.horizon && tick.action == c.policy.value(asked)[tick.idx]
    && tick.tEmit <= t && asked <= tick.tEmit && (c.Dropping() ==> tick.tEmit == asked)
    && (tick.chunk.Some? ==> tick.chunk == Some(c.policy.value(asked)) && tick.seqNo == x.curSeq + 1
                             && tick.idx == t - tick.tEmit && tick.src != FromHold)
    && (tick.chunk.None? ==> tick.seqNo == x.curSeq && x.cur == Some(c.policy.value(asked)))
    && (if tick.src == FromHold then x.cur.Some? && x.execPos == c.Limit() && tick.idx == x.execPos - 1
        else tick.idx == t - tick.tEmit)
  }

  ghost function AskedAfter(c: ExecCfg, x: Ex, t: nat, asked: nat): nat {
    if x.inflight.Some? && x.inflight.value.arrival == t then x.inflight.value.req
    else if x.inflight.None? && x.nextReq == t && DelayFor(c, x, t) == 0 then t
    else asked
  }

  /** The state between the arrivals and the choice of the row. */
  ghost predicate Between(c: ExecCfg, n: nat, x: Ex, asked: nat, delivered: bool)
    requires Supplied(c)
  {
    && x.cur == Some(c.policy.value(asked)) && x.reqRows == None && x.lastTick == Some(n)
    && x.curEmit <= n && asked <= x.curEmit && (c.Dropping() ==> x.curEmit == asked)
    && 0 <= x.curSeq <= n && x.delivered == x.curSeq + 1 && x.requested >= 1
    && (if delivered then x.execPos == n - x.curEmit && (!c.Dropping() ==> x.execPos == 0)
        else 1 <= x.execPos <= c.Limit() && x.execPos <= n - x.curEmit
             && (x.execPos < c.Limit() ==> x.execPos == n - x.curEmit))
    && (x.inflight.None? && (delivered ==> x.execPos < c.horizon) ==> n < x.nextReq)
    && (x.inflight.Some? ==> x.inflight.value.req <= n < x.inflight.value.arrival
                             && x.inflight.value.rows == c.policy.value(x.inflight.value.req))
  }

  lemma SteadyAsks(c: ExecCfg, n: nat, x: Ex, asked: nat)
    requires Supplied(c) && Fits(c, x) && (if n == 0 then x == START else Steady(c, n, x, asked))
    ensures var x2 := Asking(c, x, n);
            && Fits(c, x2) && InOrder(x, n) && !Needs(x2, n)
            && (x2.reqRows.Some? <==> x.inflight.None? && x.nextReq == n)
            && x2 == x.(lastTick := Some(n), reqRows := if x2.reqRows.Some? then Some(c.policy.value(n)) else None)
  {}

  /** How a steady state moves along: what landed, under which number, and when it landed stale. */
  ghost predicate MovesOn(c: ExecCfg, n: nat, x: Ex, asked: nat)
    requires Supplied(c) && Fits(c, Asking(c, x, n))
  {
    var m := Moved(c, Asking(c, x, n), n);
    && Between(c, n, m.0, AskedAfter(c, x, n, asked), m.1)
    && m.0.curSeq == (if m.1 then x.curSeq + 1 else x.curSeq)
    && (!m.1 ==> m.0.cur == x.cur && m.0.execPos == x.execPos)
    && (m.1 && m.0.execPos >= c.horizon
        <==> c.Dropping() && x.inflight.Some? && x.inflight.value.arrival == n && n - x.inflight.value.req >= c.horizon)
    && (n == 0 ==> m.1)
  }

  lemma SteadyLands(c: ExecCfg, n: nat, x: Ex, asked: nat)
    requires Supplied(c) && Fits(c, x) && Steady(c, n, x, asked) && Fits(c, Asking(c, x, n))
    requires x.inflight.Some?
    ensures MovesOn(c, n, x, asked)
  {}

  lemma SteadyIdles(c: ExecCfg, n: nat, x: Ex, asked: nat)
    requires Supplied(c) && Fits(c, x) && Steady(c, n, x, asked) && Fits(c, Asking(c, x, n))
    requires x.inflight.None? && x.nextReq != n
    ensures MovesOn(c, n, x, asked)
  {}

  lemma SteadyLaunches(c: ExecCfg, n: nat, x: Ex, asked: nat)
    requires Supplied(c) && Fits(c, x) && (if n == 0 then x == START else Steady(c, n, x, asked)) && Fits(c, Asking(c, x, n))
    requires x.inflight.None? && x.nextReq == n
    ensures MovesOn(c, n, x, asked)
  {}

  lemma SteadyMoves(c: ExecCfg, n: nat, x: Ex, asked: nat)
    requires Supplied(c) && Fits(c, x) && (if n == 0 then x == START else Steady(c, n, x, asked))
    ensures var x2 := Asking(c, x, n);
            && Fits(c, x2) && InOrder(x, n) && !Needs(x2, n) && MovesOn(c, n, x, asked)
  {
    hide Asking, Needs, InOrder, MovesOn, Steady, Supplied;
    SteadyAsks(c, n, x, asked);
    if x.inflight.Some? {
      SteadyLands(c, n, x, asked);
    } else if x.nextReq != n {
      SteadyIdles(c, n, x, asked);
    } else {
      SteadyLaunches(c, n, x, asked);
    }
  }

  lemma SteadyEmits(c: ExecCfg, n: nat, x: Ex, asked: nat, delivered: bool)
    requires Supplied(c) && Fits(c, x) && Between(c, n, x, asked, delivered)
    ensures var r := Emitted(c, x, n, delivered);
            && (r.1.Err? <==> delivered && x.execPos >= c.horizon) && (r.1.Err? ==> r.1.error == StaleChunk)
            && (r.1.Ok? ==> Steady(c, n + 1, r.0, asked)
                            && (r.1.value.chunk.Some? <==> delivered) && r.1.value.seqNo == x.curSeq == r.0.curSeq
                            && r.0.cur == x.cur && r.1.value.action == LastAction(c, r.0))
  {
  }

  /** The action executed on the last tick is the row before the read position. */
  ghost function LastAction(c: ExecCfg, x: Ex): Vec {
    if x.cur.Some? && 1 <= x.execPos <= |x.cur.value| then x.cur.value[x.execPos - 1] else []
  }

  /** One tick from a steady state: it raises only when a dropped chunk arrives with every row already late. */
  lemma SteadyTick(c: ExecCfg, n: nat, x: Ex, asked: nat)
    requires Supplied(c) && Fits(c, x) && (if n == 0 then x == START else Steady(c, n, x, asked))
    ensures var r := Ticked(c, x, n);
            && (r.1.Err? <==> c.Dropping() && x.inflight.Some? && x.inflight.value.arrival == n
                              && n - x.inflight.value.req >= c.horizon)
            && (r.1.Err? ==> r.1.error == StaleChunk)
            && (r.1.Ok? ==> Steady(c, n + 1, r.0, AskedAfter(c, x, n, asked))
                            && TickFits(c, x, n, r.1.value, AskedAfter(c, x, n, asked))
                            && r.0.curSeq == r.1.value.seqNo && (r.1.value.chunk.None? ==> r.0.cur == x.cur)
                            && r.1.value.action == LastAction(c, r.0)
                            && (r.1.value.src == FromHold ==> n > 0 && r.1.value.action == LastAction(c, x))
                            && (n == 0 ==> r.1.value.chunk.Some? && r.1.value.seqNo == 0))
  {
    SteadyMoves(c, n, x, asked);
    var m := Moved(c, Asking(c, x, n), n);
    SteadyEmits(c, n, m.0, AskedAfter(c, x, n, asked), m.1);
    hide Moved, AskedAfter, Steady;
  }

  /** The tick whose request the current chunk answers, after `n` ticks. */
  ghost function AskedAt(c: ExecCfg, n: nat): nat
    requires Supplied(c)
  {
    if n == 0 then 0
    else match Run(c, n - 1)
         case Ok(x) => AskedAfter(c, x, n - 1, AskedAt(c, n - 1))
         case Err(_) => 0
  }

  lemma {:induction false} RunSteady(c: ExecCfg, n: nat)
    requires Supplied(c) && Run(c, n).Ok?
    ensures if n == 0 then Run(c, n).value == START else Steady(c, n, Run(c, n).value, AskedAt(c, n))
  {
    hide Ticked, Steady, AskedAfter, Fits;
    if n > 0 {
      RunSteady(c, n - 1);
      SteadyTick(c, n - 1, Run(c, n - 1).value, AskedAt(c, n - 1));
    }
  }

  /** Any delays, any mode: the only exception of a supplied run is a dropped chunk that arrives wholly late. */
  lemma {:induction false} OnlyStaleChunksRaise(c: ExecCfg, n: nat)
    requires Supplied(c)
    ensures Run(c, n).Err? ==> Run(c, n).error == StaleChunk && c.Dropping()
  {
    hide Ticked, Steady, AskedAfter, Fits;
    if n > 0 {
      OnlyStaleChunksRaise(c, n - 1);
      if Run(c, n - 1).Ok? {
        RunSteady(c, n - 1);
        SteadyTick(c, n - 1, Run(c, n - 1).value, AskedAt(c, n - 1));
      }
    }
  }

  /** Any delays, any mode: a tick executes row `idx` of the chunk asked for at one earlier tick. Outside a hold the
      index is the age of the wire label, so async drop executes row `i` exactly `i` ticks after the request; a hold
      executes the action of the previous tick again. */
  lemma TicksAreRows(c: ExecCfg, t: nat)
    requires Supplied(c) && TickAt(c, t).Ok?
    ensures var tick, asked := TickAt(c, t).value, AskedAt(c, t + 1);
            && tick.idx < c.horizon && asked <= tick.tEmit <= t && tick.action == c.policy.value(asked)[tick.idx]
            && (tick.chunk.Some? ==> tick.chunk.value == c.policy.value(asked))
            && (tick.src != FromHold ==> tick.idx == t - tick.tEmit)
            && (c.Dropping() ==> asked == tick.tEmit)
    ensures TickAt(c, t).value.src == FromHold ==>
              t > 0 && TickAt(c, t - 1).Ok? && TickAt(c, t).value.action == TickAt(c, t - 1).value.action
  {
    hide Ticked, Steady, AskedAfter, Fits, LastAction;
    RunSteady(c, t);
    SteadyTick(c, t, Run(c, t).value, AskedAt(c, t));
    if t > 0 {
      RunSteady(c, t - 1);
      SteadyTick(c, t - 1, Run(c, t - 1).value, AskedAt(c, t - 1));
    }
  }

  // ---- when a run raises ------------------------------------------------------------------------------------

  /** At every tick, the exact exception: a supplied run raises now if and only if it drops late rows and the chunk that
      lands now was asked for a whole horizon ago. */
  lemma RaisesExactly(c: ExecCfg, t: nat)
    requires Supplied(c) && Run(c, t).Ok?
    ensures var flight := Run(c, t).value.inflight;
            TickAt(c, t).Err? <==> c.Dropping() && flight.Some? && flight.value.arrival == t && t - flight.value.req >= c.horizon
    ensures TickAt(c, t).Err? ==> TickAt(c, t).error == StaleChunk
  {
    hide Ticked, Steady, AskedAfter, Fits, LastAction;
    RunSteady(c, t);
    SteadyTick(c, t, Run(c, t).value, AskedAt(c, t));
  }

  /** The delay a later request gets. */
  function DelayOf(c: ExecCfg, t: nat, requested: nat): nat {
    var extra := if c.extra.Some? then c.extra.value(t, requested) else 0;
    c.d + if extra > 0 then extra else 0
  }

  /** Every request is answered within the horizon. */
  ghost predicate Prompt(c: ExecCfg) { forall t, k :: DelayOf(c, t, k) < c.horizon }

  predicate ShortFlight(c: ExecCfg, x: Ex) {
    x.inflight.Some? ==> x.inflight.value.arrival < x.inflight.value.req + c.horizon
  }

  lemma PromptTick(c: ExecCfg, t: nat, x: Ex)
    requires Supplied(c) && Prompt(c) && Fits(c, x) && ShortFlight(c, x)
    ensures ShortFlight(c, Ticked(c, x, t).0)
  {
    assert DelayFor(c, x, t) == if x.requested == 0 then 0 else DelayOf(c, t, x.requested);
    PromptMove(c, t, Asking(c, x, t));
  }

  lemma PromptMove(c: ExecCfg, t: nat, x: Ex)
    requires c.Valid() && Prompt(c) && Fits(c, x) && ShortFlight(c, x)
    ensures ShortFlight(c, Moved(c, x, t).0)
  {
    assert forall y: Ex :: DelayFor(c, y, t) == if y.requested == 0 then 0 else DelayOf(c, t, y.requested);
  }

  /** A caller's condition: when every delay `d + max(0, extra)` is below the horizon, a supplied run never raises, in any
      mode. */
  lemma {:induction false} PromptNeverRaises(c: ExecCfg, n: nat)
    requires Supplied(c) && Prompt(c)
    ensures Run(c, n).Ok? && ShortFlight(c, Run(c, n).value)
  {
    hide Ticked, Prompt;
    if n > 0 {
      PromptNeverRaises(c, n - 1);
      RaisesExactly(c, n - 1);
      PromptTick(c, n - 1, Run(c, n - 1).value);
    }
  }
}
