/** The delayed chunk executor: how added latency turns a policy's chunks into one action a tick. */
module Executor {
  import opened Options
  import opened Fmath

  datatype ExecMode = Sync | Async

  datatype Stitch = Drop | Freeze

  /** The errors are the source's exceptions. */
  datatype ExecError =
    | NegativeDelay | BadSteps | SkipsWholeChunk | AlreadyFulfilled | WrongRowCount | NotConsecutive | NotSupplied
    | NothingToRepeat | StaleChunk

  datatype TickSource = FromPolicy | FromDrain | FromHold

  datatype ExTick = ExTick(
    t: nat, idx: nat, chunk: Option<seq<Vec>>, tEmit: nat, seqNo: int, action: Vec, src: TickSource)

  datatype Flight = Flight(arrival: nat, req: nat, rows: seq<Vec>)

  /** The constructor's arguments. `policy` is called at request time; without it the caller fulfils requests itself. */
  datatype ExecCfg = ExecCfg(
    d: nat, mode: ExecMode, stitch: Stitch, steps: nat, horizon: nat, initial: Option<Vec>,
    policy: Option<nat -> seq<Vec>>, extra: Option<(nat, nat) -> int>)
  {
    predicate Valid() {
      1 <= steps <= horizon && !(Dropping() && d >= horizon)
    }

    /** Chunks are stitched by dropping the rows that are already late. */
    predicate Dropping() { mode == Async && stitch == Drop }

    /** Rows a chunk may execute before the last one is repeated. */
    function Limit(): nat { if mode == Sync then steps else horizon }
  }

  /** `__init__`'s checks, in order. */
  function Checked(d: int, mode: ExecMode, stitch: Stitch, steps: int, horizon: int): (r: Option<ExecError>)
    ensures r.None? <==>
      && d >= 0 && steps >= 0 && horizon >= 0
      && ExecCfg(d, mode, stitch, steps, horizon, None, None, None).Valid()
  {
    if d < 0 then Some(NegativeDelay)
    else if steps < 1 || horizon < steps then Some(BadSteps)
    else if mode == Async && stitch == Drop && d >= horizon then Some(SkipsWholeChunk)
    else None
  }

  datatype Ex = Ex(
    cur: Option<seq<Vec>>, curEmit: nat, curSeq: int, execPos: nat, nextReq: nat, reqRows: Option<seq<Vec>>,
    inflight: Option<Flight>, requested: nat, delivered: nat, holdTicks: nat, lastTick: Option<nat>)

  const START: Ex := Ex(None, 0, -1, 0, 0, None, None, 0, 0, 0, None)

  /** Every stored chunk has the executor's row count, and flights land after they leave. */
  ghost predicate Fits(c: ExecCfg, x: Ex) {
    && (x.cur.Some? ==> |x.cur.value| == c.horizon)
    && (x.reqRows.Some? ==> |x.reqRows.value| == c.horizon)
    && (x.inflight.Some? ==> |x.inflight.value.rows| == c.horizon && x.inflight.value.req <= x.inflight.value.arrival)
  }

  predicate Needs(x: Ex, t: nat) { x.inflight.None? && x.nextReq == t && x.reqRows.None? }

  function Fulfilled(c: ExecCfg, x: Ex, rows: seq<Vec>): (r: Result<Ex, ExecError>)
    ensures Fits(c, x) && r.Ok? ==> Fits(c, r.value)
  {
    if x.reqRows.Some? then Err(AlreadyFulfilled)
    else if |rows| != c.horizon then Err(WrongRowCount)
    else Ok(x.(reqRows := Some(rows)))
  }

  function DelayFor(c: ExecCfg, x: Ex, t: nat): nat {
    if x.requested == 0 then 0
    else
      var extra := if c.extra.Some? then c.extra.value(t, x.requested) else 0;
      c.d + if extra > 0 then extra else 0
  }

  /** The chunk in flight becomes the current one. The state is updated even when the chunk turns out to be stale. */
  function Landed(c: ExecCfg, x: Ex, t: nat): (r: Ex)
    requires x.inflight.Some? && x.inflight.value.req <= t && Fits(c, x)
    ensures Fits(c, r) && r.cur.Some?
  {
    var f := x.inflight.value;
    var emit := if c.Dropping() then f.req else t;
    var x1 := x.(inflight := None, cur := Some(f.rows), curSeq := x.curSeq + 1, delivered := x.delivered + 1,
                 curEmit := emit, execPos := t - emit);
    if x1.execPos >= c.horizon then x1
    else x1.(nextReq := if c.Dropping() && emit + c.steps < t + 1 then t + 1 else emit + c.steps)
  }

  function Launched(c: ExecCfg, x: Ex, t: nat): (r: Ex)
    requires x.reqRows.Some? && Fits(c, x)
    ensures Fits(c, r)
  {
    x.(inflight := Some(Flight(t + DelayFor(c, x, t), t, x.reqRows.value)), reqRows := None,
       requested := x.requested + 1)
  }

  /** `tick` up to the choice of the row: what is in flight, and whether a chunk was delivered. */
  function Moved(c: ExecCfg, x: Ex, t: nat): (r: (Ex, bool))
    requires Fits(c, x)
    ensures Fits(c, r.0) && (r.1 ==> r.0.cur.Some?)
  {
    var arriving := x.inflight.Some? && x.inflight.value.arrival == t;
    var x1 := if arriving then Landed(c, x, t) else x;
    if arriving && x1.execPos >= c.horizon then (x1, true)
    else if x1.reqRows.Some? && x1.nextReq == t && x1.inflight.None? then
      var x2 := Launched(c, x1, t);
      if x2.inflight.value.arrival == t && !arriving then (Landed(c, x2, t), true) else (x2, arriving)
    else (x1, arriving)
  }

  /** The row executed on a tick that moved the requests along. */
  function Emitted(c: ExecCfg, x: Ex, t: nat, delivered: bool): (r: (Ex, Result<ExTick, ExecError>))
    requires c.Valid() && Fits(c, x) && (delivered ==> x.cur.Some?)
    ensures Fits(c, r.0)
  {
    if delivered then
      if x.execPos >= c.horizon then (x, Err(StaleChunk))
      else
        (x.(execPos := x.execPos + 1),
         Ok(ExTick(t, x.execPos, x.cur, x.curEmit, x.curSeq, x.cur.value[x.execPos], FromPolicy)))
    else if x.cur.None? then
      if c.initial.None? then (x, Err(NothingToRepeat))
      else (x.(holdTicks := x.holdTicks + 1), Ok(ExTick(t, 0, None, 0, -1, c.initial.value, FromHold)))
    else if x.execPos < c.Limit() then
      (x.(execPos := x.execPos + 1),
       Ok(ExTick(t, x.execPos, None, x.curEmit, x.curSeq, x.cur.value[x.execPos],
                 if x.execPos < c.steps then FromPolicy else FromDrain)))
    else
      (x.(holdTicks := x.holdTicks + 1),
       Ok(ExTick(t, c.Limit() - 1, None, x.curEmit, x.curSeq, x.cur.value[c.Limit() - 1], FromHold)))
  }

  predicate InOrder(x: Ex, t: nat) { if x.lastTick.Some? then t == x.lastTick.value + 1 else t == 0 }

  /** One tick: the state it leaves and what it returns or raises. */
  function Ticked(c: ExecCfg, x: Ex, t: nat): (r: (Ex, Result<ExTick, ExecError>))
    requires c.Valid() && Fits(c, x)
    ensures Fits(c, r.0)
  {
    if !InOrder(x, t) then (x, Err(NotConsecutive))
    else
      var x1 := x.(lastTick := Some(t));
      var asked := c.policy.Some? && Needs(x1, t);
      if asked && |c.policy.value(t)| != c.horizon then (x1, Err(WrongRowCount))
      else
        var x2 := if asked then x1.(reqRows := Some(c.policy.value(t))) else x1;
        if Needs(x2, t) then (x2, Err(NotSupplied))
        else
          var m := Moved(c, x2, t);
          Emitted(c, m.0, t, m.1)
  }

  // ---- the object -----------------------------------------------------------------------------------------

  class DelayedExecutor {
    const c: ExecCfg
    var cur: Option<seq<Vec>>
    var curEmit: nat
    var curSeq: int
    var execPos: nat
    var nextReq: nat
    var reqRows: Option<seq<Vec>>
    var inflight: Option<Flight>
    var requested: nat
    var delivered: nat
    var holdTicks: nat
    var lastTick: Option<nat>

    ghost function State(): Ex
      reads this
    {
      Ex(cur, curEmit, curSeq, execPos, nextReq, reqRows, inflight, requested, delivered, holdTicks, lastTick)
    }

    ghost predicate Valid()
      reads this
    {
      c.Valid() && Fits(c, State())
    }

    constructor (cfg: ExecCfg)
      requires cfg.Valid()
      ensures Valid() && c == cfg && State() == START
    {
      c := cfg;
      cur, curEmit, curSeq, execPos, nextReq := None, 0, -1, 0, 0;
      reqRows, inflight, requested, delivered, holdTicks, lastTick := None, None, 0, 0, 0, None;
    }

    method NeedsChunk(t: nat) returns (r: bool)
      ensures r == Needs(State(), t)
    {
      r := inflight.None? && nextReq == t && reqRows.None?;
    }

    method Fulfil(rows: seq<Vec>) returns (error: Option<ExecError>)
      requires Valid()
      modifies this`reqRows
      ensures Valid()
      ensures match Fulfilled(c, old(State()), rows)
              case Ok(x) => error == None && State() == x
              case Err(e) => error == Some(e) && State() == old(State())
    {
      if reqRows.Some? { return Some(AlreadyFulfilled); }
      if |rows| != c.horizon { return Some(WrongRowCount); }
      reqRows := Some(rows);
      return None;
    }

    method Delay(t: nat) returns (r: nat)
      ensures r == DelayFor(c, State(), t)
    {
      if requested == 0 { return 0; }
      var extra := 0;
      if c.extra.Some? {
        extra := c.extra.value(t, requested);
      }
      r := c.d + if extra > 0 then extra else 0;
    }

    method Deliver(t: nat) returns (stale: bool)
      requires Valid() && inflight.Some? && inflight.value.req <= t
      modifies this`cur, this`curEmit, this`curSeq, this`execPos, this`nextReq, this`inflight, this`delivered
      ensures Valid() && State() == Landed(c, old(State()), t) && stale == (execPos >= c.horizon)
    {
      var f := inflight.value;
      inflight := None;
      cur := Some(f.rows);
      curSeq := curSeq + 1;
      delivered := delivered + 1;
      if c.mode == Sync || c.stitch == Freeze {
        curEmit := t;
        execPos := 0;
      } else {
        curEmit := f.req;
        execPos := t - f.req;
      }
      if execPos >= c.horizon { return true; }
      if c.mode == Sync || c.stitch == Freeze {
        nextReq := t + c.steps;
      } else {
        nextReq := Max(curEmit + c.steps, t + 1);
      }
      return false;
    }

    function Max(a: nat, b: nat): nat { if a < b then b else a }

    /** Parts (a0), (b) and (a1) of `tick`: arrivals and departures. */
    method Move(t: nat) returns (delivered': bool, stale: bool)
      requires Valid()
      modifies this
      ensures Valid() && (State(), delivered') == Moved(c, old(State()), t)
      ensures stale == (delivered' && execPos >= c.horizon)
    {
      hide ExecCfg.Valid;
      delivered', stale := false, false;
      if inflight.Some? && inflight.value.arrival == t {
        stale := Deliver(t);
        delivered' := true;
        if stale { return; }
      }
      if reqRows.Some? && nextReq == t && inflight.None? {
        var delay := Delay(t);
        inflight := Some(Flight(t + delay, t, reqRows.value));
        reqRows := None;
        requested := requested + 1;
        if inflight.value.arrival == t && !delivered' {
          stale := Deliver(t);
          delivered' := true;
        }
      }
    }

    /** One executor tick. */
    method Tick(t: nat) returns (r: Result<ExTick, ExecError>)
      requires Valid()
      modifies this
      ensures Valid() && (State(), r) == Ticked(c, old(State()), t)
    {
      hide Moved, Fits;
      if lastTick.Some? && t != lastTick.value + 1 { return Err(NotConsecutive); }
      if lastTick.None? && t != 0 { return Err(NotConsecutive); }
      lastTick := Some(t);
      TouchKeepsFits(c, old(State()), lastTick);
      if c.policy.Some? && inflight.None? && nextReq == t && reqRows.None? {
        var error := Fulfil(c.policy.value(t));
        if error.Some? { return Err(error.value); }
      }
      var missing := NeedsChunk(t);
      if missing { return Err(NotSupplied); }
      var delivered', stale := Move(t);
      if stale { return Err(StaleChunk); }
      r := Emit(t, delivered');
    }

    /** The row of this tick. */
    method Emit(t: nat, delivered': bool) returns (r: Result<ExTick, ExecError>)
      requires Valid() && (delivered' ==> cur.Some? && execPos < c.horizon)
      modifies this`execPos, this`holdTicks
      ensures Valid() && (State(), r) == Emitted(c, old(State()), t, delivered')
    {
      if delivered' {
        var idx := execPos;
        execPos := idx + 1;
        return Ok(ExTick(t, idx, cur, curEmit, curSeq, cur.value[idx], FromPolicy));
      }
      if cur.None? {
        if c.initial.None? { return Err(NothingToRepeat); }
        holdTicks := holdTicks + 1;
        return Ok(ExTick(t, 0, None, 0, -1, c.initial.value, FromHold));
      }
      var limit := if c.mode == Sync then c.steps else c.horizon;
      if execPos < limit {
        var idx := execPos;
        execPos := idx + 1;
        var src := if idx < c.steps then FromPolicy else FromDrain;
        return Ok(ExTick(t, idx, None, curEmit, curSeq, cur.value[idx], src));
      }
      holdTicks := holdTicks + 1;
      return Ok(ExTick(t, limit - 1, None, curEmit, curSeq, cur.value[limit - 1], FromHold));
    }
  }

  lemma TouchKeepsFits(c: ExecCfg, x: Ex, last: Option<nat>)
    requires Fits(c, x)
    ensures Fits(c, x.(lastTick := last))
  {}
}
