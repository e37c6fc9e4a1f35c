/** The fuse as an object: `FuseRt` holds the run-time fields, and `Decide` updates them stage by stage. Every method is
    proved against the value-level tick of module `Fuse`. */
module FuseRuntime {
  import opened Ints
  import opened Options
  import opened Fmath
  import opened Core
  import opened Tier0
  import opened Brake
  import opened Conformal
  import opened Window
  import opened Fsm
  import opened Escalation
  import opened Tally
  import opened Fuse

  /** The velocity estimate when none is supplied: zero on the first tick. */
  method FiniteDifference(cfg: FuseConfig, pos: Vec, prev: Vec, have: bool) returns (v: Vec)
    requires |pos| == |prev| == cfg.dim
    ensures v == if have then Differences(cfg, pos, prev) else ZeroVec(cfg.dim)
  {
    v := [];
    var c := 0;
    while c < cfg.dim
      invariant |v| == c <= cfg.dim
      invariant forall k :: 0 <= k < c ==> v[k] == if have then Differences(cfg, pos, prev)[k] else 0.0
    {
      v := v + [if have then (pos[c] - prev[c]) * cfg.invDt else 0.0];
      c := c + 1;
    }
  }

  class FuseRt {
    const cfg: FuseConfig
    const ladder: Ladder
    var cur: Option<Chunk>
    var scratch: Option<Chunk>
    var seqNo: u32
    var lastT: u32
    var nextChunkSeq: u32
    var pos: Vec
    var prevPos: Vec
    var vel: Vec
    var havePrevPos: bool
    var lastCmd: Vec
    var chunkOk: bool
    var tally: Counters

    /** The abstract state of the fuse. */
    ghost function Snapshot(): Rt
      reads this, ladder, ladder.window
    {
      Rt(ladder.Table(), cur, scratch, seqNo, lastT, nextChunkSeq, pos, prevPos, vel, havePrevPos, lastCmd, chunkOk, tally)
    }

    ghost predicate Valid()
      reads this, ladder, ladder.window
    {
      && cfg.Valid() && cfg.windowMask == MaskOf(cfg.hyst.n) && ladder.cfg == cfg
      && ladder.Valid() && RtFits(cfg, Snapshot())
    }

    /** `Fuse::new` followed by `reset`: an armed fuse. */
    constructor (c: FuseConfig)
      requires c.Valid() && c.windowMask == MaskOf(c.hyst.n)
      ensures Valid() && fresh(ladder) && fresh(ladder.window) && cfg == c && Snapshot() == Fresh(c.dim)
    {
      cfg := c;
      ladder := new Ladder(c);
      cur, scratch, seqNo, lastT, nextChunkSeq := None, None, 0, 0, 0;
      pos, prevPos, vel, havePrevPos := ZeroVec(c.dim), ZeroVec(c.dim), ZeroVec(c.dim), false;
      lastCmd, chunkOk, tally := ZeroVec(c.dim), false, EmptyTally();
    }

    /** Clears everything for a new episode. */
    method Reset()
      requires Valid()
      modifies this, ladder, ladder.window
      ensures Valid() && Snapshot() == Fresh(cfg.dim)
    {
      hide MaskOf, FuseConfig.Valid, Ladder.Valid, RtFits, EmptyTally, ZeroVec, ArmedTable, NoNonces;
      FreshFits(cfg);
      ClearFields();
      ladder.Reset();
    }

    method ClearFields()
      modifies this
      ensures cur == None && scratch == None && seqNo == 0 && lastT == 0 && nextChunkSeq == 0 && !havePrevPos && !chunkOk
      ensures pos == prevPos == vel == lastCmd == ZeroVec(cfg.dim) && tally == EmptyTally()
    {
      cur, scratch, seqNo, lastT, nextChunkSeq := None, None, 0, 0, 0;
      pos, prevPos, vel, havePrevPos := ZeroVec(cfg.dim), ZeroVec(cfg.dim), ZeroVec(cfg.dim), false;
      lastCmd, chunkOk, tally := ZeroVec(cfg.dim), false, EmptyTally();
    }

    /** The supplied velocity, or the finite difference against the last position. */
    method EstimateVelocity(obs: Obs) returns (v: Vec)
      requires Valid() && |obs.pos| == cfg.dim && (obs.vel.Some? ==> |obs.vel.value| == cfg.dim)
      ensures v == IngestedVel(cfg, Snapshot(), obs)
    {
      hide MaskOf, FuseConfig.Valid, Ladder.Valid;
      if obs.vel.Some? {
        v := obs.vel.value;
      } else {
        v := FiniteDifference(cfg, obs.pos, pos, havePrevPos);
      }
    }

    /** Stage 1: the observation becomes the current position and velocity. */
    method Ingest(inp: TickInput)
      requires Valid() && |inp.obs.pos| == cfg.dim && (inp.obs.vel.Some? ==> |inp.obs.vel.value| == cfg.dim)
      modifies this`prevPos, this`pos, this`vel, this`havePrevPos, this`lastT, this`nextChunkSeq
      ensures Valid() && Snapshot() == Ingested(cfg, old(Snapshot()), inp)
    {
      hide MaskOf, FuseConfig.Valid, Ladder.Valid, Ladder.Table, RtFits, IngestedVel;
      ghost var after := Ingested(cfg, Snapshot(), inp);
      var v := EstimateVelocity(inp.obs);
      TakePosition(inp, v);
      assert Snapshot() == after;
    }

    method TakePosition(inp: TickInput, v: Vec)
      modifies this`prevPos, this`pos, this`vel, this`havePrevPos, this`lastT, this`nextChunkSeq
      ensures prevPos == old(pos) && pos == inp.obs.pos && vel == v && havePrevPos && lastT == inp.obs.t
      ensures nextChunkSeq == if inp.chunk.Some? then Wrap32(old(nextChunkSeq)) else old(nextChunkSeq)
    {
      prevPos, pos, vel, havePrevPos := pos, inp.obs.pos, v, true;
      lastT := inp.obs.t;
      if inp.chunk.Some? {
        nextChunkSeq := Wrap32(nextChunkSeq);
      }
    }

    /** Stage 2 on a delivery tick: check, project, roll the brake forward, keep the chunk. */
    method Deliver(inp: TickInput, ch: Chunk) returns (trips: Trips, clampedDims: set<nat>, margin: Ext)
      requires Valid() && |inp.obs.pos| == cfg.dim && pos == inp.obs.pos && Shaped(ch.rows, cfg.horizon, cfg.dim)
      modifies this`scratch, this`cur, this`tally
      ensures var t0 := DeliveryCheck(cfg, inp.obs, vel, ch, inp.idx);
              && trips == t0.trips && clampedDims == t0.clampedDims && margin == t0.margin
              && scratch == Some(t0.scratch) && cur == Some(t0.cur)
              && tally == RecordedChunk(old(tally), trips * TIER0_HARD != {})
    {
      hide CheckedChunk, ChunkOut, RolloutMargin, Dist, MaskOf, Ladder.Valid;
      var out := new Vec[|ch.rows|];
      var t0 := CheckChunk(cfg, inp.obs, ch.rows, out);
      scratch := Some(ch.(rows := out[..]));
      var brake := BrakeFeasible(cfg, pos, vel, out[..], inp.idx);
      trips := Masked0(cfg, t0.trips, brake.feasible);
      clampedDims, margin := t0.clampedDims, brake.margin;
      cur := if cfg.mode == Observe then Some(ch) else scratch;
      tally := RecordedChunk(tally, trips * TIER0_HARD != {});
    }

    /** Stage 2 between deliveries: check the committed row against the last command. */
    method Commit(inp: TickInput) returns (trips: Trips, clampedDims: set<nat>, margin: Ext)
      requires Valid() && |inp.obs.pos| == cfg.dim && pos == inp.obs.pos && inp.idx < cfg.horizon && cur.Some?
      modifies this`scratch
      ensures var t0 := CommittedCheck(cfg, inp.obs, vel, lastCmd, cur.value,
                                       if old(scratch).Some? then old(scratch).value else cur.value, inp.idx);
              trips == t0.trips && clampedDims == t0.clampedDims && margin == t0.margin && scratch == Some(t0.scratch)
    {
      hide CheckedAction, ActionOut, RolloutMargin, Dist, MaskOf, Ladder.Valid;
      if scratch.None? {
        scratch := cur;
      }
      var rows := cur.value.rows;
      var t0, out := CheckAction(cfg, inp.obs, lastCmd, rows[inp.idx]);
      scratch := Some(scratch.value.(rows := scratch.value.rows[inp.idx := out]));
      var brake := BrakeFeasible(cfg, pos, vel, rows, inp.idx);
      trips := Masked0(cfg, t0.trips, brake.feasible);
      clampedDims, margin := t0.clampedDims, brake.margin;
    }

    /** Stages 3 and 4. */
    method Score(inp: TickInput) returns (sc: Scores)
      requires cfg.Valid() && inp.Fits()
      ensures sc == TickScores(cfg, inp)
    {
      hide Standardised, Aggregate, Fired;
      var f, valid := ZeroVec(NFEAT), {};
      if cfg.calib.Armed() {
        f, valid := inp.feats.f, inp.feats.valid;
      }
      var z := Standardise(cfg.calib, inp.obs.t, f, valid);
      var s, fired := AggregateLoop(cfg.calib, z, valid);
      sc := Scores(f, z, s, valid, fired);
    }

    /** A GUARD tick takes row 1 of the table: Fault is latched where the robot is. */
    method LatchFault(inp: TickInput, bits: Trips) returns (hits: nat, extra: Trips, reason: ReasonCode)
      requires Valid()
      modifies this`pos, this`lastT, ladder, ladder.window
      ensures var rt := old(Snapshot());
              var p := FaultPos(cfg, rt, inp.obs);
              var o := Next(cfg, rt.fsm, p, FaultInput(cfg, inp, bits));
              && Snapshot() == rt.(fsm := o.rt, pos := p, lastT := inp.obs.t) && Valid()
              && hits == RecentHits(rt.fsm.hist, cfg.hyst.n) && extra == o.extra && reason == o.reason
    {
      hide MaskOf, Ladder.Valid, Next, RecentHits, ClampBox, FuseConfig.Valid, RtFits, AckReason;
      Shapes(cfg, Snapshot());
      ghost var was := Snapshot();
      if |inp.obs.pos| == cfg.dim && inp.obs.posFinite {
        pos := inp.obs.pos;
      }
      lastT := inp.obs.t;
      hits := ladder.Hits();
      var fin := FaultInput(cfg, inp, bits);
      TableEffects(cfg, ladder.Table(), pos, fin);
      extra, reason := ladder.NextRow(pos, fin);
      MovePos(cfg, was, ladder.Table(), pos, lastT);
    }

    /** A GUARD tick: latch Fault, hold, return. */
    method FaultStep(inp: TickInput, bits: Trips) returns (v: Verdict)
      requires Valid()
      modifies this, ladder, ladder.window
      ensures Valid() && (Snapshot(), v) == FaultTick(cfg, old(Snapshot()), inp, bits)
    {
      hide MaskOf, Ladder.Valid, Next, Recorded, RecentHits, ClampBox, FuseConfig.Valid, FaultInput;
      var prevState := ladder.state;
      var hits, extra, reason := LatchFault(inp, bits);
      var action := HoldAction(cfg, ladder.hold);
      v := FaultVerdict(seqNo, inp.obs.t, prevState, ladder.state, bits + extra, action, hits, reason);
      Close(v, action, NO_EVENTS);
    }

    /** Stage 5: the hit enters the window, and the table's input is assembled. */
    method PushAndSense(inp: TickInput, trips: Trips, sc: Scores) returns (hits: nat, fin: FsmInput)
      requires Valid()
      modifies ladder.window
      ensures var rt := old(Snapshot());
              var hist := rt.fsm.hist + [Hit(cfg, sc)];
              && Snapshot() == rt.(fsm := rt.fsm.(hist := hist)) && Valid()
              && hits == RecentHits(hist, cfg.hyst.n) && fin == FsmInputOf(cfg, rt, inp, trips, sc, hist)
    {
      hide MaskOf, Ladder.Valid, RecentHits, Hit, Warn, FuseConfig.Valid;
      ladder.PushHit(Hit(cfg, sc));
      hits := ladder.Hits();
      var norm := NormLoop(cfg.sqrt, vel, cfg.dim);
      fin := FsmInput(trips, hits >= cfg.hyst.k, Warn(cfg, sc), cfg.clamp == Project,
                      cfg.mode == Observe || norm <= cfg.hyst.vStopEps,
                      inp.chunk.Some?, inp.chunk.Some? && trips == {}, inp.ack);
    }

    /** Stages 5 and 6: then the table takes one step. */
    method StepTable(inp: TickInput, trips: Trips, sc: Scores) returns (hits: nat, extra: Trips, reason: ReasonCode)
      requires Valid() && |sc.z| == NFEAT
      modifies this`chunkOk, ladder, ladder.window
      ensures Valid()
      ensures var rt := old(Snapshot());
              var hist := rt.fsm.hist + [Hit(cfg, sc)];
              var fin := FsmInputOf(cfg, rt, inp, trips, sc, hist);
              var o := Next(cfg, rt.fsm.(hist := hist), rt.pos, fin);
              && Snapshot() == rt.(fsm := o.rt, chunkOk := fin.chunkOk)
              && hits == RecentHits(hist, cfg.hyst.n) && extra == o.extra && reason == o.reason
    {
      hide MaskOf, Ladder.Valid, Next, RecentHits, Hit, FsmInputOf, ClampBox, FuseConfig.Valid, RtFits;
      Shapes(cfg, Snapshot());
      ghost var was := Snapshot();
      var fin;
      hits, fin := PushAndSense(inp, trips, sc);
      TableEffects(cfg, ladder.Table(), pos, fin);
      extra, reason := ladder.NextRow(pos, fin);
      chunkOk := fin.chunkOk;
      SwapTable(cfg, was, ladder.Table(), fin.chunkOk);
    }

    /** Stage 7: the action and its source. */
    method Act(idx: nat) returns (src: ActionSource, action: Vec)
      requires Valid() && idx < cfg.horizon && cur.Some? && scratch.Some?
      ensures src == SourceOf(ladder.state)
      ensures action == ActionOf(cfg, pos, ladder.hold, cur.value.rows, scratch.value.rows, src, idx)
    {
      hide MaskOf, Ladder.Valid, ClampBox;
      src := SourceOf(ladder.state);
      action := cur.value.rows[idx];
      if cfg.mode == Enforce {
        match src {
          case SrcPolicy =>
          case SrcClamped => action := scratch.value.rows[idx];
          case SrcBrake => action := BrakeAction(cfg, pos);
          case SrcHold => action := HoldAction(cfg, ladder.hold);
        }
      }
    }

    /** Stage 8: the verdict is final; the tally, the last command and the tick counter follow. */
    method Close(v: Verdict, action: Vec, ev: TickEvents)
      requires tally.Fits() && |v.scores.z| == NFEAT
      modifies this`tally, this`lastCmd, this`seqNo
      ensures tally == Recorded(old(tally), v, ev) && lastCmd == action && seqNo == Inc32(old(seqNo))
    {
      tally := Record(tally, v, ev);
      lastCmd := action;
      seqNo := Inc32(seqNo);
    }

    /** Stages 5 to 8 of an admissible tick. */
    method Conclude(inp: TickInput, trips: Trips, clampedDims: set<nat>, margin: Ext, sc: Scores) returns (v: Verdict)
      requires Valid() && inp.Fits() && inp.idx < cfg.horizon && cur.Some? && scratch.Some? && |sc.z| == NFEAT
      modifies this, ladder, ladder.window
      ensures Valid()
      ensures var rt := old(Snapshot());
              var t0 := T0(trips, clampedDims, margin, rt.scratch.value, rt.cur.value);
              (Snapshot(), v) == Concluded(cfg, rt, inp, t0, sc)
    {
      hide MaskOf, Ladder.Valid, Next, Recorded, RecentHits, Hit, ClampBox, FuseConfig.Valid, ActionOf, FsmInputOf,
           VerdictOf, EventsOf, SourceOf;
      var prevState, clampsBefore, rearmsBefore := ladder.state, ladder.clamps, ladder.rearms;
      var hits, extra, reason := StepTable(inp, trips, sc);
      var src, action := Act(inp.idx);
      v := VerdictOf(cfg, seqNo, inp, prevState, ladder.state, ladder.handoffSeq, trips + extra, action, clampedDims,
                     margin, sc, hits, reason);
      var ev := EventsOf(prevState, ladder.state, ladder.rearms != rearmsBefore, ladder.clamps != clampsBefore,
                         cfg.calib.mask * sc.valid);
      Close(v, action, ev);
    }

    /** One tick: the new state and the verdict are those of the value-level `Fuse.Decide`. */
    method Decide(inp: TickInput) returns (v: Verdict)
      requires Valid() && inp.Fits()
      modifies this, ladder, ladder.window
      ensures Valid() && (Snapshot(), v) == Fuse.Decide(cfg, old(Snapshot()), inp)
    {
      hide MaskOf, Ladder.Valid, DeliveryCheck, CommittedCheck, TickScores, FaultTick, Concluded, Guard;
      var bits := GuardNow(inp);
      if bits != {} {
        v := FaultStep(inp, bits);
        return;
      }
      AdmissibleShapes(cfg, Snapshot(), inp);
      Ingest(inp);
      var trips, clampedDims, margin;
      if inp.chunk.Some? {
        trips, clampedDims, margin := Deliver(inp, inp.chunk.value);
      } else {
        trips, clampedDims, margin := Commit(inp);
      }
      var sc := Score(inp);
      v := Conclude(inp, trips, clampedDims, margin, sc);
    }

    /** Stage 0 reads the fields and changes nothing. */
    method GuardNow(inp: TickInput) returns (bits: Trips)
      requires Valid()
      ensures bits == Guard(cfg, Snapshot(), inp)
    {
      bits := {};
      if NonFinite(inp) { bits := bits + {NONFINITE}; }
      var schema := inp.schemaFault || inp.idx >= cfg.horizon || |inp.obs.pos| != cfg.dim
                    || |inp.obs.aux| > MAX_AUX || |inp.obs.ext| > MAX_EXT;
      if inp.obs.vel.Some? { schema := schema || |inp.obs.vel.value| != cfg.dim; }
      if inp.chunk.Some? {
        var c := inp.chunk.value;
        schema := schema || c.dim != cfg.dim || c.horizon != cfg.horizon || c.execSteps != cfg.exec
                  || !Shaped(c.rows, c.horizon, c.dim) || c.seqNo != nextChunkSeq
                  || c.tEmit > inp.obs.t || inp.idx != inp.obs.t - c.tEmit;
      } else {
        schema := schema || cur.None?;
      }
      if seqNo == 0 {
        schema := schema || inp.obs.t != 0;
      } else {
        schema := schema || lastT + 1 + inp.missedTicks != inp.obs.t;
      }
      if schema { bits := bits + {SCHEMA}; }
      if inp.missedTicks > cfg.hyst.watchdogTicks { bits := bits + {WATCHDOG}; }
    }
  }
}
