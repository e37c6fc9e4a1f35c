/** The executor and the fuse together: the stream one produces is a stream the other accepts. */
module Compose {
  import opened Ints
  import opened Options
  import opened Core
  import opened Tier0
  import opened Brake
  import opened Fsm
  import opened Tally
  import opened Fuse
  import opened Runs
  import opened Executor
  import opened Schedule

  /** What reaches the fuse beside the executor's tick: the observation, an ack, the feature row. */
  datatype Sense = Sense(obs: Obs, ack: Option<VerifiedAck>, feats: Features)

  predicate Sound(cfg: FuseConfig, s: Sense) {
    && |s.obs.pos| == cfg.dim && s.obs.posFinite && |s.obs.aux| <= MAX_AUX && s.obs.auxFinite
    && |s.obs.ext| <= MAX_EXT && s.obs.extFinite && |s.feats.f| == NFEAT
    && (s.obs.vel.Some? ==> s.obs.velFinite && |s.obs.vel.value| == cfg.dim)
  }

  /** The two machines agree on the chunk's shape, and the policy's rows have the fuse's dimension. */
  ghost predicate Matched(cfg: FuseConfig, c: ExecCfg) {
    && cfg.Valid() && Supplied(c) && c.horizon == cfg.horizon && c.steps == cfg.exec
    && forall t :: Shaped(c.policy.value(t), cfg.horizon, cfg.dim)
  }

  /** The wire labels of an executor tick. */
  ghost predicate OnWire(cfg: FuseConfig, tick: ExTick) {
    && cfg.Valid() && tick.t < 0x1_0000_0000 && tick.idx < cfg.horizon && tick.tEmit <= tick.t
    && 0 <= tick.seqNo < 0x1_0000_0000
  }

  ghost function Feed(cfg: FuseConfig, tick: ExTick, s: Sense): (r: TickInput)
    requires OnWire(cfg, tick)
    ensures |s.feats.f| == NFEAT ==> r.Fits()
  {
    var ch := if tick.chunk.None? then None
              else Some(Chunk(tick.seqNo, tick.tEmit, cfg.horizon, cfg.dim, cfg.exec, tick.chunk.value, true));
    TickInput(s.obs.(t := tick.t), ch, tick.idx, 0, s.ack, false, s.feats)
  }

  /** What links the two states after `n` ticks. */
  ghost predicate Linked(cfg: FuseConfig, c: ExecCfg, n: nat, x: Ex, rt: Rt)
    requires Matched(cfg, c)
  {
    if n == 0 then rt.seqNo == 0 && rt.nextChunkSeq == 0
    else
      && x.cur.Some? && rt.cur.Some? && (cfg.mode == Observe ==> rt.cur.value.rows == x.cur.value)
      && rt.seqNo > 0 && rt.lastT == n - 1 && rt.nextChunkSeq == (x.curSeq + 1) % 0x1_0000_0000
  }

  /** The fuse's side of one tick that passes the guard. */
  lemma AdmittedTick(cfg: FuseConfig, rt: Rt, inp: TickInput)
    requires cfg.Valid() && RtFits(cfg, rt) && inp.Fits() && Admissible(cfg, rt, inp)
    ensures var (rt', v) := Decide(cfg, rt, inp);
            && rt'.seqNo == Inc32(rt.seqNo) && rt'.lastT == inp.obs.t && rt'.cur.Some?
            && rt'.nextChunkSeq == (if inp.chunk.Some? then Wrap32(rt.nextChunkSeq) else rt.nextChunkSeq)
            && (cfg.mode == Observe ==>
                && rt'.cur.value.rows == (if inp.chunk.Some? then inp.chunk.value.rows else rt.cur.value.rows)
                && inp.idx < |rt'.cur.value.rows| && v.action == rt'.cur.value.rows[inp.idx])
  {
    hide Next, Recorded, TickScores, ClampBox, CheckedChunk, CheckedAction, ChunkOut, ActionOut, RolloutMargin, Masked0,
         VerdictOf, EventsOf, FsmInputOf, IngestedVel;
    AdmissibleTick(cfg, rt, inp);
  }

  /** One tick of both: the guard passes, the link is kept, and Observe passes the executor's action through. */
  lemma LinkedTick(cfg: FuseConfig, c: ExecCfg, n: nat, rt: Rt, s: Sense)
    requires Matched(cfg, c) && RtFits(cfg, rt) && Sound(cfg, s) && n < 0x1_0000_0000
    requires Run(c, n).Ok? && TickAt(c, n).Ok? && Linked(cfg, c, n, Run(c, n).value, rt)
    ensures Run(c, n + 1).Ok? && OnWire(cfg, TickAt(c, n).value)
    ensures var inp := Feed(cfg, TickAt(c, n).value, s);
            && Guard(cfg, rt, inp) == {}
            && Linked(cfg, c, n + 1, Run(c, n + 1).value, Decide(cfg, rt, inp).0)
            && (cfg.mode == Observe ==> Decide(cfg, rt, inp).1.action == TickAt(c, n).value.action)
  {
    hide Ticked, AskedAfter, Executor.Fits, LastAction, Decide, FuseConfig.Valid;
    RunSteady(c, n);
    SteadyTick(c, n, Run(c, n).value, AskedAt(c, n));
    var tick := TickAt(c, n).value;
    assert OnWire(cfg, tick);
    var inp := Feed(cfg, tick, s);
    assert !NonFinite(inp) && !TimeBreaks(rt, inp) && !BreaksSchema(cfg, rt, inp);
    AdmittedTick(cfg, rt, inp);
  }

  /** A run of the executor that does not raise on its first `n` ticks. */
  ghost predicate Ran(c: ExecCfg, n: nat)
    requires c.Valid()
  {
    forall t :: 0 <= t < n ==> TickAt(c, t).Ok?
  }

  lemma {:induction false} RanIsOk(c: ExecCfg, n: nat)
    requires c.Valid() && Ran(c, n)
    ensures Run(c, n).Ok?
  {
    hide Ticked;
    if n > 0 {
      RanIsOk(c, n - 1);
      assert TickAt(c, n - 1).Ok?;
    }
  }

  /** The fuse's inputs over the run: the executor's ticks, each with what was sensed. */
  ghost function Stream(cfg: FuseConfig, c: ExecCfg, senses: seq<Sense>): (r: seq<TickInput>)
    requires Matched(cfg, c) && Ran(c, |senses|) && |senses| <= 0x1_0000_0000
    requires forall i :: 0 <= i < |senses| ==> Sound(cfg, senses[i])
    ensures |r| == |senses| && AllInputsFit(r)
    ensures forall i :: 0 <= i < |senses| ==> OnWire(cfg, TickAt(c, i).value) && r[i] == Feed(cfg, TickAt(c, i).value, senses[i])
  {
    Labels(cfg, c, |senses|);
    var r := seq(|senses|, i requires 0 <= i < |senses| => Feed(cfg, TickAt(c, i).value, senses[i]));
    assert forall i :: 0 <= i < |r| ==> Sound(cfg, senses[i]) ==> r[i].Fits();
    r
  }

  lemma Labels(cfg: FuseConfig, c: ExecCfg, n: nat)
    requires Matched(cfg, c) && Ran(c, n) && n <= 0x1_0000_0000
    ensures forall i :: 0 <= i < n ==> OnWire(cfg, TickAt(c, i).value)
  {
    hide Ticked, AskedAfter, Executor.Fits, LastAction;
    forall i | 0 <= i < n
      ensures OnWire(cfg, TickAt(c, i).value)
    {
      RanIsOk(c, i);
      RunSteady(c, i);
      SteadyTick(c, i, Run(c, i).value, AskedAt(c, i));
    }
  }

  lemma LinkedAtReset(cfg: FuseConfig, c: ExecCfg)
    requires Matched(cfg, c)
    ensures Linked(cfg, c, 0, START, Fresh(cfg.dim))
  {}

  lemma {:induction false} RunLinked(cfg: FuseConfig, c: ExecCfg, senses: seq<Sense>, n: nat)
    requires Matched(cfg, c) && Ran(c, |senses|) && |senses| <= 0x1_0000_0000 && n <= |senses|
    requires forall i :: 0 <= i < |senses| ==> Sound(cfg, senses[i])
    ensures Run(c, n).Ok? && Linked(cfg, c, n, Run(c, n).value, StateAfter(cfg, Stream(cfg, c, senses)[..n]))
  {
    hide Decide, Ticked, Feed, Executor.Fits, Linked, RtFits, FuseConfig.Valid, Fresh;
    if n == 0 {
      LinkedAtReset(cfg, c);
    } else {
      RunLinked(cfg, c, senses, n - 1);
      var inps := Stream(cfg, c, senses);
      StateStep(cfg, inps, n - 1);
      assert TickAt(c, n - 1).Ok?;
      LinkedTick(cfg, c, n - 1, StateAfter(cfg, inps[..n - 1]), senses[n - 1]);
    }
  }

  /** The two machines compose. For every mode and every delay, while the executor does not raise: no tick of its stream
      breaks the fuse's schema, or any other guard, and in Observe mode the verdict's action is the executor's action,
      on every tick. */
  lemma ExecutorFeedsFuse(cfg: FuseConfig, c: ExecCfg, senses: seq<Sense>, i: nat)
    requires Matched(cfg, c) && Ran(c, |senses|) && |senses| <= 0x1_0000_0000 && i < |senses|
    requires forall k :: 0 <= k < |senses| ==> Sound(cfg, senses[k])
    ensures var inps := Stream(cfg, c, senses);
            && Guard(cfg, StateAfter(cfg, inps[..i]), inps[i]) == {}
            && (cfg.mode == Observe ==> VerdictAt(cfg, inps, i).action == TickAt(c, i).value.action)
  {
    hide Decide, Ticked, Feed, Executor.Fits;
    RunLinked(cfg, c, senses, i);
    assert TickAt(c, i).Ok?;
    LinkedTick(cfg, c, i, StateAfter(cfg, Stream(cfg, c, senses)[..i]), senses[i]);
  }
}
