/** The rest of the tally over whole episodes: chunk counts, first times, maxima, and the last state. */
module Summary {
  import opened Ints
  import opened Options
  import opened Core
  import opened Conformal
  import opened Tally
  import opened Fuse
  import opened Runs
  import opened Records

  // ---- chunks ---------------------------------------------------------------------------------------------

  /** Deliveries the guard let in; with `hard`, those the brake check found infeasible. */
  function Deliveries(inps: seq<TickInput>, vs: seq<Verdict>, hard: bool): (r: nat)
    requires |inps| == |vs|
    ensures r <= |vs|
  {
    if vs == [] then 0
    else
      var n := |vs| - 1;
      Deliveries(inps[..n], vs[..n], hard)
      + if inps[n].chunk.Some? && Admitted(vs[n]) && (hard ==> BRAKE in vs[n].trips) then 1 else 0
  }

  lemma DeliveriesSnoc(inps: seq<TickInput>, vs: seq<Verdict>, v: Verdict, hard: bool)
    requires |inps| == |vs| + 1
    ensures var n := |vs|;
            Deliveries(inps, vs + [v], hard)
            == Deliveries(inps[..n], vs, hard)
               + if inps[n].chunk.Some? && Admitted(v) && (hard ==> BRAKE in v.trips) then 1 else 0
  {
    assert (vs + [v])[..|vs|] == vs;
  }

  lemma TickChunks(cfg: FuseConfig, rt: Rt, inp: TickInput)
    requires cfg.Valid() && RtFits(cfg, rt) && inp.Fits()
    ensures var (rt', v) := Decide(cfg, rt, inp); var seen := inp.chunk.Some? && Admitted(v);
            && rt'.tally.chunksSeen == IncIf(seen, rt.tally.chunksSeen)
            && rt'.tally.chunksRejected == IncIf(seen && BRAKE in v.trips, rt.tally.chunksRejected)
  {
    hide Decide, Recorded, RtFits;
    TallyFits(cfg, rt);
    var ev, seen, rejected := TickRecords(cfg, rt, inp);
    RecordedValue(if seen then RecordedChunk(rt.tally, rejected) else rt.tally, Decide(cfg, rt, inp).1, ev, Substituted);
  }

  /** `chunks_seen` counts the deliveries the guard let in and `chunks_rejected` those with the brake bit, up to the width
      of the counters. */
  lemma {:induction false} ChunksAgree(cfg: FuseConfig, inps: seq<TickInput>)
    requires cfg.Valid() && AllInputsFit(inps)
    ensures var t, vs := StateAfter(cfg, inps).tally, Verdicts(cfg, inps);
            && t.chunksSeen == AtMost(U32_MAX, Deliveries(inps, vs, false))
            && t.chunksRejected == AtMost(U32_MAX, Deliveries(inps, vs, true))
  {
    hide Decide, Deliveries;
    if inps == [] {
      assert Deliveries(inps, Verdicts(cfg, inps), false) == 0 == Deliveries(inps, Verdicts(cfg, inps), true);
    } else {
      hide Fresh;
      var n := |inps| - 1;
      ChunksAgree(cfg, inps[..n]);
      VerdictsSnoc(cfg, inps);
      var rt := StateAfter(cfg, inps[..n]);
      var v := Decide(cfg, rt, inps[n]).1;
      DeliveriesSnoc(inps, Verdicts(cfg, inps[..n]), v, false);
      DeliveriesSnoc(inps, Verdicts(cfg, inps[..n]), v, true);
      TickChunks(cfg, rt, inps[n]);
    }
  }

  // ---- first times ----------------------------------------------------------------------------------------

  datatype Moment = Tripped | Stopped | HandedOff

  predicate Happens(m: Moment, v: Verdict) {
    match m
    case Tripped => v.trips != {}
    case Stopped => IsStop(v.state)
    case HandedOff => Matches(EnteredHandoff, v)
  }

  /** The first verdict of the kind. */
  function First(vs: seq<Verdict>, m: Moment): (r: Option<nat>)
    ensures r.None? ==> forall i :: 0 <= i < |vs| ==> !Happens(m, vs[i])
    ensures r.Some? ==>
              r.value < |vs| && Happens(m, vs[r.value]) && forall i :: 0 <= i < r.value ==> !Happens(m, vs[i])
  {
    if vs == [] then None
    else
      var n := |vs| - 1;
      var f := First(vs[..n], m);
      if f.Some? then f else if Happens(m, vs[n]) then Some(n) else None
  }

  lemma FirstSnoc(vs: seq<Verdict>, v: Verdict, m: Moment)
    ensures First(vs + [v], m)
            == if First(vs, m).Some? then First(vs, m) else if Happens(m, v) then Some(|vs|) else None
  {
    assert (vs + [v])[..|vs|] == vs;
  }

  function TimeOf(t: Counters, m: Moment): Option<u32> {
    match m
    case Tripped => t.firstTripTick
    case Stopped => t.firstStopTick
    case HandedOff => t.handoffTick
  }

  /** The tally names the first verdict of the kind: its time, and for a trip its reason too. */
  ghost predicate Names(t: Counters, m: Moment, vs: seq<Verdict>) {
    match First(vs, m)
    case None => TimeOf(t, m) == None && (m == Tripped ==> t.firstTripReason == None)
    case Some(i) => TimeOf(t, m) == Some(vs[i].t) && (m == Tripped ==> t.firstTripReason == Some(vs[i].reason))
  }

  lemma RecordedNames(t: Counters, v: Verdict, ev: TickEvents, m: Moment, vs: seq<Verdict>)
    requires t.Fits() && |v.scores.z| == NFEAT && Names(t, m, vs) && ev.enteredEscalated == Happens(HandedOff, v)
    ensures Names(Recorded(t, v, ev), m, vs + [v])
  {
    hide MaxE, IncIf, Inc32, First, Matches;
    FirstSnoc(vs, v, m);
  }

  lemma TickNames(cfg: FuseConfig, rt: Rt, inp: TickInput, m: Moment, vs: seq<Verdict>)
    requires cfg.Valid() && RtFits(cfg, rt) && inp.Fits() && Names(rt.tally, m, vs)
    ensures var (rt', v) := Decide(cfg, rt, inp); Names(rt'.tally, m, vs + [v])
  {
    hide Decide, Recorded, RtFits, First;
    TallyFits(cfg, rt);
    var ev, seen, rejected := TickRecords(cfg, rt, inp);
    RecordedNames(if seen then RecordedChunk(rt.tally, rejected) else rt.tally, Decide(cfg, rt, inp).1, ev, m, vs);
  }

  /** Over every run: the first-trip, first-stop and handoff fields are those of the first such verdict. */
  lemma {:induction false} FirstsAgree(cfg: FuseConfig, inps: seq<TickInput>, m: Moment)
    requires cfg.Valid() && AllInputsFit(inps)
    ensures Names(StateAfter(cfg, inps).tally, m, Verdicts(cfg, inps))
  {
    hide Decide, First;
    if inps == [] {
      assert First(Verdicts(cfg, inps), m) == None;
    } else {
      hide Fresh, Names;
      var n := |inps| - 1;
      FirstsAgree(cfg, inps[..n], m);
      VerdictsSnoc(cfg, inps);
      TickNames(cfg, StateAfter(cfg, inps[..n]), inps[n], m, Verdicts(cfg, inps[..n]));
    }
  }

  // ---- maxima and the last state --------------------------------------------------------------------------

  /** What the tally keeps a maximum of: the gate score, or the score of one channel. */
  datatype Channel = Gate | Feature(j: nat)

  predicate Kept(ch: Channel) { ch.Feature? ==> ch.j < NFEAT }

  /** A channel that is not live reads as minus infinity. */
  function Reading(cfg: FuseConfig, ch: Channel, v: Verdict): Ext {
    match ch
    case Gate => v.scores.s
    case Feature(j) => if j in cfg.calib.mask * v.scores.valid && j < |v.scores.z| then Fin(v.scores.z[j]) else NegInf
  }

  function MaximumOf(t: Counters, ch: Channel): Ext
    requires t.Fits() && Kept(ch)
  {
    match ch
    case Gate => t.maxS
    case Feature(j) => t.maxZ[j]
  }

  /** `m` is the largest reading, minus infinity when there is none. */
  ghost predicate IsMaximum(cfg: FuseConfig, ch: Channel, vs: seq<Verdict>, m: Ext) {
    && (forall i :: 0 <= i < |vs| ==> !Reading(cfg, ch, vs[i]).Above(m))
    && (m == NegInf || exists i :: 0 <= i < |vs| && Reading(cfg, ch, vs[i]) == m)
  }

  lemma MaximumSnoc(cfg: FuseConfig, ch: Channel, vs: seq<Verdict>, v: Verdict, m: Ext)
    requires IsMaximum(cfg, ch, vs, m)
    ensures IsMaximum(cfg, ch, vs + [v], MaxE(m, Reading(cfg, ch, v)))
  {
    hide Reading;
    var ws, m' := vs + [v], MaxE(m, Reading(cfg, ch, v));
    forall i | 0 <= i < |ws| ensures !Reading(cfg, ch, ws[i]).Above(m') {
      assert i < |vs| ==> ws[i] == vs[i];
    }
    if m' == m && m != NegInf {
      var i :| 0 <= i < |vs| && Reading(cfg, ch, vs[i]) == m;
      assert ws[i] == vs[i];
    } else {
      assert ws[|vs|] == v;
    }
  }

  lemma RecordedMaximum(cfg: FuseConfig, t: Counters, v: Verdict, ev: TickEvents, ch: Channel)
    requires t.Fits() && |v.scores.z| == NFEAT && Kept(ch) && ev.liveZ == cfg.calib.mask * v.scores.valid
    ensures MaximumOf(Recorded(t, v, ev), ch) == MaxE(MaximumOf(t, ch), Reading(cfg, ch, v))
    ensures Recorded(t, v, ev).terminalState == v.state
  {
    hide IncIf, Inc32;
  }

  lemma TickMaximum(cfg: FuseConfig, rt: Rt, inp: TickInput, ch: Channel)
    requires cfg.Valid() && RtFits(cfg, rt) && inp.Fits() && Kept(ch)
    ensures var (rt', v) := Decide(cfg, rt, inp);
            && MaximumOf(rt'.tally, ch) == MaxE(MaximumOf(rt.tally, ch), Reading(cfg, ch, v))
            && rt'.tally.terminalState == v.state
  {
    hide Decide, Recorded, RtFits, Reading, MaxE;
    TallyFits(cfg, rt);
    var ev, seen, rejected := TickRecords(cfg, rt, inp);
    RecordedMaximum(cfg, if seen then RecordedChunk(rt.tally, rejected) else rt.tally, Decide(cfg, rt, inp).1, ev, ch);
  }

  /** Over every run: the maxima are those of the live readings, and the terminal state is that of the last verdict. */
  lemma {:induction false} MaximaAgree(cfg: FuseConfig, inps: seq<TickInput>, ch: Channel)
    requires cfg.Valid() && AllInputsFit(inps) && Kept(ch)
    ensures var t, vs := StateAfter(cfg, inps).tally, Verdicts(cfg, inps);
            && IsMaximum(cfg, ch, vs, MaximumOf(t, ch))
            && t.terminalState == if vs == [] then Idle else vs[|vs| - 1].state
  {
    hide Decide, Reading, MaxE;
    if inps == [] {
      NothingYet(cfg, ch);
    } else {
      hide Fresh, IsMaximum, MaximumOf;
      var n := |inps| - 1;
      MaximaAgree(cfg, inps[..n], ch);
      VerdictsSnoc(cfg, inps);
      var rt, vs := StateAfter(cfg, inps[..n]), Verdicts(cfg, inps[..n]);
      TickMaximum(cfg, rt, inps[n], ch);
      MaximumSnoc(cfg, ch, vs, Decide(cfg, rt, inps[n]).1, MaximumOf(rt.tally, ch));
    }
  }

  lemma NothingYet(cfg: FuseConfig, ch: Channel)
    requires Kept(ch)
    ensures MaximumOf(Fresh(cfg.dim).tally, ch) == NegInf && Fresh(cfg.dim).tally.terminalState == Idle
  {}
}
