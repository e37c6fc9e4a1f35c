# lictor, modelled and verified

lictor is a per-tick safety fuse between a chunked robot policy and a robot. This project models the parts whose
properties are hard to see from one function and proves them in Dafny:

* **The decision path.** `Fuse.dfy` is one tick as a function: guard, ingest, Tier 0 (`Tier0.dfy`, the sequential
  box / leash / reach projection), the PD brake rollout (`Brake.dfy`), gated score (`Conformal.dfy`), K-of-N window
  (`Window.dfy`), escalation table (`Fsm.dfy`), action, tally (`Tally.dfy`). `Escalation.dfy` and `FuseRuntime.dfy` hold the
  same as objects whose methods update fields, proved equal to the functions. `Runs.dfy`, `Budget.dfy`, `Records.dfy`,
  `Summary.dfy`, `Follow.dfy`, `ResumeTicks.dfy` and `PolicyRows.dfy` prove theorems over whole episodes.
  `Trail.dfy` is the position ring and its two statistics.
* **The delayed executor** (`Executor.dfy`), its timing for every tick (`Schedule.dfy`), and its composition with the fuse
  (`Compose.dfy`).
* **Canonical JSON**: strings and key orders (`Unicode.dfy`), the text (`Jcs.dfy`), a reader and unique readability
  (`JcsReader.dfy`), the writer and the key check (`JcsWriter.dfy`). The text follows RFC 8785 section 3.2.2.2 (strings)
  and section 3.2.3 (key order), with bounded integers only.
* **The MessagePack codec** of the policy proxy: `MsgPack.dfy`, `MsgPackCodec.dfy`, `MsgPackLaws.dfy`.
* **Records**: hash chains (`Chain.dfy`), receipts (`Receipt.dfy`), handoffs and acks (`Handoff.dfy`), the session that
  writes them (`Session.dfy`, `SessionRuntime.dfy`, `TickFacts.dfy`) and theorems over all its runs (`SessionLaws.dfy`).
* **Twin statistics** (`Stats.dfy`): two unrelated loops for the same number, each proved against its definition.

Conventions. `real` stands for f64 and non-finite input appears as a flag; the square root is a parameter with
`r >= 0 && r * r == x`, the leash factor any constant in (0, 1). Machine integers have their width and saturate or wrap
where the source does. Trip masks are sets of bits. The hash and the signature scheme are parameters: the theorems that need
it assume the hash has no collisions, that the all-zero genesis is the hash of nothing where chains of unknown length are
compared (`Chain.HeadPinsChain`, `Handoff.AckBindsHistory`), and that a signature verifies under its own key. A sequence field assigned by a method
stands for an inline array of the source. A panic ends the process, as the release profile has it (`Cargo.toml:49`): a method that
can panic returns `None`, and a session that panicked answers nothing any more.

Where a document or comment claims more than the code does, the code is followed and the exact condition is proved:

* `docs/ARCHITECTURE.md:1353` calls Terminated absorbing, but row 1 of the table precedes row 2, so a fault bit moves
  Terminated to Fault and only Fault is absorbing (`Fsm.FaultIsAbsorbing`).
* `crates/lictor-canon/src/jcs.rs:45-48` calls printable ASCII exactly the class of keys on which code-point order is UTF-16
  order. The class is sufficient (`JcsWriter.GoodKeysOneText`) but not exact (`JcsWriter.AccentedKeySortsAlike`): a set of keys
  sorts alike if and only if no two keys first differ in a supplementary character against one of U+E000..U+FFFF
  (`JcsWriter.SameOrderExact`, `Unicode.Utf16OrderExact`).
* `crates/lictor-receipt/src/tick.rs:53-54` calls chained events canonicalisable by construction. A timing event is not when a
  measured time is above 2^53 - 1 (`Chain.TimingPanics`): the session dies on folding it (`SessionLaws.DiesExactly`,
  `SessionLaws.SlowTickKills`) and the verifier on reading it (`Chain.TimingFileCanPanic`).
* `crates/lictor-fuse/src/fuse.rs:34-38` calls an Enforce Policy row bit-for-bit the raw row. That holds on the delivery tick
  (unless a Resume forwarded it); after it the row is the projection's, raw if and only if the projection left it alone (`PolicyRows.UnsubstitutedExactly`,
  `PolicyRows.UnmovedExactly`), and an unmarked row can differ (`PolicyRows.UnmarkedRowNotRaw`).
* `crates/lictor-fuse/src/tally.rs:163` says that a rejected chunk is kept out of the current one. The counter is right
  (`Summary.ChunksAgree`), but every delivery becomes the current chunk, rejected or not (`PolicyRows.CurIsLastDelivery`).

Edges of the main results, each with its witness:

* An accepted Resume re-arms without looking at this tick's Tier-0 bits (`ResumeTicks.ForwardsTripsExactly`,
  `ResumeTicks.ResumeForwardsATrip`).
* Recursive feasibility stops at `commit_steps` (`Brake.BeyondCommitCanFail`).
* The packer accepts dict keys that the unpacker refuses (`MsgPackLaws.PackUnpack`, `MsgPackLaws.IntegerKeyRefused`).
* The two AUC programs differ on an empty class, one half against NaN; both contracts say so.
* The two McNemar programs differ from 2^31 discordant pairs on, unless the counts are at most one apart
  (`Stats.McNemarByRatio`, `Stats.CertainExactly`).
* Two counters of the tally stop before the others, at 255 re-arms and 65535 clamps (`Records.TallyAgrees`).

## Model

| member | source | states |
|---|---|---|
| Runs.WorkspaceContainment | crates/lictor-fuse/src/fuse.rs:369-572 | over every episode from reset, in Enforce with the projection on and the workspace armed: if every observed position is in the margin-adjusted box, so is every action emitted, guard ticks included |
| Runs.TickInside | crates/lictor-fuse/src/fuse.rs:369-572 | one tick keeps all stored rows and the last command in the box and emits an action in it |
| Runs.NothingForwardedPastAFailedCheck | crates/lictor-fuse/src/fuse.rs:405-525 | an Enforce verdict that forwards the policy has no trip bit, and one that forwards the policy or the clamp was brake-feasible along the current chunk from the executed row; the only exception is the tick that consumes a Resume ack |
| ResumeTicks.ForwardsTripsExactly | crates/lictor-fuse/src/fsm.rs:182-204 | that exception, exactly: in Enforce a tick forwards the policy with a trip bit if and only if, before it, the state is Escalated or Held, the table accepts a Resume, the guard passes and Tier 0 finds something; every Resume tick forwards the policy with exactly those bits |
| ResumeTicks.ResumeForwardsATrip | crates/lictor-fuse/src/fsm.rs:182-204 | three ticks from reset that get there: the workspace bit is set and the row outside the box is forwarded |
| Runs.ForwardedRowIsSafe | crates/lictor-fuse/src/fuse.rs:405-525 | what such a policy action satisfies itself, wherever the robot is: inside the box, the raw row within the speed limit on a delivery, the committed row within speed of the last command and within reach otherwise |
| PolicyRows.UnsubstitutedExactly | crates/lictor-fuse/src/fuse.rs:34-38 | over every Enforce run a verdict not marked substituted acts on the projection of the last delivery, so its action is the raw row if and only if that projection left the row alone; it did on a delivery tick that is itself forwarded with no Resume consumed, and when the delivery tripped none of the bits that move rows |
| PolicyRows.UnmovedExactly | crates/lictor-detect/src/tier0.rs:108-139 | with the position in the box the projection leaves a row alone if and only if the raw row passes the box, the leash to the row written before it and, for row 0, the reach |
| PolicyRows.CurIsLastDelivery | crates/lictor-fuse/src/fuse.rs:418-434 | over every Enforce run the current chunk is the projection of the last delivery the guard let in, whether it was counted as rejected or not |
| PolicyRows.UnmarkedRowNotRaw | crates/lictor-fuse/src/fuse.rs:34-38 | two ticks from reset to an unmarked action that is not the raw row |
| Runs.OffNeverClamps | crates/lictor-fuse/src/fsm.rs:269-291 | with clamp mode Off the Clamped state is unreachable in every run |
| Runs.TickIsTableStep | crates/lictor-fuse/src/fuse.rs:484-500 | every tick, guarded or not, is one step of the escalation table, and the verdict shows that step |
| Runs.Tier0Bits | crates/lictor-fuse/src/fuse.rs:405-454 | Tier 0 raises only soft bits and BRAKE, and BRAKE exactly when the rollout margin is negative |
| Budget.StoppingBudget | crates/lictor-fuse/src/fsm.rs:166-283 | a ranking measure bounds every run: Braking is entered at most 1 + max_rearms times and stopping verdicts number at most (1 + max_rearms) cycles plus one handoff, with one more cycle and handoff for each operator Resume |
| Budget.BudgetWithoutAcks | crates/lictor-fuse/src/fsm.rs:166-283 | the same bound with no Resume, for runs without acks |
| Budget.BudgetIsAttained | crates/lictor-fuse/src/fsm.rs:166-283 | the bound is exact: whenever every wait of the hysteresis can be used up, a run of the table from reset without any ack enters Braking 1 + max_rearms times and stops for the whole budget |
| Budget.TablePays | crates/lictor-fuse/src/fsm.rs:141-320 | the measure falls by one on every stopping step, except that a consumed Resume buys one cycle |
| Follow.FollowerNeverBrakes | crates/lictor-fuse/src/fuse.rs:446-452 | a plant that follows the model over the committed rows of a feasible chunk never trips BRAKE |
| Follow.ForwardedThenFollowed | crates/lictor-fuse/src/fuse.rs:405-525 | after any forwarded policy verdict such a plant never trips BRAKE on the following committed rows |
| Records.TallyConservation | crates/lictor-fuse/src/tally.rs:101-169 | in both modes, short of saturation: ticks = nominal + watching + substituted + violations that reached the environment, the eight state counters sum to ticks, rejected <= seen <= ticks |
| Records.TallyAgrees | crates/lictor-fuse/src/tally.rs:101-161 | over every run of any length each counter (states, substitutions, violations, trip bits, fired features, entries into Held and Escalated, re-arms, clamped soft trips) is the number of verdicts of its kind up to the value where it stops: 2^32 - 1, but 255 for re-arms and 65535 for clamps, which follow narrower counters of the table |
| Records.ClampBudgetHolds | crates/lictor-fuse/src/fsm.rs:279-297 | over every run at most max_clamps + 1 soft trips are clamped, while that budget is below the 16-bit width of its counter |
| Summary.ChunksAgree | crates/lictor-fuse/src/tally.rs:163-169 | over every run chunks_seen is the number of deliveries the guard let in and chunks_rejected the number of those with the brake bit |
| Summary.FirstsAgree | crates/lictor-fuse/src/tally.rs:128-150 | over every run the first-trip tick and reason, the first-stop tick and the handoff tick are those of the first verdict of the kind, and absent when there is none |
| Summary.MaximaAgree | crates/lictor-fuse/src/tally.rs:117-127 | over every run max_s and each max_z are the largest live reading, minus infinity when there is none, and the terminal state is that of the last verdict |
| Records.OneClass | crates/lictor-fuse/src/fuse.rs:509-525 | the four classes of a verdict are exclusive and exhaustive |
| Records.WindowIsHistory | crates/lictor-fuse/src/fuse.rs:473-476 | over every run the table holds exactly the hits of the admitted ticks since the last clear |
| Records.PredictiveBrakeMeaning | crates/lictor-fuse/src/fsm.rs:274-278 | TIER1_CP is raised exactly when at least k of the last n admitted ticks since the last clear tripped, on a running tick no earlier row takes |
| FuseRuntime.FuseRt.Decide | crates/lictor-fuse/src/fuse.rs:369-572 | the method over the fields leaves the state and returns the verdict of the value-level tick |
| FuseRuntime.FuseRt.GuardNow | crates/lictor-fuse/src/fuse.rs:238-300 | the three fail-closed bits, read without changing anything |
| FuseRuntime.FuseRt.FaultStep | crates/lictor-fuse/src/fuse.rs:303-364 | a guard tick: Fault latched, hold action, nothing ingested but a finite position |
| FuseRuntime.FuseRt.LatchFault | crates/lictor-fuse/src/fsm.rs:152-159 | row 1 of the table from the guard, at the position kept |
| FuseRuntime.FuseRt.Ingest | crates/lictor-fuse/src/fuse.rs:383-403 | position, velocity estimate, tick number and expected chunk number after stage 1 |
| FuseRuntime.FuseRt.Deliver | crates/lictor-fuse/src/fuse.rs:409-432 | delivery tick: check, projection, brake rollout on the projection, which chunk becomes current in each mode |
| FuseRuntime.FuseRt.Commit | crates/lictor-fuse/src/fuse.rs:433-454 | committed tick: the current row against the last command, the rollout along the current chunk |
| FuseRuntime.FuseRt.Score | crates/lictor-fuse/src/fuse.rs:457-470 | scores of this tick, disarmed ones when no calibration is armed |
| FuseRuntime.FuseRt.StepTable | crates/lictor-fuse/src/fuse.rs:473-500 | the hit enters the window, the table takes one step on the sensed input |
| FuseRuntime.FuseRt.Act | crates/lictor-fuse/src/fuse.rs:503-519 | action and source: pass-through in Observe, by source in Enforce |
| FuseRuntime.FuseRt.Conclude | crates/lictor-fuse/src/fuse.rs:473-572 | stages 5 to 8 together |
| FuseRuntime.FuseRt.Reset | crates/lictor-fuse/src/fuse.rs:147-180 | everything cleared, armed |
| TickFacts.GuardedTick | crates/lictor-fuse/src/fuse.rs:303-364 | a tick that fails the guard ends in Fault, holds, consumes no ack and opens no handoff |
| TickFacts.TickAck | crates/lictor-fuse/src/fsm.rs:66-112 | an ack is consumed exactly on an admissible tick on which the table accepts it in Escalated, or accepts Resume or Abort in Held; its nonce and no other is recorded |
| TickFacts.TickMovesHandoff | crates/lictor-fuse/src/fsm.rs:166-241 | the handoff number moves only on entering Escalated; out of Escalated lie Terminated, Fault and, by a consumed ack, Armed |
| Escalation.Ladder.NextRow | crates/lictor-fuse/src/fsm.rs:53-320 | the method over the counters takes the step of the value-level table: state, counters, extra bits, reason |
| Escalation.Ladder.StepHeld | crates/lictor-fuse/src/fsm.rs:197-242 | rows 9 to 13 |
| Escalation.Ladder.StepEscalated | crates/lictor-fuse/src/fsm.rs:166-196 | rows 4 to 8 |
| Escalation.Ladder.StepBraking | crates/lictor-fuse/src/fsm.rs:243-261 | rows 14 to 16 |
| Escalation.Ladder.StepRunning | crates/lictor-fuse/src/fsm.rs:262-313 | rows 17 to 23 and the stay rows |
| Escalation.Ladder.PassAck | crates/lictor-fuse/src/fsm.rs:66-76 | the two integer checks on an ack |
| Escalation.Ladder.RearmAck | crates/lictor-fuse/src/fsm.rs:95-112 | what an accepted Resume resets |
| Escalation.Ladder.LatchHold | crates/lictor-fuse/src/fsm.rs:80-87 | the hold setpoint is the clamped position |
| Fsm.FaultEntered | crates/lictor-fuse/src/fsm.rs:152-165 | the exact condition under which a step ends in Fault |
| Fsm.TerminatedEntered | crates/lictor-fuse/src/fsm.rs:161-210 | the exact condition for Terminated |
| Fsm.EscalatedEntered | crates/lictor-fuse/src/fsm.rs:191-237 | the exact condition for Escalated |
| Fsm.HeldEntered | crates/lictor-fuse/src/fsm.rs:238-256 | the exact condition for Held |
| Fsm.BrakingEntered | crates/lictor-fuse/src/fsm.rs:257-283 | the exact condition for Braking |
| Fsm.ClampedEntered | crates/lictor-fuse/src/fsm.rs:284-312 | the exact condition for Clamped |
| Fsm.WatchingEntered | crates/lictor-fuse/src/fsm.rs:298-312 | the exact condition for Watching |
| Fsm.AckEffects | crates/lictor-fuse/src/fsm.rs:66-112 | a table step consumes an ack in exactly these cases and otherwise leaves the nonces alone |
| Fsm.TableEffects | crates/lictor-fuse/src/fsm.rs:141-320 | the hold is latched only on entering Held or Fault, the handoff number moves only on entering Escalated, re-arms count exactly the two re-arm rows |
| Fsm.FaultIsAbsorbing | crates/lictor-fuse/src/fsm.rs:152-165 | Fault is never left; Terminated is left only by a fault bit |
| Tier0.CheckChunk | crates/lictor-detect/src/tier0.rs:173-276 | whole-chunk check: trips found on the raw rows, projected rows written to the output, moved coordinates |
| Tier0.CheckAction | crates/lictor-detect/src/tier0.rs:280-323 | committed-row check against the previous command |
| Tier0.ProjectRow | crates/lictor-detect/src/tier0.rs:108-139 | one row of the sequential leash in place |
| Tier0.ScanSteps | crates/lictor-detect/src/tier0.rs:193-211 | SPEED, CONTACT and WORKSPACE from the first loop |
| Tier0.ScanAccel | crates/lictor-detect/src/tier0.rs:212-230 | ACCEL from the second differences |
| Tier0.ScanJerk | crates/lictor-detect/src/tier0.rs:231-249 | JERK from the third differences |
| Tier0.ProjectChunk | crates/lictor-detect/src/tier0.rs:260-274 | the projection loop, each row leashed to the row just written |
| Tier0.PullLands | crates/lictor-detect/src/tier0.rs:117-138 | a pulled row is within the limit of its anchor and is untouched exactly when it already was |
| Tier0.UntrippedUnchanged | crates/lictor-detect/src/tier0.rs:188-275 | law (a): no workspace, speed, contact or reach trip implies output = input and no moved coordinate |
| Tier0.UnchangedUntripped | crates/lictor-detect/src/tier0.rs:188-275 | its converse, for a position in the box |
| Tier0.ProjectedWithinLeash | crates/lictor-detect/src/tier0.rs:117-138 | law (b): consecutive projected rows are within the leash, row 0 within leash and reach of the position |
| Tier0.ProjectionIsStable | crates/lictor-detect/src/tier0.rs:188-275 | law (c): with the position in the box, re-checking the projected chunk raises none of the four bits and changes nothing |
| Tier0.ProjectedInBox | crates/lictor-detect/src/tier0.rs:108-139 | with position in the box and workspace armed every projected row is in the box |
| Tier0.RowWithinLeash | crates/lictor-detect/src/tier0.rs:117-138 | the leash law for one row |
| Brake.Plant.PdSubstep | crates/lictor-detect/src/brake.rs:67-75 | one physics substep over the two arrays equals the substep on states |
| Brake.Plant.Roll | crates/lictor-detect/src/brake.rs:97-121 | nested substep loop: final state and running margin of the visited states |
| Brake.BrakeFeasible | crates/lictor-detect/src/brake.rs:53-64 | feasibility and margin equal those of the rollout of the committed rows and the braking tail |
| Brake.FeasibleMeansInside | crates/lictor-detect/src/brake.rs:53-121 | feasible holds exactly when every visited position lies in the box |
| Brake.RolloutShrinks | crates/lictor-detect/src/brake.rs:97-122 | after executing row `from`, the rollout from `from + 1` visits exactly a suffix of the same states |
| Brake.FeasibleStaysFeasible | crates/lictor-detect/src/brake.rs:97-122 | recursive feasibility: along an accepted chunk up to commit_steps the check keeps passing and the margin never shrinks |
| Brake.BeyondCommitCanFail | crates/lictor-detect/src/brake.rs:97-122 | the bound is tight: under a valid configuration a concrete plant passes at row 1, executes it, and fails at row 2, past commit_steps |
| Brake.BrakeAction | crates/lictor-detect/src/brake.rs:186-207 | the brake action is the clamped position |
| Brake.HoldAction | crates/lictor-detect/src/brake.rs:209-224 | the hold action is the clamped latch |
| Window.HitWindow.Push | crates/lictor-detect/src/window.rs:23-27 | the masked shift register holds the last n pushes since the clear |
| Window.HitWindow.Hits | crates/lictor-detect/src/window.rs:30-33 | its population count is the number of hits among them |
| Window.OnesArePackedHits | crates/lictor-detect/src/window.rs:20-38 | popcount of the packed register = hits among the last n entries of the history |
| Trail.Ring.Push | crates/lictor-detect/src/window.rs:60-69 | the 32-slot ring holds the last min(32, pushes) positions |
| Trail.Ring.NetOf | crates/lictor-detect/src/window.rs:87-96 | net displacement over the last w samples of the history |
| Trail.Ring.PathOf | crates/lictor-detect/src/window.rs:99-114 | path length over the last w samples |
| Trail.RingIsEnough | crates/lictor-detect/src/window.rs:59-114 | statistics of the ring equal those of the whole history |
| Trail.NetBelowPath | crates/lictor-detect/src/window.rs:87-114 | net <= path for every window in any dimension |
| Trail.Ring.Features | crates/lictor-detect/src/tier1.rs:112-122 | path inefficiency and stall lie in [0, 1] whenever they are valid |
| Fmath.Triangle | crates/lictor-core/src/fmath.rs:64-73 | the triangle inequality for the distance loop, through Cauchy-Schwarz |
| Fmath.DistLoop | crates/lictor-core/src/fmath.rs:64-73 | the accumulating loop is the Euclidean distance |
| Fmath.NormLoop | crates/lictor-core/src/fmath.rs:52-61 | the accumulating loop is the Euclidean norm |
| Conformal.Standardise | crates/lictor-detect/src/conformal.rs:12-33 | z-scores by time bin, live channels only |
| Conformal.AggregateLoop | crates/lictor-detect/src/conformal.rs:36-76 | score and fired set of the gate |
| Conformal.TripMeaning | crates/lictor-detect/src/conformal.rs:36-81 | the channel trips exactly when some non-empty gate term is fully live with every channel above tau; with tau infinite never |
| Tally.Record | crates/lictor-fuse/src/tally.rs:101-161 | the per-verdict update of every counter, maximum and first |
| Executor.DelayedExecutor.Tick | harness/executor.py:111-157 | one tick: new state, returned tick or raised exception |
| Executor.DelayedExecutor.Deliver | harness/executor.py:159-177 | delivery, with the stale-chunk exception |
| Executor.DelayedExecutor.Fulfil | harness/executor.py:91-98 | a request answered, or one of its two exceptions |
| Executor.DelayedExecutor.Delay | harness/executor.py:100-107 | delay of a request: none for the first, else d plus a non-negative spike |
| Executor.Checked | harness/executor.py:53-62 | the constructor accepts exactly the valid parameters |
| Schedule.PeriodicSchedule | harness/executor.py:111-177 | sync and freeze with constant d: row, delivery ticks, wire labels, action, source and hold count of every tick in closed form |
| Schedule.DropSchedule | harness/executor.py:111-177 | async drop with constant d: row, landing ticks, wire labels, action, policy / drain / hold source and hold count of every tick in closed form; it never raises |
| Schedule.DropNeverHolds | harness/executor.py:111-157 | async drop never repeats an action if and only if max(S, d + 1) + d <= H |
| Schedule.PeriodicNeverHolds | harness/executor.py:111-157 | async freeze never repeats an action if and only if S + d <= H; sync if and only if d = 0 |
| Schedule.ClosedForm | harness/executor.py:111-177 | the whole state after t + 1 ticks, in every mode, for constant d |
| Schedule.OnlyStaleChunksRaise | harness/executor.py:111-177 | with any delays a supplied run raises only when a dropped chunk arrives wholly late |
| Schedule.RaisesExactly | harness/executor.py:159-177 | with any delays a supplied run raises on a tick if and only if it drops late rows and the chunk landing now was asked for a whole horizon ago |
| Schedule.PromptNeverRaises | harness/executor.py:100-177 | when d plus every non-negative spike is below the horizon, a supplied run never raises |
| Schedule.TicksAreRows | harness/executor.py:17-20 | with any delays an action is a row of one requested chunk, at the age of its wire label unless held, and a hold repeats the previous action |
| Compose.ExecutorFeedsFuse | crates/lictor-fuse/src/fuse.rs:238-300 | for every mode and any delays, no tick of the executor's stream fails the guard, and in Observe the verdict's action is the executor's on every tick |
| Unicode.Utf8Exact | crates/lictor-canon/src/jcs.rs:156-177 | the strict decoder accepts exactly the UTF-8 form of a string |
| Unicode.BytesOrderIsCodePointOrder | crates/lictor-canon/src/jcs.rs:45-48 | byte order on UTF-8 is code-point order, for all keys |
| Unicode.Utf16OrderExact | crates/lictor-canon/src/jcs.rs:132-133 | UTF-16 order and code-point order agree on two keys if and only if their first difference is not a supplementary character against one of U+E000..U+FFFF |
| JcsWriter.Writer.WriteValue | crates/lictor-canon/src/jcs.rs:88-128 | the writer appends exactly the text and restores the path, or stops at the first fault in print order |
| JcsWriter.Writer.WriteItems | crates/lictor-canon/src/jcs.rs:108-122 | arrays |
| JcsWriter.Writer.WriteObject | crates/lictor-canon/src/jcs.rs:130-154 | objects, keys sorted by UTF-16 units |
| JcsWriter.Writer.WriteString | crates/lictor-canon/src/jcs.rs:156-177 | minimal escapes, byte by byte |
| JcsWriter.CanonOf | crates/lictor-canon/src/jcs.rs:38-43 | the canonical bytes or the first fault |
| JcsWriter.KeyWalker.Walk | crates/lictor-canon/src/jcs.rs:49-86 | the first bad key, a map walked in byte order |
| Jcs.FaultExact | crates/lictor-canon/src/jcs.rs:93-107 | `canon` fails exactly on values holding a float or an integer beyond 2^53 - 1 |
| JcsReader.CanonReadsBack | crates/lictor-canon/src/jcs.rs:88-177 | a reader gives every accepted value back from its text |
| JcsReader.EscapesAreShortest | crates/lictor-canon/src/jcs.rs:154-177 | the text of a character is one of its JSON spellings (itself, a two-character escape, or backslash-u escapes of its UTF-16 units) and no other spelling is shorter |
| JcsReader.CanonInjective | crates/lictor-canon/src/jcs.rs:88-177 | equal canonical bytes mean equal values |
| JcsWriter.KeysFaultExact | crates/lictor-canon/src/jcs.rs:49-86 | `check_keys` accepts exactly the values whose keys are non-empty printable ASCII at every depth |
| JcsWriter.GoodKeysOneText | crates/lictor-canon/src/jcs.rs:45-53 | for those values sorting keys by UTF-16 unit, by code point or by byte gives the same bytes |
| JcsWriter.SameOrderExact | crates/lictor-canon/src/jcs.rs:45-53 | code-point or byte order sorts a set of keys as UTF-16 order does if and only if no two of them are crossed |
| JcsWriter.AccentedKeySortsAlike | crates/lictor-canon/src/jcs.rs:45-48 | a key `check_keys` refuses that nevertheless sorts alike under every order |
| JcsWriter.SupplementaryKeySortsApart | crates/lictor-canon/src/jcs.rs:198-204 | two keys on which UTF-16 and code-point order differ |
| MsgPackCodec.Encoder.Encode | adapters/openpi/lictor_proxy.py:243-326 | the encoder appends the wire form or stops at the first exception |
| MsgPackCodec.PackOf | adapters/openpi/lictor_proxy.py:237-240 | `_mini_packb` |
| MsgPackCodec.Decode | adapters/openpi/lictor_proxy.py:337-387 | the decoder with clamping slices: value and position, or exception |
| MsgPackCodec.DecodeItems | adapters/openpi/lictor_proxy.py:390-395 | the list loop |
| MsgPackCodec.DecodeEntries | adapters/openpi/lictor_proxy.py:398-406 | the dict loop |
| MsgPackCodec.UnpackOf | adapters/openpi/lictor_proxy.py:329-334 | `_mini_unpackb` |
| MsgPackLaws.UnpackIsStrict | adapters/openpi/lictor_proxy.py:329-406 | the unchecked decoder accepts exactly what a decoder that checks every read consumes whole, with the same value |
| MsgPackLaws.PackUnpack | adapters/openpi/lictor_proxy.py:243-406 | a packed value unpacks to itself if and only if every dict key at every depth is str or bytes; otherwise unpacking raises |
| MsgPackLaws.IntegerKeyRefused | adapters/openpi/lictor_proxy.py:398-403 | a dict keyed by an integer packs and does not unpack |
| MsgPackLaws.IntIsShortest | adapters/openpi/lictor_proxy.py:253-274 | no bytes that decode whole to an integer are fewer than the encoder's |
| MsgPackLaws.PackExact | adapters/openpi/lictor_proxy.py:243-326 | `pack` accepts exactly values in range, of encodable length, serialisable, nested at most 128 deep |
| Chain.MakeEvent | crates/lictor-receipt/src/tick.rs:77-112 | an event numbered, linked and hashed over its canonical JSON, or the panic, exactly when a field does not print |
| Chain.RecomputeHash | crates/lictor-receipt/src/tick.rs:59-75 | the hash of an event with its hash blanked, or the panic, exactly when a field does not print |
| Chain.Walk | crates/lictor-receipt/src/tick.rs:125-153 | panics exactly when an event whose number and link are right does not print; otherwise ok exactly on a linked chain, break_at is the number expected at the first bad event; head and count |
| Chain.TimingPanics | crates/lictor-receipt/src/tick.rs:53-59 | hashing a timing event panics if and only if decide_ns or io_ns is above 2^53 - 1 |
| Chain.TimingFileCanPanic | crates/lictor-receipt/src/tick.rs:151-153 | a one-event timing file on which the walk panics |
| Chain.HashPinsEvent | crates/lictor-receipt/src/tick.rs:59-66 | equal recomputed hashes mean equal events |
| Chain.HeadPinsChain | crates/lictor-receipt/src/tick.rs:125-145 | two chains from one genesis with the same head and length are equal; the length need not be known when the genesis is no hash |
| Chain.TailIsSuffix | crates/lictor-receipt/src/tick.rs:125-145 | a chain that verifies to the head of a longer one is its suffix, whatever it starts from |
| Chain.Appended | crates/lictor-receipt/src/tick.rs:77-106 | appending a fresh event keeps a chain linked |
| Receipt.CheckEmbedded | crates/lictor-receipt/src/sign.rs:139-183 | the embedded ticks pass exactly when they fit the policy and chain to the signed head; when it panics |
| Receipt.Verify | crates/lictor-receipt/src/sign.rs:185-250 | the seven checks of the report; a body without canonical bytes fails digest and signature; when it panics |
| Receipt.CheckTicks | crates/lictor-cli/src/cmd/verify.rs:170-218 | the full-file check after its header, with the tail cross-check |
| Receipt.CheckTiming | crates/lictor-cli/src/cmd/verify.rs:221-248 | the timing file after its header: linked, counted, with the signed head, or the panic |
| Receipt.EmbeddedIsFileTail | crates/lictor-cli/src/cmd/verify.rs:189-216 | embedded ticks that verify to the head of a verified full file are its suffix, so the tail cross-check cannot fail |
| Handoff.VerifyAck | crates/lictor-receipt/src/handoff.rs:158-183 | what is accepted, and the first error in the order of the checks |
| Handoff.SigningBytesPin | crates/lictor-receipt/src/handoff.rs:93-103 | the signed bytes pin every signed field of a token |
| Handoff.LargeNonceRefused | crates/lictor-receipt/src/handoff.rs:170-171 | a nonce above 2^53 - 1 is refused whatever its signature |
| Handoff.DigestPinsRecord | crates/lictor-receipt/src/handoff.rs:63-73 | the digest pins every digested field of a record |
| Handoff.AckRefusedElsewhere | crates/lictor-receipt/src/handoff.rs:4-8 | a token given for one run, arm and episode is refused while a record of any other is pending |
| Handoff.AckBindsHistory | crates/lictor-receipt/src/handoff.rs:4-10 | when no two inputs share a hash and no input hashes to the zero genesis, one token that answers two records answers the same record of the same episode over the same tick-by-tick history |
| SessionRuntime.SessionObject.Handle | crates/lictor-runtime/src/session.rs:401-431 | the object takes the step of the session function, for requests, rejected lines and I/O notes |
| SessionRuntime.SessionObject.TickInEpisode | crates/lictor-runtime/src/session.rs:713-783 | a tick in an episode: ack, staging, fuse, chain, handoff, reply |
| SessionRuntime.SessionObject.TickOutside | crates/lictor-runtime/src/session.rs:690-712 | ticks with no episode |
| SessionRuntime.SessionObject.Book | crates/lictor-runtime/src/session.rs:728-775 | verdict chained, pending record resolved, new record opened |
| SessionRuntime.SessionObject.ChainVerdict | crates/lictor-runtime/src/session.rs:738-743 | the verdict enters the chain and its timing waits |
| SessionRuntime.SessionObject.ResolvePending | crates/lictor-runtime/src/session.rs:745-767 | the pending record is resolved by the consumed ack or the handoff timeout |
| SessionRuntime.SessionObject.OpenRecord | crates/lictor-runtime/src/session.rs:768-776 | a tick that enters Escalated opens a record |
| SessionRuntime.SessionObject.CheckAck | crates/lictor-runtime/src/session.rs:671-688 | an ack against the pending record and the stored nonces |
| SessionRuntime.SessionObject.FoldPendingTiming | crates/lictor-runtime/src/session.rs:495-503 | the waiting timing enters its chain, or its hash panics |
| SessionRuntime.SessionObject.BeginEpisode | crates/lictor-runtime/src/session.rs:608-668 | a fresh fuse, staging and episode |
| SessionRuntime.SessionObject.EndEpisode | crates/lictor-runtime/src/session.rs:863-926 | the signed body, or the internal error of a body that cannot be signed |
| SessionRuntime.Staging.Stage | crates/lictor-runtime/src/session.rs:151-237 | observation copied before the checks; the first violation; the chunk buffer and expected number |
| SessionLaws.EveryReceiptVerifies | crates/lictor-runtime/src/session.rs:863-926 | for any actions and measured times, a receipt has counts = verdict events = timing events = the episode's ticks, the full tick and timing files verify against it, and it is intact if and only if the declared steps are that count, the policy is known and the expected key is the session's |
| SessionLaws.DiesExactly | crates/lictor-runtime/src/session.rs:495-503 | an action kills a live session if and only if it folds a timing with a time above 2^53 - 1 |
| SessionLaws.TimelyRunsLive | crates/lictor-runtime/src/session.rs:495-503 | a run whose measured times are all at most 2^53 - 1 never dies |
| SessionLaws.SlowTickKills | crates/lictor-runtime/src/session.rs:724 | three requests from a new session that reach the panic |
| SessionLaws.HandoffsOneAtATime | crates/lictor-runtime/src/session.rs:733-775 | for any actions: a record is pending only in Escalated or Fault; Escalated has exactly one, the last, with the fuse's number; every other is resolved; each is bound to the head after one of the ticks |
| SessionLaws.AcceptedIsConsumed | crates/lictor-runtime/src/session.rs:671-732 | an ack accepted on an admissible Escalated tick is consumed |
| SessionLaws.ConsumedOnlyInEscalated | crates/lictor-runtime/src/session.rs:671-732 | no ack is ever consumed in Held or any other state |
| SessionLaws.AcksNeverReplay | crates/lictor-runtime/src/session.rs:728-737 | for any actions, across episodes: of two acks accepted from one operator the later has the larger nonce |
| SessionLaws.FaultLatches | crates/lictor-runtime/src/session.rs:713-720 | after any error in the episode every tick ends in Fault with the hold action |
| SessionLaws.StepHolds | crates/lictor-runtime/src/session.rs:401-431 | every action keeps chains, counts, records and nonces consistent |
| Stats.RocAucByRanks | harness/stats.py:198-217 | the rank-sum loop is the share of pairs won, ties half; one half on an empty class |
| Stats.RocAucByPartition | crates/lictor-calib/src/metrics.rs:77-91 | the partition-point loop is the same share; NaN on an empty class |
| Stats.AucComplement | harness/stats.py:198-217 | swapping the classes complements the area, which lies in [0, 1] |
| Stats.McNemarByCoefficients | harness/stats.py:146-156 | the sum of binomial coefficients is the exact two-sided test |
| Stats.McNemarByRatio | crates/lictor-calib/src/metrics.rs:39-53 | the ratio recurrence with the exponent cast to an i32: it returns the exact test below 2^31 pairs and 1 from there on, so it is the test exactly below 2^31 pairs or when the counts differ by at most one |
| Stats.CertainExactly | crates/lictor-calib/src/metrics.rs:39-53 | the exact test is 1 if and only if the two counts differ by at most one, so the cast goes wrong on every other pair from 2^31 on, such as b = 0 and c = 2^31 |

## Left out

- IEEE rounding, NaN payloads, signed zero and bit-identity: arithmetic is over the reals.
- The closed-form brake kinds and the velocity action kinds: branches other than `PdSecondOrder` and position actions.
- The Tier-1 features computed at chunk boundaries (`tier1.rs` `boundary`): their row of values is an input of the tick.
- The position ring as a field of the tick: it is modelled on its own, since only the features read it.
- The `status`, `tau` and raw window bits of a verdict: derived or constant, read by nothing modelled.
- Action and position dimensions that differ: the model has one dimension, so `box_dims` is that dimension.
- The flat row-major storage of a chunk buffer: a chunk is a sequence of rows.
- Envelope parsing and validation: what it establishes is `FuseConfig.Valid`.
- The session's hello, paths, latency histogram, trace and disk: whether a hello agrees, the weights match and the disk works comes with the request.
- The fields of tick events, records and bodies beside those the checks read: one JSON map each, a parameter of the session.
- `fuse_ok` and its notes: recomputed by the verifier, not part of `intact`.
- The ledger, the curve receipt and the header checks of the verifier: twins of the tick chain, or plain comparisons.
- Ed25519 and SHA-256 themselves: parameters.
- SessionLaws.EveryReceiptVerifies: stops at 2^32 - 1 ticks an episode, where the fuse's counters saturate and the body's lengths wrap.
- Records.TallyConservation: stops short of 2^32 ticks, where counters saturate and sums no longer agree.
- Budget.BudgetIsAttained: is about runs of the table; whether a plant produces such inputs is not modelled.
- Compose.ExecutorFeedsFuse: covers 2^32 ticks, the range of a tick number.
- Stats.McNemarByRatio: assumes that b + c fits a u32, as the program's addition does, and computes over the reals, where the first power does not underflow; in f64 it is zero from 1075 pairs on.
- Unpaired surrogates in Python strings, which cannot be encoded, and Python's recursion limit in the decoder.
- The codec's numpy hooks; a tuple is taken as the list of its items, a bytearray or memoryview as its bytes.
- The conversion of a single to a double image: a parameter of the decoder.
- The library sort: an insertion sort stands for it where its result is determined.
- Clopper-Pearson, the bootstrap, `aucpdt` and the lead-time summaries: transcendental, random, or easy members.
- Seed ranges, fault injection, figures, serving and transport: presentation and plumbing.
