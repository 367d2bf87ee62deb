/** What every schedule of the drift worker and the reconciler keeps. */
module DriftProperties {
  import opened DriftProtocol

  lemma RunStep(s: State, es: seq<Event>)
    requires es != []
    ensures RunFrom(s, es) == Step(RunFrom(s, es[..|es| - 1]), es[|es| - 1])
  {
  }

  lemma {:induction false} RunConcat(s: State, a: seq<Event>, b: seq<Event>)
    ensures RunFrom(s, a + b) == RunFrom(RunFrom(s, a), b)
  {
    if b == [] {
      assert a + b == a;
    } else {
      var n := |b| - 1;
      assert (a + b)[..|a| + n] == a + b[..n];
      RunConcat(s, a, b[..n]);
    }
  }

  // ---- Well-formed maps ----

  /** Entries sit under their own id, carry the default coefficient and a drift that is
      a multiple of 5 between 0 and 500000. */
  predicate WellKept(cals: Calibrations) {
    forall m :: m in cals ==>
      && cals[m].meterId == m && cals[m].tempCoefficient == 0.000_15
      && 0 <= cals[m].driftPpb <= 500_000 && cals[m].driftPpb % 5 == 0
  }

  predicate StateKept(s: State) {
    WellKept(s.calibrations) && WellKept(s.pending) && s.pending.Keys <= s.calibrations.Keys
  }

  lemma StepKeeps(s: State, e: Event)
    requires StateKept(s)
    ensures StateKept(Step(s, e)) && s.calibrations.Keys <= Step(s, e).calibrations.Keys
    ensures |Step(s, e).workers| == |s.workers|
  {
    if Enabled(s, e) {
      match e
      case Insert(w, now) => UpdateKeeps(s.calibrations, s.workers[w].reading.meterId,
                                         NewCalibration(s.workers[w].reading.meterId, s.workers[w].reading.meterClass, now));
      case PerformRecalibration(w, now) =>
        var m := s.workers[w].cmd.meterId;
        UpdateKeeps(s.calibrations, m, AfterRecalibration(s.calibrations, m, now)[m]);
      case WriteBack(m) => UpdateKeeps(s.calibrations, m, s.calibrations[m].(driftPpb := Drifted(s.pending[m].driftPpb)));
      case _ =>
    }
    hide WellKept;
  }

  lemma UpdateKeeps(cals: Calibrations, m: string, cal: Calibration)
    requires WellKept(cals) && WellKept(map[m := cal])
    ensures WellKept(cals[m := cal])
  {
    assert m in map[m := cal];
  }

  lemma {:induction false} RunKeeps(s: State, es: seq<Event>)
    requires StateKept(s)
    ensures var t := RunFrom(s, es);
            StateKept(t) && s.calibrations.Keys <= t.calibrations.Keys && |t.workers| == |s.workers|
  {
    if es != [] {
      RunKeeps(s, es[..|es| - 1]);
      StepKeeps(RunFrom(s, es[..|es| - 1]), es[|es| - 1]);
    }
  }

  /** With any number of workers and in any schedule, drift stays a multiple of 5 between
      0 and 500000, no meter is ever removed, and every snapshotted meter is still there
      when the reconciler writes it back. */
  lemma CalibrationsAreWellKept(workers: nat, before: seq<Event>, later: seq<Event>)
    ensures var s, t := After(workers, before), After(workers, before + later);
            && WellKept(t.calibrations)
            && s.calibrations.Keys <= t.calibrations.Keys
            && t.pending.Keys <= t.calibrations.Keys
  {
    RunConcat(Init(workers), before, later);
    RunKeeps(Init(workers), before);
    RunKeeps(After(workers, before), later);
  }

  // ---- One worker: a miss is still a miss when the write lock is taken ----

  predicate MissesStand(s: State) {
    forall w :: 0 <= w < |s.workers| && s.workers[w].Missed? ==> s.workers[w].reading.meterId !in s.calibrations
  }

  lemma {:induction false} SingleWorkerMissesStand(workers: nat, es: seq<Event>)
    requires workers <= 1
    ensures |After(workers, es).workers| == workers && MissesStand(After(workers, es))
    ensures StateKept(After(workers, es))
  {
    RunKeeps(Init(workers), es);
    if es != [] {
      SingleWorkerMissesStand(workers, es[..|es| - 1]);
      StepKeepsMisses(After(workers, es[..|es| - 1]), es[|es| - 1]);
    }
  }

  lemma StepKeepsMisses(s: State, e: Event)
    requires |s.workers| <= 1 && MissesStand(s) && StateKept(s)
    ensures MissesStand(Step(s, e))
  {
    if Enabled(s, e) && e.WriteBack? {
      assert Reconciled(s.calibrations, s.pending[e.meterId]).Keys == s.calibrations.Keys;
    }
  }

  const RACER := RawReading("a", 1.0, 25.0, "flow")

  const RACE: seq<Event> := [Send(ProcessReading(RACER)), Send(ProcessReading(RACER)), Receive(0), Receive(1),
                             LookUp(0), LookUp(1), Insert(0, 0)]

  lemma Unroll7(s: State, e: seq<Event>)
    requires |e| == 7
    ensures RunFrom(s, e) == Step(Step(Step(Step(Step(Step(Step(s, e[0]), e[1]), e[2]), e[3]), e[4]), e[5]), e[6])
  {
    assert e[..6][..5] == e[..5] && e[..5][..4] == e[..4] && e[..4][..3] == e[..3];
    assert e[..3][..2] == e[..2] && e[..2][..1] == e[..1] && e[..1][..0] == [];
    RunStep(s, e);
    RunStep(s, e[..6]);
    RunStep(s, e[..5]);
    RunStep(s, e[..4]);
    RunStep(s, e[..3]);
    RunStep(s, e[..2]);
    RunStep(s, e[..1]);
  }

  /** Two workers that both miss the same new meter: the first has inserted it, the
      second is still about to. */
  lemma RaceOutcome(workers: nat)
    requires workers >= 2
    ensures var s := After(workers, RACE);
            && |s.workers| == workers && s.workers[1] == Missed(RACER)
            && s.calibrations == map["a" := NewCalibration("a", "flow", 0)] && s.pending == map[]
  {
    var s0 := Init(workers);
    var cmd := ProcessReading(RACER);
    var s2 := s0.(queue := [cmd, cmd]);
    assert Step(Step(s0, RACE[0]), RACE[1]) == s2;
    var s4 := s2.(queue := [], workers := s0.workers[0 := Got(cmd)][1 := Got(cmd)]);
    assert Step(Step(s2, RACE[2]), RACE[3]) == s4;
    var s6 := s4.(workers := s0.workers[0 := Missed(RACER)][1 := Missed(RACER)]);
    assert Step(Step(s4, RACE[4]), RACE[5]) == s6;
    Unroll7(s0, RACE);
  }

  /** The check-then-insert is safe in every schedule exactly when there is at most one
      worker: the pool constant of 4 would break it. */
  lemma MissesStandIffSingleWorker(workers: nat)
    ensures (forall es :: MissesStand(After(workers, es))) <==> workers <= 1
  {
    if workers <= 1 {
      forall es ensures MissesStand(After(workers, es)) {
        SingleWorkerMissesStand(workers, es);
      }
    } else {
      RaceOutcome(workers);
      assert !MissesStand(After(workers, RACE));
    }
  }

  /** And the damage is real: with two workers a reconciled drift of 5 is wiped to 0 by
      a late insert, without any recalibration. */
  lemma SecondWorkerErasesDrift(workers: nat)
    requires workers >= 2
    ensures var s := RunFrom(After(workers, RACE), [Snapshot, WriteBack("a")]);
            && "a" in s.calibrations && s.calibrations["a"].driftPpb == 5
            && Enabled(s, Insert(1, 0)) && Apply(s, Insert(1, 0)).calibrations["a"].driftPpb == 0
  {
    RaceOutcome(workers);
    var s := After(workers, RACE);
    RunStep(s, [Snapshot, WriteBack("a")]);
    RunStep(s, [Snapshot]);
    assert [Snapshot, WriteBack("a")][..1] == [Snapshot] && [Snapshot][..0] == [];
  }

  // ---- Drift against the number of reconciliation cycles ----

  /** How many snapshots the reconciler has taken since the meter appeared. */
  function SnapshotsSince(workers: nat, es: seq<Event>, m: string): nat {
    if es == [] then 0
    else
      var before, e := es[..|es| - 1], es[|es| - 1];
      var s := After(workers, before);
      if m !in s.calibrations then 0
      else SnapshotsSince(workers, before, m) + if e.Snapshot? && Enabled(s, e) then 1 else 0
  }

  predicate Recalibrates(s: State, e: Event, m: string) {
    e.PerformRecalibration? && Enabled(s, e) && s.workers[e.w].cmd.meterId == m && m in s.calibrations
  }

  /** Whether the meter has been recalibrated since it appeared. */
  predicate EverRecalibrated(workers: nat, es: seq<Event>, m: string) {
    es != []
    && (EverRecalibrated(workers, es[..|es| - 1], m)
        || Recalibrates(After(workers, es[..|es| - 1]), es[|es| - 1], m))
  }

  /** Drift after `cycles` undisturbed cycles. */
  function Capped(cycles: nat): int {
    if 5 * cycles <= 500_000 then 5 * cycles else 500_000
  }

  predicate WithinCycles(s: State, m: string, cycles: nat) {
    && (m in s.calibrations ==> s.calibrations[m].driftPpb <= 5 * cycles)
    && (m in s.pending ==> cycles >= 1 && s.pending[m].driftPpb <= 5 * (cycles - 1))
  }

  lemma StepKeepsWithinCycles(s: State, e: Event, m: string, cycles: nat)
    requires StateKept(s) && WithinCycles(s, m, cycles)
    requires m !in s.calibrations ==> cycles == 0
    ensures WithinCycles(Step(s, e), m, if m in s.calibrations && e.Snapshot? && Enabled(s, e) then cycles + 1 else cycles)
  {
  }

  /** A meter's drift never exceeds 5 times the snapshots taken since it appeared, even
      when recalibrations (or several workers) race with the reconciler. */
  lemma {:induction false} DriftIsBoundedByCycles(workers: nat, es: seq<Event>, m: string)
    ensures WithinCycles(After(workers, es), m, SnapshotsSince(workers, es, m))
  {
    if es != [] {
      var before := es[..|es| - 1];
      DriftIsBoundedByCycles(workers, before, m);
      RunKeeps(Init(workers), before);
      if m !in After(workers, before).calibrations {
        NothingBeforeAppearing(workers, before, m);
      }
      StepKeepsWithinCycles(After(workers, before), es[|es| - 1], m, SnapshotsSince(workers, before, m));
      hide WithinCycles, Step, StateKept;
    }
  }

  lemma {:induction false} NothingBeforeAppearing(workers: nat, es: seq<Event>, m: string)
    requires m !in After(workers, es).calibrations
    ensures SnapshotsSince(workers, es, m) == 0
  {
    if es != [] {
      RunKeeps(Init(workers), es[..|es| - 1]);
      StepKeeps(After(workers, es[..|es| - 1]), es[|es| - 1]);
    }
  }

  predicate ExactCycles(s: State, m: string, cycles: nat) {
    m in s.calibrations ==>
      if m in s.pending
      then cycles >= 1 && s.calibrations[m].driftPpb == s.pending[m].driftPpb == Capped(cycles - 1)
      else s.calibrations[m].driftPpb == Capped(cycles)
  }

  lemma StepKeepsExactCycles(s: State, e: Event, m: string, cycles: nat)
    requires StateKept(s) && |s.workers| <= 1 && MissesStand(s) && ExactCycles(s, m, cycles)
    requires m !in s.calibrations ==> cycles == 0
    requires !Recalibrates(s, e, m)
    ensures ExactCycles(Step(s, e), m, if m in s.calibrations && e.Snapshot? && Enabled(s, e) then cycles + 1 else cycles)
  {
  }

  /** With the single worker, a meter never recalibrated has drift exactly min(5c, 500000)
      once its c cycles are written back, in whatever order the snapshots were walked. */
  lemma {:induction false} UnrecalibratedDriftIsExact(workers: nat, es: seq<Event>, m: string)
    requires workers <= 1 && !EverRecalibrated(workers, es, m)
    ensures ExactCycles(After(workers, es), m, SnapshotsSince(workers, es, m))
  {
    if es != [] {
      var before := es[..|es| - 1];
      var s := After(workers, before);
      UnrecalibratedDriftIsExact(workers, before, m);
      SingleWorkerMissesStand(workers, before);
      if m !in s.calibrations {
        NothingBeforeAppearing(workers, before, m);
      }
      StepKeepsExactCycles(s, es[|es| - 1], m, SnapshotsSince(workers, before, m));
      hide ExactCycles, Step, StateKept, MissesStand, Recalibrates;
    }
  }

  // ---- A recalibration racing with the reconciler ----

  /** No new snapshot and no further recalibration of the meter. */
  predicate Undisturbed(s: State, es: seq<Event>, m: string) {
    es == []
    || (Undisturbed(s, es[..|es| - 1], m) && !es[|es| - 1].Snapshot?
        && !Recalibrates(RunFrom(s, es[..|es| - 1]), es[|es| - 1], m))
  }

  /** The drift a recalibrated meter ends the current cycle with. */
  function DriftAfterRace(s: State, m: string): int {
    if m in s.pending then Drifted(s.pending[m].driftPpb) else 0
  }

  predicate RaceInvariant(s: State, t: State, m: string) {
    && m in t.calibrations
    && if m in t.pending then m in s.pending && t.pending[m] == s.pending[m] && t.calibrations[m].driftPpb == 0
       else t.calibrations[m].driftPpb == DriftAfterRace(s, m)
  }

  lemma StepKeepsRace(s: State, t: State, e: Event, m: string)
    requires StateKept(t) && |t.workers| <= 1 && MissesStand(t) && RaceInvariant(s, t, m)
    requires !e.Snapshot? && !Recalibrates(t, e, m)
    ensures RaceInvariant(s, Step(t, e), m)
  {
  }

  lemma {:induction false} RaceRun(s: State, t: State, es: seq<Event>, m: string)
    requires StateKept(t) && |t.workers| <= 1 && MissesStand(t) && RaceInvariant(s, t, m) && Undisturbed(t, es, m)
    ensures var u := RunFrom(t, es);
            StateKept(u) && |u.workers| <= 1 && MissesStand(u) && RaceInvariant(s, u, m)
  {
    if es != [] {
      var u, e := RunFrom(t, es[..|es| - 1]), es[|es| - 1];
      RaceRun(s, t, es[..|es| - 1], m);
      StepKeeps(u, e);
      StepKeepsMisses(u, e);
      StepKeepsRace(s, u, e, m);
      hide StateKept, MissesStand, RaceInvariant, Recalibrates, Step;
    }
  }

  /** A recalibration sticks exactly when the reconciler was not about to write the meter
      back: once the cycle in progress has written it, the drift is the snapshot's plus 5,
      as if the recalibration had not happened; otherwise it is 0. */
  lemma RecalibrationSurvivesIffNotPending(es: seq<Event>, now: int, later: seq<Event>, m: string)
    requires var s := After(1, es); Enabled(s, PerformRecalibration(0, now)) && s.workers[0].cmd.meterId == m
    requires var t := Apply(After(1, es), PerformRecalibration(0, now));
             Undisturbed(t, later, m) && m !in RunFrom(t, later).pending
    ensures var s, u := After(1, es), RunFrom(Apply(After(1, es), PerformRecalibration(0, now)), later);
            && m in u.calibrations && u.calibrations[m].driftPpb == DriftAfterRace(s, m)
            && (u.calibrations[m].driftPpb == 0 <==> m !in s.pending)
  {
    var s, e := After(1, es), PerformRecalibration(0, now);
    SingleWorkerMissesStand(1, es);
    StepKeeps(s, e);
    StepKeepsMisses(s, e);
    var t := Apply(s, e);
    assert RaceInvariant(s, t, m);
    RaceRun(s, t, later, m);
    assert m in s.pending ==> Drifted(s.pending[m].driftPpb) > 0;
    hide MissesStand, Undisturbed, RunFrom;
  }

  const NAMED := RawReading("a", 1.0, 25.0, "flow")

  /** Meter "a" appears and is snapshotted; then its recalibration is handled. */
  const SNAPSHOTTED: seq<Event> := [Send(ProcessReading(NAMED)), Receive(0), LookUp(0), Insert(0, 0), Respond(0),
                                    Snapshot, Send(Recalibrate("a")), Receive(0)]

  lemma SnapshottedOutcome()
    ensures var s := After(1, SNAPSHOTTED);
            && s.workers == [Got(Recalibrate("a"))] && s.queue == []
            && s.calibrations == s.pending == map["a" := NewCalibration("a", "flow", 0)]
  {
    var s0, e := Init(1), SNAPSHOTTED;
    var cmd, cals := ProcessReading(NAMED), map["a" := NewCalibration("a", "flow", 0)];
    assert s0.workers == [Idle];
    var s2 := s0.(workers := [Got(cmd)]);
    var s4 := s0.(workers := [Computed(1.0)], calibrations := cals);
    var s5 := s4.(workers := [Idle], totalReadings := 1, replies := [Corrected(1.0)]);
    var s6 := s5.(pending := cals);
    assert Step(Step(s0, e[0]), e[1]) == s2;
    assert Step(Step(s2, e[2]), e[3]) == s4;
    assert Step(Step(s4, e[4]), e[5]) == s6;
    Unroll7(s0, e[..7]);
    RunStep(s0, e);
  }

  /** The race is real: the recalibration is answered with drift 0, and when the reconciler
      writes its snapshot back the meter has a drift of 5 again. */
  lemma RecalibrationIsLost(now: int)
    ensures var s, e := After(1, SNAPSHOTTED), PerformRecalibration(0, now);
            && Enabled(s, e) && "a" in s.pending
            && "a" in Apply(s, e).calibrations && Apply(s, e).calibrations["a"].driftPpb == 0
            && var t := RunFrom(Apply(s, e), [WriteBack("a")]);
               "a" !in t.pending && "a" in t.calibrations && t.calibrations["a"].driftPpb == 5
  {
    SnapshottedOutcome();
    var t := Apply(After(1, SNAPSHOTTED), PerformRecalibration(0, now));
    RunStep(t, [WriteBack("a")]);
    assert [WriteBack("a")][..0] == [];
  }

  // ---- Corrected values ----

  /** What a correction multiplies by, in parts per billion: drift, and 15 in 100000 per degree
      from 25. */
  lemma CorrectionIsExact(cal: Calibration, r: RawReading)
    requires cal.tempCoefficient == 0.000_15
    ensures 1_000_000_000.0 * CorrectedValue(cal, r)
         == r.rawValue * (1_000_000_000.0 + cal.driftPpb as real) * (1.0 + (r.ambientTemp - 25.0) * 0.000_15)
    ensures r.ambientTemp == 25.0 ==>
              1_000_000_000.0 * CorrectedValue(cal, r) == r.rawValue * (1_000_000_000.0 + cal.driftPpb as real)
  {
    var v, t, f := r.rawValue, 1.0 + (r.ambientTemp - 25.0) * 0.000_15, 1.0 + cal.driftPpb as real / 1_000_000_000.0;
    assert CorrectedValue(cal, r) == v * t * f;
    assert 1_000_000_000.0 * (v * t * f) == v * (1_000_000_000.0 * f) * t;
    assert 1_000_000_000.0 * f == 1_000_000_000.0 + cal.driftPpb as real;
    if r.ambientTemp == 25.0 {
      assert t == 1.0;
    }
  }

  /** In every reachable state, at 25 degrees a reading of a known meter is multiplied by exactly
      1 plus its drift in parts per billion, so a non-negative one is never lowered and never
      raised by more than 0.05 percent; other temperatures scale that linearly. */
  lemma CorrectionIsSmall(workers: nat, es: seq<Event>, r: RawReading)
    requires r.meterId in After(workers, es).calibrations
    ensures var cal := After(workers, es).calibrations[r.meterId];
            var at25 := CorrectedValue(cal, r.(ambientTemp := 25.0));
            && 1_000_000_000.0 * at25 == r.rawValue * (1_000_000_000.0 + cal.driftPpb as real)
            && (r.rawValue >= 0.0 ==> r.rawValue <= at25 <= r.rawValue * 1.000_5)
            && CorrectedValue(cal, r) == at25 * (1.0 + (r.ambientTemp - 25.0) * 0.000_15)
  {
    RunKeeps(Init(workers), es);
    var cal := After(workers, es).calibrations[r.meterId];
    CorrectionIsExact(cal, r);
    CorrectionIsExact(cal, r.(ambientTemp := 25.0));
    SmallDrift(r.rawValue, cal.driftPpb as real, CorrectedValue(cal, r.(ambientTemp := 25.0)), CorrectedValue(cal, r),
               1.0 + (r.ambientTemp - 25.0) * 0.000_15);
    hide After, RunFrom, CorrectedValue;
  }

  lemma SmallDrift(v: real, drift: real, at25: real, corrected: real, t: real)
    requires 0.0 <= drift <= 500_000.0 && 1_000_000_000.0 * at25 == v * (1_000_000_000.0 + drift)
    requires 1_000_000_000.0 * corrected == v * (1_000_000_000.0 + drift) * t
    ensures v >= 0.0 ==> v <= at25 <= v * 1.000_5
    ensures corrected == at25 * t
  {
    assert v * (1_000_000_000.0 + drift) == 1_000_000_000.0 * v + v * drift;
    if v >= 0.0 {
      ProductSign(v, drift);
      ProductSign(v, 500_000.0 - drift);
      assert v * (500_000.0 - drift) == 500_000.0 * v - v * drift;
    }
    assert v * (1_000_000_000.0 + drift) * t == 1_000_000_000.0 * at25 * t;
  }

  lemma ProductSign(x: real, y: real)
    requires x >= 0.0 && y >= 0.0
    ensures x * y >= 0.0
  {
  }

  /** End to end: once the c cycles since a never recalibrated meter appeared are written back, a
      reading of it at 25 degrees is answered with 1 + min(5c, 500000) / 10^9 times its value. */
  lemma UnrecalibratedReplyIsExact(es: seq<Event>, r: RawReading)
    requires var s := After(1, es);
             && |s.workers| == 1 && s.workers[0] == Got(ProcessReading(r)) && r.ambientTemp == 25.0
             && r.meterId in s.calibrations && r.meterId !in s.pending
    requires !EverRecalibrated(1, es, r.meterId)
    ensures var c := SnapshotsSince(1, es, r.meterId);
            var before, t := After(1, es).replies, Step(Step(After(1, es), LookUp(0)), Respond(0));
            && |t.replies| == |before| + 1 && t.replies[..|before|] == before && t.replies[|before|].Corrected?
            && 1_000_000_000.0 * t.replies[|before|].value
               == r.rawValue * (1_000_000_000.0 + (if 5 * c <= 500_000 then 5 * c else 500_000) as real)
  {
    hide After, CorrectedValue, Step, StateKept, EverRecalibrated, SnapshotsSince;
    var s := After(1, es);
    After1Kept(es);
    UnrecalibratedDriftIsExact(1, es, r.meterId);
    LookedUpReply(s, r);
    CorrectionIsExact(s.calibrations[r.meterId], r);
  }

  lemma After1Kept(es: seq<Event>)
    ensures WellKept(After(1, es).calibrations)
  {
    RunKeeps(Init(1), es);
  }

  lemma LookedUpReply(s: State, r: RawReading)
    requires |s.workers| == 1 && s.workers[0] == Got(ProcessReading(r)) && r.meterId in s.calibrations
    ensures Step(Step(s, LookUp(0)), Respond(0)).replies == s.replies + [Corrected(CorrectedValue(s.calibrations[r.meterId], r))]
  {
    hide CorrectedValue;
  }
}
