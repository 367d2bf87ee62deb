/** Meter drift correction: worker tasks and the reconciliation task as interleaved
    atomic steps over one shared calibration map. Each step is what one task does
    while it holds a lock, or one channel operation. */
module DriftProtocol {

  const POOL_SIZE: nat := 4
  const CHANNEL_CAPACITY: nat := 100_000
  const DEFAULT_TEMP_COEFFICIENT := 0.000_15
  const DRIFT_STEP := 5
  const MAX_DRIFT := 500_000

  /** Drift is kept in parts per billion; the code only ever stores integers in it. */
  datatype Calibration = Calibration(
    meterId: string, driftPpb: int, lastCalibration: int, tempCoefficient: real, meterClass: string)

  datatype RawReading = RawReading(meterId: string, rawValue: real, ambientTemp: real, meterClass: string)

  datatype Command = ProcessReading(reading: RawReading) | Recalibrate(meterId: string) | GetMetrics

  datatype Reply =
    | Corrected(value: real)
    | Recalibrated(meterId: string, driftPpb: int, tempCoefficient: real, recalibratedAt: int)
    | Metrics(totalReadings: nat, activeMeters: nat, workerCount: nat, queueDepth: nat)

  type Calibrations = map<string, Calibration>

  // ---- What one task computes under a lock ----

  function CorrectedValue(cal: Calibration, reading: RawReading): real {
    var tempCorrection := 1.0 + (reading.ambientTemp - 25.0) * cal.tempCoefficient;
    var driftCorrection := 1.0 + cal.driftPpb as real / 1_000_000_000.0;
    reading.rawValue * tempCorrection * driftCorrection
  }

  function NewCalibration(meterId: string, meterClass: string, now: int): Calibration {
    Calibration(meterId, 0, now, DEFAULT_TEMP_COEFFICIENT, meterClass)
  }

  function Inserted(cals: Calibrations, reading: RawReading, now: int): Calibrations {
    cals[reading.meterId := NewCalibration(reading.meterId, reading.meterClass, now)]
  }

  function AfterRecalibration(cals: Calibrations, meterId: string, now: int): Calibrations {
    cals[meterId := if meterId in cals then cals[meterId].(driftPpb := 0, lastCalibration := now)
                    else NewCalibration(meterId, "default", now)]
  }

  function RecalibrationReply(cals: Calibrations, meterId: string, now: int): Reply {
    Recalibrated(meterId, 0, AfterRecalibration(cals, meterId, now)[meterId].tempCoefficient, now)
  }

  function Drifted(driftPpb: int): int {
    if driftPpb + DRIFT_STEP <= MAX_DRIFT then driftPpb + DRIFT_STEP else MAX_DRIFT
  }

  function Reconciled(cals: Calibrations, snapshot: Calibration): Calibrations {
    if snapshot.meterId in cals
    then cals[snapshot.meterId := cals[snapshot.meterId].(driftPpb := Drifted(snapshot.driftPpb))]
    else cals
  }

  // ---- The step system ----

  /** A worker between locks. `Missed` holds a reading whose meter was absent under the
      read lock, and has not taken the write lock yet. */
  datatype Worker = Idle | Got(cmd: Command) | Missed(reading: RawReading) | Computed(value: real)

  /** `pending` is what the reconciler still has to write back from its last snapshot. */
  datatype State = State(
    calibrations: Calibrations, totalReadings: nat, queue: seq<Command>, workers: seq<Worker>,
    pending: Calibrations, replies: seq<Reply>)

  datatype Event =
    | Send(cmd: Command)
    | Receive(w: nat)
    | LookUp(w: nat)
    | Insert(w: nat, now: int)
    | Respond(w: nat)
    | PerformRecalibration(w: nat, now: int)
    | ReportMetrics(w: nat)
    | Snapshot
    | WriteBack(meterId: string)

  predicate Enabled(s: State, e: Event) {
    match e
    case Send(_) => |s.queue| < CHANNEL_CAPACITY
    case Receive(w) => w < |s.workers| && s.workers[w].Idle? && s.queue != []
    case LookUp(w) => w < |s.workers| && s.workers[w].Got? && s.workers[w].cmd.ProcessReading?
    case Insert(w, _) => w < |s.workers| && s.workers[w].Missed?
    case Respond(w) => w < |s.workers| && s.workers[w].Computed?
    case PerformRecalibration(w, _) => w < |s.workers| && s.workers[w].Got? && s.workers[w].cmd.Recalibrate?
    case ReportMetrics(w) => w < |s.workers| && s.workers[w].Got? && s.workers[w].cmd.GetMetrics?
    case Snapshot => s.pending == map[]
    case WriteBack(m) => m in s.pending
  }

  function Apply(s: State, e: Event): State
    requires Enabled(s, e)
  {
    match e
    case Send(cmd) => s.(queue := s.queue + [cmd])
    case Receive(w) => s.(queue := s.queue[1..], workers := s.workers[w := Got(s.queue[0])])
    case LookUp(w) =>
      var r := s.workers[w].cmd.reading;
      s.(workers := s.workers[w := if r.meterId in s.calibrations
                                   then Computed(CorrectedValue(s.calibrations[r.meterId], r)) else Missed(r)])
    case Insert(w, now) =>
      var r := s.workers[w].reading;
      s.(calibrations := Inserted(s.calibrations, r, now), workers := s.workers[w := Computed(r.rawValue)])
    case Respond(w) =>
      s.(totalReadings := s.totalReadings + 1, workers := s.workers[w := Idle],
         replies := s.replies + [Corrected(s.workers[w].value)])
    case PerformRecalibration(w, now) =>
      var m := s.workers[w].cmd.meterId;
      s.(calibrations := AfterRecalibration(s.calibrations, m, now), workers := s.workers[w := Idle],
         replies := s.replies + [RecalibrationReply(s.calibrations, m, now)])
    case ReportMetrics(w) =>
      s.(workers := s.workers[w := Idle],
         replies := s.replies + [Metrics(s.totalReadings, |s.calibrations|, POOL_SIZE, |s.queue|)])
    case Snapshot => s.(pending := s.calibrations)
    case WriteBack(m) =>
      s.(calibrations := Reconciled(s.calibrations, s.pending[m]), pending := s.pending - {m})
  }

  /** A scheduled event that is not enabled is skipped, so every event list is a run. */
  function Step(s: State, e: Event): State {
    if Enabled(s, e) then Apply(s, e) else s
  }

  function RunFrom(s: State, es: seq<Event>): State {
    if es == [] then s else Step(RunFrom(s, es[..|es| - 1]), es[|es| - 1])
  }

  function Init(workers: nat): State {
    State(map[], 0, [], seq(workers, _ => Idle), map[], [])
  }

  /** The state after a schedule. The code spawns one worker, whatever POOL_SIZE says. */
  function After(workers: nat, es: seq<Event>): State {
    RunFrom(Init(workers), es)
  }

  // ---- The same steps on shared mutable state ----

  class DriftWorkerPool {
    var calibrations: Calibrations
    var totalReadings: nat
    var queue: seq<Command>
    var workers: seq<Worker>
    var pending: Calibrations
    var replies: seq<Reply>

    ghost function Abs(): State
      reads this
    {
      State(calibrations, totalReadings, queue, workers, pending, replies)
    }

    /** Spawns a single worker and the reconciler. */
    constructor ()
      ensures Abs() == Init(1)
    {
      calibrations, totalReadings, queue := map[], 0, [];
      workers, pending, replies := seq(1, _ => Idle), map[], [];
    }

    method Submit(cmd: Command) returns (accepted: bool)
      modifies this`queue
      ensures Abs() == Step(old(Abs()), Send(cmd)) && accepted == (|old(queue)| < 100_000)
    {
      accepted := |queue| < CHANNEL_CAPACITY;
      if accepted {
        queue := queue + [cmd];
      }
    }

    method ReceiveCommand(w: nat)
      requires Enabled(Abs(), Receive(w))
      modifies this
      ensures Abs() == Apply(old(Abs()), Receive(w))
    {
      workers := workers[w := Got(queue[0])];
      queue := queue[1..];
    }

    /** `compute_correction` under the read lock. */
    method LookUpCalibration(w: nat)
      requires Enabled(Abs(), LookUp(w))
      modifies this
      ensures Abs() == Apply(old(Abs()), LookUp(w))
    {
      var reading := workers[w].cmd.reading;
      if reading.meterId in calibrations {
        var corrected := CorrectedValue(calibrations[reading.meterId], reading);
        workers := workers[w := Computed(corrected)];
      } else {
        workers := workers[w := Missed(reading)];
      }
    }

    /** `compute_correction` under the write lock, after a miss. */
    method InsertMissing(w: nat, now: int)
      requires Enabled(Abs(), Insert(w, now))
      modifies this
      ensures Abs() == Apply(old(Abs()), Insert(w, now))
      ensures var r := old(workers)[w].reading;
              calibrations == old(calibrations)[r.meterId := Calibration(r.meterId, 0, now, 0.000_15, r.meterClass)]
    {
      var reading := workers[w].reading;
      calibrations := calibrations[reading.meterId :=
        Calibration(reading.meterId, 0, now, DEFAULT_TEMP_COEFFICIENT, reading.meterClass)];
      workers := workers[w := Computed(reading.rawValue)];
    }

    method CountAndRespond(w: nat)
      requires Enabled(Abs(), Respond(w))
      modifies this
      ensures Abs() == Apply(old(Abs()), Respond(w))
    {
      totalReadings := totalReadings + 1;
      replies := replies + [Corrected(workers[w].value)];
      workers := workers[w := Idle];
    }

    method Recalibrate(w: nat, now: int)
      requires Enabled(Abs(), PerformRecalibration(w, now))
      modifies this
      ensures Abs() == Apply(old(Abs()), PerformRecalibration(w, now))
      ensures var m := old(workers)[w].cmd.meterId;
              && calibrations == old(calibrations)[m := if m in old(calibrations)
                                                        then old(calibrations)[m].(driftPpb := 0, lastCalibration := now)
                                                        else Calibration(m, 0, now, 0.000_15, "default")]
              && replies == old(replies) + [Recalibrated(m, 0, calibrations[m].tempCoefficient, now)]
    {
      var meterId := workers[w].cmd.meterId;
      var cal := NewCalibration(meterId, "default", now);
      if meterId in calibrations {
        cal := calibrations[meterId].(driftPpb := 0, lastCalibration := now);
      }
      calibrations := calibrations[meterId := cal];
      replies := replies + [Recalibrated(meterId, 0, cal.tempCoefficient, now)];
      workers := workers[w := Idle];
    }

    method Report(w: nat)
      requires Enabled(Abs(), ReportMetrics(w))
      modifies this
      ensures Abs() == Apply(old(Abs()), ReportMetrics(w))
    {
      replies := replies + [Metrics(totalReadings, |calibrations|, POOL_SIZE, |queue|)];
      workers := workers[w := Idle];
    }

    method TakeSnapshot()
      requires Enabled(Abs(), Snapshot)
      modifies this
      ensures Abs() == Apply(old(Abs()), Snapshot)
    {
      pending := calibrations;
    }

    method WriteBackOne(meterId: string)
      requires Enabled(Abs(), WriteBack(meterId))
      modifies this
      ensures Abs() == Apply(old(Abs()), WriteBack(meterId))
    {
      var cal := pending[meterId];
      var simulatedDrift := Drifted(cal.driftPpb);
      if cal.meterId in calibrations {
        calibrations := calibrations[cal.meterId := calibrations[cal.meterId].(driftPpb := simulatedDrift)];
      }
      pending := pending - {meterId};
    }
  }
}
