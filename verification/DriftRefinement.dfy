/** The interleaved worker and reconciler refine a sequential service that handles one
    command at a time, in the order the commands were sent. */
module DriftRefinement {
  import opened Common
  import opened DriftProtocol
  import opened DriftProperties

  // ---- The sequential service ----

  /** One atomic operation: a whole command, or one write of the reconciler. `now` is the
      clock and `depth` the queue length read while handling the command. */
  datatype Op = Handle(cmd: Command, now: int, depth: nat) | Reconcile(snapshot: Calibration)

  datatype Service = Service(calibrations: Calibrations, totalReadings: nat, replies: seq<Reply>)

  const NEW_SERVICE := Service(map[], 0, [])

  function Serve(s: Service, op: Op): Service {
    match op
    case Handle(ProcessReading(r), now, _) =>
      if r.meterId in s.calibrations
      then Service(s.calibrations, s.totalReadings + 1,
                   s.replies + [Corrected(CorrectedValue(s.calibrations[r.meterId], r))])
      else Service(Inserted(s.calibrations, r, now), s.totalReadings + 1, s.replies + [Corrected(r.rawValue)])
    case Handle(Recalibrate(m), now, _) =>
      Service(AfterRecalibration(s.calibrations, m, now), s.totalReadings, s.replies + [RecalibrationReply(s.calibrations, m, now)])
    case Handle(GetMetrics, _, depth) =>
      s.(replies := s.replies + [Metrics(s.totalReadings, |s.calibrations|, POOL_SIZE, depth)])
    case Reconcile(snapshot) => s.(calibrations := Reconciled(s.calibrations, snapshot))
  }

  function ServeAll(ops: seq<Op>): Service {
    if ops == [] then NEW_SERVICE else Serve(ServeAll(ops[..|ops| - 1]), ops[|ops| - 1])
  }

  lemma ServeOneMore(ops: seq<Op>, op: Op)
    ensures ServeAll(ops + [op]) == Serve(ServeAll(ops), op)
  {
    assert (ops + [op])[..|ops|] == ops;
  }

  function CommandOf(op: Op): seq<Command> {
    if op.Handle? then [op.cmd] else []
  }

  function CommandsIn(ops: seq<Op>): seq<Command> {
    if ops == [] then [] else CommandsIn(ops[..|ops| - 1]) + CommandOf(ops[|ops| - 1])
  }

  lemma CommandsOneMore(ops: seq<Op>, op: Op)
    ensures CommandsIn(ops + [op]) == CommandsIn(ops) + CommandOf(op)
  {
    assert (ops + [op])[..|ops|] == ops;
  }

  // ---- Linearization ----

  /** The atomic operation a step completes, if any: a reading takes effect at the look-up
      when it hits and at the insert when it misses. */
  function Effect(s: State, e: Event): Option<Op> {
    if !Enabled(s, e) then None
    else
      match e
      case LookUp(w) => if s.workers[w].cmd.reading.meterId in s.calibrations then Some(Handle(s.workers[w].cmd, 0, 0)) else None
      case Insert(w, now) => Some(Handle(ProcessReading(s.workers[w].reading), now, 0))
      case PerformRecalibration(w, now) => Some(Handle(s.workers[w].cmd, now, 0))
      case ReportMetrics(w) => Some(Handle(GetMetrics, 0, |s.queue|))
      case WriteBack(m) => Some(Reconcile(s.pending[m]))
      case _ => None
  }

  function Linearized(es: seq<Event>): seq<Op> {
    if es == [] then []
    else
      var ops := Linearized(es[..|es| - 1]);
      match Effect(After(1, es[..|es| - 1]), es[|es| - 1])
      case Some(op) => ops + [op]
      case None => ops
  }

  /** The queue never holds more than 100000 commands. */
  lemma {:induction false} QueueIsBounded(workers: nat, es: seq<Event>)
    ensures |After(workers, es).queue| <= 100_000
  {
    if es != [] {
      QueueIsBounded(workers, es[..|es| - 1]);
    }
  }

  /** The commands the queue accepted, in the order they were sent. */
  function Accepted(es: seq<Event>): seq<Command> {
    if es == [] then []
    else
      var e := es[|es| - 1];
      Accepted(es[..|es| - 1]) + if e.Send? && Enabled(After(1, es[..|es| - 1]), e) then [e.cmd] else []
  }

  /** The command the worker holds whose effect is still to come. */
  function InFlight(w: Worker): seq<Command> {
    match w
    case Got(cmd) => [cmd]
    case Missed(r) => [ProcessReading(r)]
    case _ => []
  }

  /** The service state behind a concrete one: a computed value counts as already replied. */
  function Behind(s: State): Service
    requires |s.workers| == 1
  {
    match s.workers[0]
    case Computed(v) => Service(s.calibrations, s.totalReadings + 1, s.replies + [Corrected(v)])
    case _ => Service(s.calibrations, s.totalReadings, s.replies)
  }

  function ServeEffect(a: Service, effect: Option<Op>): Service {
    match effect
    case Some(op) => Serve(a, op)
    case None => a
  }

  function EffectCommand(effect: Option<Op>): seq<Command> {
    match effect
    case Some(op) => CommandOf(op)
    case None => []
  }

  /** One concrete step is one atomic operation of the service, or none. */
  lemma StepServes(s: State, e: Event)
    requires |s.workers| == 1 && MissesStand(s)
    ensures Behind(Step(s, e)) == ServeEffect(Behind(s), Effect(s, e))
  {
    hide CorrectedValue, Inserted, AfterRecalibration, RecalibrationReply, Reconciled;
  }

  /** A step moves commands only forward: from the queue through the worker to the handled ones. */
  lemma StepMovesCommands(s: State, e: Event)
    requires |s.workers| == 1
    ensures EffectCommand(Effect(s, e)) + InFlight(Step(s, e).workers[0]) + Step(s, e).queue
         == InFlight(s.workers[0]) + s.queue + if e.Send? && Enabled(s, e) then [e.cmd] else []
  {
    var t := Step(s, e);
    var c, f, f' := EffectCommand(Effect(s, e)), InFlight(s.workers[0]), InFlight(t.workers[0]);
    StepMovesOne(s, e);
    hide Step, Effect, EffectCommand, InFlight;
    if e.Receive? && Enabled(s, e) {
      assert c + f' + t.queue == f' + t.queue == s.queue;
      assert f + s.queue + [] == s.queue;
    } else {
      assert c + f' + t.queue == f + t.queue;
    }
  }

  lemma StepMovesOne(s: State, e: Event)
    requires |s.workers| == 1
    ensures var t := Step(s, e);
            var c, f, f' := EffectCommand(Effect(s, e)), InFlight(s.workers[0]), InFlight(t.workers[0]);
            if e.Receive? && Enabled(s, e) then c == [] && f == [] && f' + t.queue == s.queue
            else c + f' == f && t.queue == s.queue + if e.Send? && Enabled(s, e) then [e.cmd] else []
  {
    hide CorrectedValue, Inserted, AfterRecalibration, RecalibrationReply, Reconciled;
  }

  /** For every schedule of the single worker and the reconciler, calibrations, counter and
      replies are those of the sequential service run over the linearized operations. */
  lemma {:induction false} ScheduleIsSequential(es: seq<Event>)
    ensures |After(1, es).workers| == 1 && Behind(After(1, es)) == ServeAll(Linearized(es))
  {
    SingleWorkerMissesStand(1, es);
    if es != [] {
      var before, e := es[..|es| - 1], es[|es| - 1];
      ScheduleIsSequential(before);
      SingleWorkerMissesStand(1, before);
      StepServes(After(1, before), e);
      match Effect(After(1, before), e) {
        case Some(op) => ServeOneMore(Linearized(before), op);
        case None =>
      }
      hide Step, Effect, Serve, Behind, MissesStand, StateKept;
    }
  }

  /** And in every schedule the handled commands, the one in flight and the queue are
      together exactly the accepted ones, in the order they were sent. */
  lemma {:induction false} ScheduleIsFifo(es: seq<Event>)
    ensures var s := After(1, es);
            && |s.workers| == 1
            && CommandsIn(Linearized(es)) + InFlight(s.workers[0]) + s.queue == Accepted(es)
  {
    RunKeeps(Init(1), es);
    if es != [] {
      var before, e := es[..|es| - 1], es[|es| - 1];
      var s := After(1, before);
      ScheduleIsFifo(before);
      StepMovesCommands(s, e);
      HandledGrows(Linearized(before), Effect(s, e));
      Regroup(CommandsIn(Linearized(before)), EffectCommand(Effect(s, e)), InFlight(Step(s, e).workers[0]), Step(s, e).queue,
              InFlight(s.workers[0]), s.queue, if e.Send? && Enabled(s, e) then [e.cmd] else []);
      hide Step, Effect, InFlight, StateKept, CommandOf, CommandsIn, Enabled, EffectCommand;
    }
  }

  lemma Regroup(handled: seq<Command>, c: seq<Command>, f': seq<Command>, q': seq<Command>,
                f: seq<Command>, q: seq<Command>, sent: seq<Command>)
    requires c + f' + q' == f + q + sent
    ensures (handled + c) + f' + q' == (handled + f + q) + sent
  {
    assert (handled + c) + f' + q' == handled + (c + f' + q');
    assert (handled + f + q) + sent == handled + (f + q + sent);
  }

  lemma HandledGrows(ops: seq<Op>, effect: Option<Op>)
    ensures match effect
            case Some(op) => CommandsIn(ops + [op]) == CommandsIn(ops) + EffectCommand(effect)
            case None => CommandsIn(ops) == CommandsIn(ops) + EffectCommand(effect)
  {
    if effect.Some? {
      CommandsOneMore(ops, effect.value);
    }
  }

  // ---- What the sequential service counts ----

  function ReadingsIn(cmds: seq<Command>): nat {
    if cmds == [] then 0
    else ReadingsIn(cmds[..|cmds| - 1]) + if cmds[|cmds| - 1].ProcessReading? then 1 else 0
  }

  /** The meters named in readings or recalibrations. */
  function MetersIn(cmds: seq<Command>): set<string> {
    if cmds == [] then {}
    else
      MetersIn(cmds[..|cmds| - 1])
      + match cmds[|cmds| - 1] { case ProcessReading(r) => {r.meterId} case Recalibrate(m) => {m} case GetMetrics => {} }
  }

  lemma {:induction false} ServiceCounts(ops: seq<Op>)
    ensures var s, cmds := ServeAll(ops), CommandsIn(ops);
            && s.totalReadings == ReadingsIn(cmds)
            && s.calibrations.Keys == MetersIn(cmds)
            && |s.replies| == |cmds|
  {
    if ops != [] {
      var before, op := ops[..|ops| - 1], ops[|ops| - 1];
      var cmds := CommandsIn(before);
      ServiceCounts(before);
      ServeCounts(ServeAll(before), op);
      if op.Handle? {
        assert (cmds + [op.cmd])[..|cmds|] == cmds;
      } else {
        assert cmds + [] == cmds;
      }
      hide Serve;
    }
  }

  function NamedBy(op: Op): set<string> {
    match op
    case Handle(ProcessReading(r), _, _) => {r.meterId}
    case Handle(Recalibrate(m), _, _) => {m}
    case _ => {}
  }

  lemma ServeCounts(s: Service, op: Op)
    ensures var t := Serve(s, op);
            && t.totalReadings == s.totalReadings + (if op.Handle? && op.cmd.ProcessReading? then 1 else 0)
            && t.calibrations.Keys == s.calibrations.Keys + NamedBy(op)
            && |t.replies| == |s.replies| + (if op.Handle? then 1 else 0)
  {
  }

  // ---- What the callers of a schedule are answered ----

  /** A drift the reconciler can have accumulated. */
  predicate IsDrift(driftPpb: int) {
    0 <= driftPpb <= 500_000 && driftPpb % 5 == 0
  }

  /** A reading corrected for temperature by the default coefficient and for some drift. */
  ghost predicate IsCorrected(r: RawReading, value: real) {
    exists driftPpb :: IsDrift(driftPpb)
      && 1_000_000_000.0 * value
         == r.rawValue * (1_000_000_000.0 + driftPpb as real) * (1.0 + (r.ambientTemp - 25.0) * 0.000_15)
  }

  /** A reply answers a command that was sent after the earlier ones: the first reading of a
      meter comes back raw, a later one corrected; a recalibration reports no drift; and
      metrics report exactly the readings and the distinct meters named earlier. */
  ghost predicate Answers(reply: Reply, cmd: Command, earlier: seq<Command>) {
    match cmd
    case ProcessReading(r) =>
      reply.Corrected? && if r.meterId in MetersIn(earlier) then IsCorrected(r, reply.value) else reply.value == r.rawValue
    case Recalibrate(m) =>
      reply.Recalibrated? && reply.meterId == m && reply.driftPpb == 0 && reply.tempCoefficient == 0.000_15
    case GetMetrics =>
      reply.Metrics? && reply == Metrics(ReadingsIn(earlier), |MetersIn(earlier)|, 4, reply.queueDepth)
  }

  lemma ServeAnswers(a: Service, op: Op, earlier: seq<Command>)
    requires op.Handle? && WellKept(a.calibrations)
    requires a.calibrations.Keys == MetersIn(earlier) && a.totalReadings == ReadingsIn(earlier)
    ensures var n, t := |a.replies|, Serve(a, op);
            && |t.replies| == n + 1 && t.replies[..n] == a.replies
            && Answers(t.replies[n], op.cmd, earlier)
            && (op.cmd.GetMetrics? ==> t.replies[n].queueDepth == op.depth)
  {
    hide ReadingsIn, MetersIn;
    assert |a.calibrations| == |a.calibrations.Keys|;
    if op.cmd.ProcessReading? && op.cmd.reading.meterId in a.calibrations {
      var r := op.cmd.reading;
      var cal := a.calibrations[r.meterId];
      assert IsDrift(cal.driftPpb);
      CorrectionIsExact(cal, r);
      hide CorrectedValue;
      assert IsCorrected(r, CorrectedValue(cal, r));
    }
  }

  /** All replies answer the commands in order, and metrics do not claim a queue longer than
      what had been accepted by then. */
  ghost predicate AllAnswered(replies: seq<Reply>, cmds: seq<Command>, accepted: nat) {
    && |replies| <= |cmds|
    && forall j :: 0 <= j < |replies| ==>
         && Answers(replies[j], cmds[j], cmds[..j])
         && (replies[j].Metrics? ==> j + 1 + replies[j].queueDepth <= accepted)
  }

  lemma OneMoreAnswered(replies: seq<Reply>, cmds: seq<Command>, accepted: nat, reply: Reply, cmd: Command, accepted': nat)
    requires AllAnswered(replies, cmds, accepted) && |replies| == |cmds| && accepted <= accepted'
    requires Answers(reply, cmd, cmds) && (reply.Metrics? ==> |cmds| + 1 + reply.queueDepth <= accepted')
    ensures AllAnswered(replies + [reply], cmds + [cmd], accepted')
  {
    hide Answers;
    assert forall j :: 0 <= j <= |cmds| ==> (cmds + [cmd])[..j] == cmds[..j];
    assert cmds[..|cmds|] == cmds;
  }

  lemma AcceptedGrows(es: seq<Event>)
    requires es != []
    ensures |Accepted(es[..|es| - 1])| <= |Accepted(es)|
  {
  }

  /** The queue length a metrics command reads counts commands accepted after it. */
  lemma DepthIsAccepted(es: seq<Event>, e: Event)
    requires var effect := Effect(After(1, es), e); effect.Some? && effect.value.Handle? && effect.value.cmd.GetMetrics?
    ensures |CommandsIn(Linearized(es))| + 1 + Effect(After(1, es), e).value.depth <= |Accepted(es)|
  {
    ScheduleIsFifo(es);
    hide After, Linearized, CommandsIn, Accepted;
  }

  lemma HandledIsAnswered(before: seq<Event>, e: Event, accepted: nat)
    requires var ops := Linearized(before); AllAnswered(ServeAll(ops).replies, CommandsIn(ops), |Accepted(before)|)
    requires var effect := Effect(After(1, before), e); effect.Some? && effect.value.Handle?
    requires accepted >= |Accepted(before)|
    ensures var ops := Linearized(before) + [Effect(After(1, before), e).value];
            AllAnswered(ServeAll(ops).replies, CommandsIn(ops), accepted)
  {
    ScheduleIsSequential(before);
    SingleWorkerMissesStand(1, before);
    hide Answers, Serve, ServeAll, Linearized, CommandsIn, Accepted, After, Effect, AllAnswered, WellKept, ReadingsIn, MetersIn;
    var ops, op := Linearized(before), Effect(After(1, before), e).value;
    var a, cmds := ServeAll(ops), CommandsIn(ops);
    ServiceCounts(ops);
    ServeAnswers(a, op, cmds);
    if op.cmd.GetMetrics? { DepthIsAccepted(before, e); }
    var t := Serve(a, op);
    assert t.replies == a.replies + [t.replies[|a.replies|]];
    ReplyKinds(t.replies[|a.replies|], op.cmd, cmds);
    OneMoreAnswered(a.replies, cmds, |Accepted(before)|, t.replies[|a.replies|], op.cmd, accepted);
    ServeOneMore(ops, op);
    CommandsOneMore(ops, op);
  }

  lemma ReplyKinds(reply: Reply, cmd: Command, earlier: seq<Command>)
    requires Answers(reply, cmd, earlier)
    ensures reply.Metrics? <==> cmd.GetMetrics?
  {
  }

  lemma OtherStepsAnswerNothing(before: seq<Event>, e: Event, accepted: nat)
    requires var ops := Linearized(before); AllAnswered(ServeAll(ops).replies, CommandsIn(ops), |Accepted(before)|)
    requires var effect := Effect(After(1, before), e); effect.Some? ==> effect.value.Reconcile?
    requires accepted >= |Accepted(before)|
    ensures AllAnswered(ServeAll(Linearized(before + [e])).replies, CommandsIn(Linearized(before + [e])), accepted)
  {
    var ops, effect := Linearized(before), Effect(After(1, before), e);
    assert (before + [e])[..|before|] == before;
    if effect.Some? {
      ServeOneMore(ops, effect.value);
      CommandsOneMore(ops, effect.value);
      assert CommandsIn(ops) + [] == CommandsIn(ops);
    }
    hide Answers, ServeAll, CommandsIn, Accepted, After, Effect;
  }

  lemma {:induction false} ServiceAnswersInOrder(es: seq<Event>)
    ensures AllAnswered(ServeAll(Linearized(es)).replies, CommandsIn(Linearized(es)), |Accepted(es)|)
  {
    if es != [] {
      var before, e := es[..|es| - 1], es[|es| - 1];
      assert before + [e] == es;
      ServiceAnswersInOrder(before);
      AcceptedGrows(es);
      var effect := Effect(After(1, before), e);
      hide AllAnswered, ServeAll, CommandsIn, Accepted, After, Effect;
      if effect.Some? && effect.value.Handle? {
        HandledIsAnswered(before, e, |Accepted(es)|);
      } else {
        OtherStepsAnswerNothing(before, e, |Accepted(es)|);
      }
    }
  }

  /** In every schedule the j-th reply answers the j-th accepted command, from what was sent before it. */
  lemma RepliesAnswerInOrder(es: seq<Event>)
    ensures AllAnswered(After(1, es).replies, Accepted(es), |Accepted(es)|)
  {
    ScheduleIsSequential(es);
    ScheduleIsFifo(es);
    ServiceAnswersInOrder(es);
    var s, cmds := After(1, es), CommandsIn(Linearized(es));
    var all := ServeAll(Linearized(es)).replies;
    assert s.replies <= all;
    hide Answers, ServeAll, Linearized, CommandsIn, Accepted, After, AllAnswered, Behind, InFlight;
    assert cmds <= Accepted(es);
    PrefixesAnswer(s.replies, all, cmds, Accepted(es), |Accepted(es)|);
  }

  /** Fewer replies to more commands are still answers. */
  lemma PrefixesAnswer(replies: seq<Reply>, all: seq<Reply>, cmds: seq<Command>, more: seq<Command>, accepted: nat)
    requires AllAnswered(all, cmds, accepted) && replies <= all && cmds <= more
    ensures AllAnswered(replies, more, accepted)
  {
    hide Answers;
    assert forall j :: 0 <= j < |replies| ==> replies[j] == all[j] && more[j] == cmds[j] && more[..j] == cmds[..j];
  }

  /** Each metrics reply of a schedule reports exactly the readings and the distinct meters
      sent before it. */
  lemma MetricsAreExact(es: seq<Event>, j: nat)
    requires j < |After(1, es).replies| && j < |Accepted(es)| && Accepted(es)[j].GetMetrics?
    ensures var reply, earlier := After(1, es).replies[j], Accepted(es)[..j];
            && reply.Metrics? && reply.totalReadings == ReadingsIn(earlier) && reply.activeMeters == |MetersIn(earlier)|
            && reply.workerCount == 4 && j + 1 + reply.queueDepth <= |Accepted(es)|
  {
    RepliesAnswerInOrder(es);
    hide Accepted, After, ReadingsIn, MetersIn;
  }
}
