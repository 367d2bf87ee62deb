/** The lock-free token bucket: a compare-and-swap retry loop run by any number of threads. */
module TokenBucket {

  // ---- The concurrent system ----

  /** A thread inside `try_consume`. `loads` counts its loads in this call and is read by
      nothing but the proofs. */
  datatype Thread =
    | Idle
    | Calling(count: nat, loads: nat)
    | Loaded(count: nat, current: int, loads: nat)
    | Done(count: nat, granted: bool, loads: nat)

  /** `granted` is the total of all granted counts so far. Tokens are an integer here, so
      that the absence of underflow is something to prove. */
  datatype State = State(tokens: int, maxTokens: nat, threads: seq<Thread>, granted: nat)

  /** One atomic action of one thread. */
  datatype Event = Invoke(t: nat, count: nat) | Load(t: nat) | CompareExchange(t: nat) | Return(t: nat)

  predicate Enabled(s: State, e: Event) {
    e.t < |s.threads|
    && match e
       case Invoke(t, _) => s.threads[t].Idle?
       case Load(t) => s.threads[t].Calling?
       case CompareExchange(t) => s.threads[t].Loaded?
       case Return(t) => s.threads[t].Done?
  }

  function Apply(s: State, e: Event): State
    requires Enabled(s, e)
  {
    match e
    case Invoke(t, count) => s.(threads := s.threads[t := Calling(count, 0)])
    case Load(t) =>
      var c := s.threads[t];
      s.(threads := s.threads[t := if s.tokens < c.count then Done(c.count, false, c.loads + 1)
                                   else Loaded(c.count, s.tokens, c.loads + 1)])
    case CompareExchange(t) =>
      var c := s.threads[t];
      if s.tokens == c.current
      then s.(tokens := c.current - c.count, granted := s.granted + c.count,
              threads := s.threads[t := Done(c.count, true, c.loads)])
      else s.(threads := s.threads[t := Calling(c.count, c.loads)])
    case Return(t) => s.(threads := s.threads[t := Idle])
  }

  function Step(s: State, e: Event): State {
    if Enabled(s, e) then Apply(s, e) else s
  }

  function RunFrom(s: State, es: seq<Event>): State {
    if es == [] then s else Step(RunFrom(s, es[..|es| - 1]), es[|es| - 1])
  }

  function Init(maxTokens: nat, threads: nat): State {
    State(maxTokens, maxTokens, seq(threads, _ => Idle), 0)
  }

  function After(maxTokens: nat, threads: nat, es: seq<Event>): State {
    RunFrom(Init(maxTokens, threads), es)
  }

  // ---- Invariants ----

  /** Nothing is lost, every loaded value is one the bucket still bounds from below, and
      each further load of a call has seen a strictly smaller value. */
  predicate ThreadKept(s: State, c: Thread) {
    match c
    case Calling(_, loads) => loads == 0 || loads + s.tokens <= s.maxTokens
    case Loaded(count, current, loads) =>
      && s.tokens <= current && count <= current && loads >= 1 && loads + current <= s.maxTokens + 1
    case Done(count, granted, loads) => (granted || s.tokens < count) && 1 <= loads <= s.maxTokens + 1
    case Idle => true
  }

  predicate Kept(s: State) {
    && s.tokens >= 0 && s.tokens + s.granted == s.maxTokens
    && forall t :: 0 <= t < |s.threads| ==> ThreadKept(s, s.threads[t])
  }

  lemma FewerTokensKeep(s: State, tokens: int, granted: nat, c: Thread)
    requires ThreadKept(s, c) && tokens <= s.tokens
    ensures ThreadKept(s.(tokens := tokens, granted := granted), c)
  {
  }

  lemma StepKeeps(s: State, e: Event)
    requires Kept(s)
    ensures var s' := Step(s, e); Kept(s') && s'.tokens <= s.tokens && s'.maxTokens == s.maxTokens && |s'.threads| == |s.threads|
  {
    var s' := Step(s, e);
    forall t | 0 <= t < |s'.threads| ensures ThreadKept(s', s'.threads[t]) {
      if s.threads[t] == s'.threads[t] {
        FewerTokensKeep(s, s'.tokens, s'.granted, s.threads[t]);
        assert ThreadKept(s', s.threads[t]);
      }
    }
  }

  lemma {:induction false} RunKeeps(s: State, es: seq<Event>)
    requires Kept(s)
    ensures var t := RunFrom(s, es); Kept(t) && t.tokens <= s.tokens && t.maxTokens == s.maxTokens && |t.threads| == |s.threads|
  {
    if es != [] {
      RunKeeps(s, es[..|es| - 1]);
      StepKeeps(RunFrom(s, es[..|es| - 1]), es[|es| - 1]);
      hide Kept, Step;
    }
  }

  lemma InitKept(maxTokens: nat, threads: nat)
    ensures Kept(Init(maxTokens, threads))
  {
  }

  /** Conservation: in every schedule of any number of threads the tokens left and all
      granted counts add up to the initial tokens. */
  lemma TokensAreConserved(maxTokens: nat, threads: nat, es: seq<Event>)
    ensures var s := After(maxTokens, threads, es); s.tokens >= 0 && s.tokens + s.granted == maxTokens
  {
    InitKept(maxTokens, threads);
    RunKeeps(Init(maxTokens, threads), es);
  }

  /** A refused request would be refused at every later time: what it asked for exceeds
      what is left, for ever. */
  lemma RefusalIsFinal(maxTokens: nat, threads: nat, es: seq<Event>, t: nat, later: seq<Event>)
    requires var s := After(maxTokens, threads, es);
             t < |s.threads| && s.threads[t].Done? && !s.threads[t].granted
    ensures RunFrom(After(maxTokens, threads, es), later).tokens < After(maxTokens, threads, es).threads[t].count
  {
    InitKept(maxTokens, threads);
    RunKeeps(Init(maxTokens, threads), es);
    var s := After(maxTokens, threads, es);
    RunKeeps(s, later);
    assert ThreadKept(s, s.threads[t]);
    hide RunFrom;
  }

  /** One call loads at most maxTokens + 1 times, whatever the other threads do. */
  lemma RetriesAreBounded(maxTokens: nat, threads: nat, es: seq<Event>, t: nat)
    requires t < threads
    ensures var s := After(maxTokens, threads, es);
            && |s.threads| == threads
            && match s.threads[t]
               case Idle => true
               case Calling(_, loads) => loads <= maxTokens
               case Loaded(count, _, loads) => loads + count <= maxTokens + 1
               case Done(_, _, loads) => loads <= maxTokens + 1
  {
    InitKept(maxTokens, threads);
    RunKeeps(Init(maxTokens, threads), es);
    var s := After(maxTokens, threads, es);
    assert ThreadKept(s, s.threads[t]);
    hide RunFrom;
  }

  /** No new call of thread t begins. */
  predicate SameCall(es: seq<Event>, t: nat) {
    forall e <- es :: e.Invoke? ==> e.t != t
  }

  /** What a thread has seen since it loaded `first` as its load number `loads0`: every further
      load costs at least one token, and so does every failed exchange. */
  predicate DroppedSince(s: State, c: Thread, first: int, loads0: nat) {
    match c
    case Loaded(_, current, loads) => loads >= loads0 && current + (loads - loads0) <= first
    case Calling(_, loads) => loads >= loads0 && s.tokens + (loads - loads0) < first
    case _ => true
  }

  lemma StepDrops(s: State, e: Event, t: nat, first: int, loads0: nat)
    requires Kept(s) && t < |s.threads| && DroppedSince(s, s.threads[t], first, loads0)
    requires e.Invoke? ==> e.t != t
    ensures t < |Step(s, e).threads| && DroppedSince(Step(s, e), Step(s, e).threads[t], first, loads0)
  {
    assert ThreadKept(s, s.threads[t]);
    if Enabled(s, e) {
      assert ThreadKept(s, s.threads[e.t]);
    }
  }

  lemma {:induction false} RunDrops(s: State, es: seq<Event>, t: nat, first: int, loads0: nat)
    requires Kept(s) && t < |s.threads| && DroppedSince(s, s.threads[t], first, loads0) && SameCall(es, t)
    ensures var u := RunFrom(s, es); t < |u.threads| && DroppedSince(u, u.threads[t], first, loads0)
  {
    if es != [] {
      var n := |es| - 1;
      RunDrops(s, es[..n], t, first, loads0);
      RunKeeps(s, es[..n]);
      StepDrops(RunFrom(s, es[..n]), es[n], t, first, loads0);
      hide DroppedSince, Step, Kept;
    }
  }

  /** In one call every load sees fewer tokens than the one before it. */
  lemma LoadsStrictlyDrop(maxTokens: nat, threads: nat, es: seq<Event>, later: seq<Event>, t: nat)
    requires t < threads && SameCall(later, t)
    ensures var s, u := After(maxTokens, threads, es), RunFrom(After(maxTokens, threads, es), later);
            && |s.threads| == |u.threads| == threads
            && (s.threads[t].Loaded? && u.threads[t].Loaded? ==>
                  && u.threads[t].loads >= s.threads[t].loads
                  && u.threads[t].current + (u.threads[t].loads - s.threads[t].loads) <= s.threads[t].current)
  {
    InitKept(maxTokens, threads);
    RunKeeps(Init(maxTokens, threads), es);
    var s := After(maxTokens, threads, es);
    RunKeeps(s, later);
    if s.threads[t].Loaded? {
      RunDrops(s, later, t, s.threads[t].current, s.threads[t].loads);
    }
    hide RunFrom, Kept;
  }

  /** The bound is reached: thread 1 takes one token between every load and exchange of thread 0. */
  function Starve(rounds: nat): seq<Event> {
    if rounds == 0 then [Invoke(0, 1), Load(0)]
    else Starve(rounds - 1) + [Invoke(1, 1), Load(1), CompareExchange(1), Return(1), CompareExchange(0), Load(0)]
  }

  lemma {:induction false} RunConcat(s: State, a: seq<Event>, b: seq<Event>)
    ensures RunFrom(s, a + b) == RunFrom(RunFrom(s, a), b)
  {
    if b == [] {
      assert a + b == a;
    } else {
      var n := |b| - 1;
      assert (a + b)[..|a| + n] == a + b[..n];
      RunConcat(s, a, b[..n]);
      hide Step;
    }
  }

  lemma RunOne(s: State, e: Event)
    ensures RunFrom(s, [e]) == Step(s, e)
  {
    assert [e][..0] == [];
  }

  lemma RunSix(s: State, a: Event, b: Event, c: Event, d: Event, e: Event, f: Event)
    ensures RunFrom(s, [a, b, c, d, e, f]) == Step(Step(Step(Step(Step(Step(s, a), b), c), d), e), f)
  {
    hide Step;
    RunConcat(s, [a, b, c], [d, e, f]);
    RunThree(s, a, b, c);
    RunThree(RunFrom(s, [a, b, c]), d, e, f);
    assert [a, b, c] + [d, e, f] == [a, b, c, d, e, f];
  }

  lemma RunThree(s: State, a: Event, b: Event, c: Event)
    ensures RunFrom(s, [a, b, c]) == Step(Step(Step(s, a), b), c)
  {
    hide Step;
    assert [a, b, c][..2] == [a, b] && [a, b][..1] == [a];
    RunOne(s, a);
  }

  lemma StarvedRound(maxTokens: nat, tokens: nat, loads: nat)
    requires 0 < tokens <= maxTokens
    ensures var s := State(tokens, maxTokens, [Loaded(1, tokens, loads), Idle], maxTokens - tokens);
            var round := [Invoke(1, 1), Load(1), CompareExchange(1), Return(1), CompareExchange(0), Load(0)];
            RunFrom(s, round)
            == State(tokens - 1, maxTokens,
                     [if tokens > 1 then Loaded(1, tokens - 1, loads + 1) else Done(1, false, loads + 1), Idle],
                     maxTokens - tokens + 1)
  {
    var s := State(tokens, maxTokens, [Loaded(1, tokens, loads), Idle], maxTokens - tokens);
    var s1 := s.(threads := [Loaded(1, tokens, loads), Calling(1, 0)]);
    var s2 := s.(threads := [Loaded(1, tokens, loads), Loaded(1, tokens, 1)]);
    var s3 := State(tokens - 1, maxTokens, [Loaded(1, tokens, loads), Done(1, true, 1)], maxTokens - tokens + 1);
    var s4 := s3.(threads := [Loaded(1, tokens, loads), Idle]);
    var s5 := s3.(threads := [Calling(1, loads), Idle]);
    assert Step(s, Invoke(1, 1)) == s1;
    assert Step(s1, Load(1)) == s2;
    assert Step(s2, CompareExchange(1)) == s3;
    assert Step(s3, Return(1)) == s4;
    assert Step(s4, CompareExchange(0)) == s5;
    assert Step(s5, Load(0)).threads[1] == Idle;
    RunSix(s, Invoke(1, 1), Load(1), CompareExchange(1), Return(1), CompareExchange(0), Load(0));
    hide RunFrom;
  }

  lemma {:induction false} RetryBoundIsTight(maxTokens: nat, rounds: nat)
    requires rounds <= maxTokens
    ensures var left := maxTokens - rounds;
            After(maxTokens, 2, Starve(rounds))
            == State(left, maxTokens,
                     [if left > 0 then Loaded(1, left, rounds + 1) else Done(1, false, rounds + 1), Idle], rounds)
  {
    var s := Init(maxTokens, 2);
    if rounds == 0 {
      assert s.threads == [Idle, Idle];
      RunConcat(s, [Invoke(0, 1)], [Load(0)]);
      RunOne(s, Invoke(0, 1));
      RunOne(Step(s, Invoke(0, 1)), Load(0));
      assert [Invoke(0, 1)] + [Load(0)] == [Invoke(0, 1), Load(0)];
      hide RunFrom;
    } else {
      RetryBoundIsTight(maxTokens, rounds - 1);
      StarvedRound(maxTokens, maxTokens - rounds + 1, rounds);
      RunConcat(s, Starve(rounds - 1),
                [Invoke(1, 1), Load(1), CompareExchange(1), Return(1), CompareExchange(0), Load(0)]);
      hide RunFrom, Step;
    }
  }

  // ---- Linearizability ----

  /** A thread of the atomic bucket: its whole call takes effect in one action. */
  datatype AtomicThread = Free | Pending(count: nat) | Decided(count: nat, granted: bool)

  datatype Atomic = Atomic(tokens: int, threads: seq<AtomicThread>)

  /** `Begin` and `End` are the visible ends of a call, `Take` its single point of effect. */
  datatype AtomicEvent = Begin(t: nat, count: nat) | Take(t: nat) | End(t: nat)

  function AtomicStep(a: Atomic, e: AtomicEvent): Atomic {
    if e.t >= |a.threads| then a
    else
      match (e, a.threads[e.t])
      case (Begin(t, count), Free) => a.(threads := a.threads[t := Pending(count)])
      case (Take(t), Pending(count)) =>
        if a.tokens < count then a.(threads := a.threads[t := Decided(count, false)])
        else Atomic(a.tokens - count, a.threads[t := Decided(count, true)])
      case (End(t), Decided(_, _)) => a.(threads := a.threads[t := Free])
      case _ => a
  }

  function AtomicRun(a: Atomic, es: seq<AtomicEvent>): Atomic {
    if es == [] then a else AtomicStep(AtomicRun(a, es[..|es| - 1]), es[|es| - 1])
  }

  function AbsThread(c: Thread): AtomicThread {
    match c
    case Idle => Free
    case Calling(count, _) => Pending(count)
    case Loaded(count, _, _) => Pending(count)
    case Done(count, granted, _) => Decided(count, granted)
  }

  function Abs(s: State): Atomic {
    Atomic(s.tokens, seq(|s.threads|, i requires 0 <= i < |s.threads| => AbsThread(s.threads[i])))
  }

  /** The atomic action a step performs: a call takes effect at the load that refuses it
      or at the exchange that succeeds; other loads and exchanges are invisible. */
  function Image(s: State, e: Event): seq<AtomicEvent> {
    if !Enabled(s, e) then []
    else
      match e
      case Invoke(t, count) => [Begin(t, count)]
      case Load(t) => if s.tokens < s.threads[t].count then [Take(t)] else []
      case CompareExchange(t) => if s.tokens == s.threads[t].current then [Take(t)] else []
      case Return(t) => [End(t)]
  }

  function Images(s: State, es: seq<Event>): seq<AtomicEvent> {
    if es == [] then [] else Images(s, es[..|es| - 1]) + Image(RunFrom(s, es[..|es| - 1]), es[|es| - 1])
  }

  lemma StepIsAtomic(s: State, e: Event)
    requires Kept(s)
    ensures Abs(Step(s, e)) == if Image(s, e) == [] then Abs(s) else AtomicStep(Abs(s), Image(s, e)[0])
  {
    if Enabled(s, e) {
      assert ThreadKept(s, s.threads[e.t]);
      var a, b := Abs(s), Abs(Step(s, e));
      assert forall i :: 0 <= i < |s.threads| && i != e.t ==> b.threads[i] == a.threads[i];
    }
  }

  /** Linearizability: every schedule of any number of threads is, step by step, a run of the
      bucket whose calls each take effect in one action between their Begin and their End,
      with the same tokens and the same answers. */
  lemma {:induction false} ScheduleIsLinearizable(maxTokens: nat, threads: nat, es: seq<Event>)
    ensures var s0 := Init(maxTokens, threads);
            Abs(RunFrom(s0, es)) == AtomicRun(Abs(s0), Images(s0, es))
  {
    var s0 := Init(maxTokens, threads);
    if es != [] {
      var before, e := es[..|es| - 1], es[|es| - 1];
      var s := RunFrom(s0, before);
      ScheduleIsLinearizable(maxTokens, threads, before);
      InitKept(maxTokens, threads);
      RunKeeps(s0, before);
      StepIsAtomic(s, e);
      var images, image := Images(s0, before), Image(s, e);
      assert |image| <= 1;
      if image == [] {
        assert images + image == images;
      } else {
        assert (images + image)[..|images|] == images;
      }
      hide Step, AtomicStep, Abs, Image, Kept, Init;
    }
  }

  // ---- The loop itself, against interference ----

  class TokenBucket {
    var tokens: nat
    const maxTokens: nat
    const refillRate: nat

    constructor (maxTokens: nat, refillRate: nat)
      ensures tokens == maxTokens && this.maxTokens == maxTokens && this.refillRate == refillRate
    {
      tokens, this.maxTokens, this.refillRate := maxTokens, maxTokens, refillRate;
    }

    /** `others(k)` is how many tokens the other threads take between the k-th load of this
        call and its exchange. The loop always ends: every retry has seen fewer tokens. */
    method TryConsume(count: nat, others: nat -> nat) returns (granted: bool, loads: nat, stolen: nat)
      modifies this`tokens
      ensures old(tokens) == tokens + stolen + if granted then count else 0
      ensures !granted ==> tokens < count
      ensures 1 <= loads <= old(tokens) + 1
      ensures (forall k :: others(k) == 0) ==> loads == 1 && stolen == 0 && (granted <==> count <= old(tokens))
    {
      loads, stolen := 0, 0;
      while true
        invariant tokens + stolen == old(tokens)
        invariant loads + tokens <= old(tokens)
        invariant (forall k :: others(k) == 0) ==> loads == 0 && stolen == 0
        decreases tokens
      {
        var current := tokens;
        loads := loads + 1;
        if current < count {
          return false, loads, stolen;
        }
        var taken := if others(loads) <= tokens then others(loads) else tokens;
        tokens, stolen := tokens - taken, stolen + taken;
        if tokens == current {
          tokens := current - count;
          return true, loads, stolen;
        }
      }
    }
  }
}
