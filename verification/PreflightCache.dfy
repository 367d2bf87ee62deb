/** The preflight cache, shared by calls that overlap. */
module PreflightCache {
  import opened Common
  import opened Preflight

  datatype Request = Request(contract: Bytes, operation: Bytes)

  datatype CacheKey = CacheKey(contract: Bytes, digest: Bytes)

  type Hash = Bytes -> Bytes

  function KeyOf(hash: Hash, q: Request): CacheKey {
    CacheKey(q.contract, hash(q.contract + q.operation))
  }

  /** No collision between two operations on one contract. */
  ghost predicate Separates(hash: Hash) {
    forall c, o, p :: hash(c + o) == hash(c + p) ==> o == p
  }

  ghost predicate CollisionFree(hash: Hash) {
    forall x, y :: hash(x) == hash(y) ==> x == y
  }

  /** Equal keys mean equal requests precisely when no two operations of a contract collide:
      the contract itself is part of the key. */
  lemma KeysIdentifyRequestsIff(hash: Hash)
    ensures (forall q, r :: KeyOf(hash, q) == KeyOf(hash, r) ==> q == r) <==> Separates(hash)
    ensures CollisionFree(hash) ==> Separates(hash)
  {
    if forall q, r :: KeyOf(hash, q) == KeyOf(hash, r) ==> q == r {
      forall c, o, p | hash(c + o) == hash(c + p) ensures o == p {
        assert KeyOf(hash, Request(c, o)) == KeyOf(hash, Request(c, p));
      }
    }
    if CollisionFree(hash) {
      forall c, o, p | hash(c + o) == hash(c + p) ensures o == p {
        assert o == (c + o)[|c|..] == (c + p)[|c|..] == p;
      }
    }
  }

  // ---- Overlapping calls ----

  /** A successful reply, with the call's own margin: padded from its own simulation, or
      from the cache. */
  datatype Reply =
    | Simulated(request: Request, margin: real, simulated: PreflightResult, result: PreflightResult)
    | FromCache(request: Request, margin: real, result: PreflightResult)

  datatype State = State(cache: map<CacheKey, PreflightResult>, pending: multiset<Request>, log: seq<Reply>)

  /** A call looks its key up; one that misses simulates and finishes at some later time, by
      which others may have filled the entry; entries may be evicted whenever. */
  datatype Event =
    | LookUp(request: Request, margin: real)
    | Finish(request: Request, config: Config, simulator: Simulator)
    | Evict(keys: set<CacheKey>)

  const Empty := State(map[], multiset{}, [])

  /** A simulation is cached with its fee padded, and answered with all of it padded. */
  function Finished(hash: Hash, s: State, q: Request, margin: real, r: PreflightResult): State {
    var stored := WithPaddedFee(r, margin);
    s.(cache := s.cache[KeyOf(hash, q) := stored],
       log := s.log + [Simulated(q, margin, r, ApplySafetyMargin(stored, margin))])
  }

  function Step(hash: Hash, s: State, e: Event): State {
    match e
    case LookUp(q, margin) =>
      if KeyOf(hash, q) in s.cache
      then s.(log := s.log + [FromCache(q, margin, ApplySafetyMargin(s.cache[KeyOf(hash, q)], margin))])
      else s.(pending := s.pending + multiset{q})
    case Finish(q, c, sim) =>
      if q !in s.pending then s
      else
        var left := s.pending - multiset{q};
        (match Simulate(c, sim)
         case Err(_) => s.(pending := left)
         case Ok(r) => Finished(hash, s.(pending := left), q, c.safetyMargin, r))
    case Evict(keys) => s.(cache := s.cache - keys)
  }

  function Run(hash: Hash, events: seq<Event>): State {
    if events == [] then Empty else Step(hash, Run(hash, events[..|events| - 1]), events[|events| - 1])
  }

  /** Reply j is the latest of the first n to have filled the key. */
  ghost predicate LastFill(hash: Hash, log: seq<Reply>, n: nat, key: CacheKey, j: nat) {
    && j < n <= |log|
    && log[j].Simulated? && KeyOf(hash, log[j].request) == key
    && forall k :: j < k < n ==> log[k].FromCache? || KeyOf(hash, log[k].request) != key
  }

  /** A cached result is what the latest fill of its key stored. */
  ghost predicate StoredBy(hash: Hash, log: seq<Reply>, n: nat, key: CacheKey, stored: PreflightResult, j: nat) {
    LastFill(hash, log, n, key, j) && stored == WithPaddedFee(log[j].simulated, log[j].margin)
  }

  ghost predicate Attributed(hash: Hash, log: seq<Reply>, key: CacheKey, stored: PreflightResult) {
    exists j: nat :: StoredBy(hash, log, |log|, key, stored, j)
  }

  /** A reply pads what the latest fill of its key stored, or its own simulation. */
  ghost predicate Explained(hash: Hash, log: seq<Reply>, i: nat)
    requires i < |log|
  {
    match log[i]
    case FromCache(q, margin, result) =>
      exists j: nat :: LastFill(hash, log, i, KeyOf(hash, q), j) && result == Answer(log[j].simulated, log[j].margin, margin)
    case Simulated(_, margin, r, result) => result == Answer(r, margin, margin)
  }

  ghost predicate Invariant(hash: Hash, s: State) {
    && (forall key <- s.cache :: Attributed(hash, s.log, key, s.cache[key]))
    && (forall i: nat :: i < |s.log| ==> Explained(hash, s.log, i))
  }

  lemma FillSurvives(hash: Hash, log: seq<Reply>, e: Reply, n: nat, key: CacheKey, j: nat)
    requires n <= |log| && LastFill(hash, log, n, key, j)
    ensures LastFill(hash, log + [e], n, key, j) && (log + [e])[j] == log[j]
    ensures n == |log| && (e.FromCache? || KeyOf(hash, e.request) != key) ==> LastFill(hash, log + [e], n + 1, key, j)
  {
  }

  lemma ExplainedSurvives(hash: Hash, log: seq<Reply>, e: Reply, i: nat)
    requires i < |log| && Explained(hash, log, i)
    ensures Explained(hash, log + [e], i)
  {
    assert (log + [e])[i] == log[i];
    if log[i].FromCache? {
      var key := KeyOf(hash, log[i].request);
      var j: nat :| LastFill(hash, log, i, key, j) && log[i].result == Answer(log[j].simulated, log[j].margin, log[i].margin);
      FillSurvives(hash, log, e, i, key, j);
      hide LastFill, KeyOf, Answer;
    }
  }

  /** What is cached stays attributed to its filler when a reply that does not touch it is logged. */
  lemma OthersStay(hash: Hash, log: seq<Reply>, e: Reply, key: CacheKey, stored: PreflightResult)
    requires Attributed(hash, log, key, stored) && (e.FromCache? || KeyOf(hash, e.request) != key)
    ensures Attributed(hash, log + [e], key, stored)
  {
    var j: nat :| StoredBy(hash, log, |log|, key, stored, j);
    FillSurvives(hash, log, e, |log|, key, j);
    hide LastFill, WithPaddedFee;
    assert StoredBy(hash, log + [e], |log + [e]|, key, stored, j);
  }

  lemma HitIsExplained(hash: Hash, log: seq<Reply>, e: Reply, stored: PreflightResult)
    requires e.FromCache? && Attributed(hash, log, KeyOf(hash, e.request), stored)
    requires e.result == ApplySafetyMargin(stored, e.margin)
    ensures Explained(hash, log + [e], |log|)
  {
    var key := KeyOf(hash, e.request);
    var j: nat :| StoredBy(hash, log, |log|, key, stored, j);
    FillSurvives(hash, log, e, |log|, key, j);
    assert (log + [e])[|log|] == e;
    assert e.result == Answer(log[j].simulated, log[j].margin, e.margin);
    hide LastFill, KeyOf, ApplySafetyMargin, Answer;
  }

  /** Logging an explained reply keeps the whole log explained. */
  lemma LogStaysExplained(hash: Hash, log: seq<Reply>, e: Reply)
    requires forall i: nat :: i < |log| ==> Explained(hash, log, i)
    requires Explained(hash, log + [e], |log|)
    ensures forall i: nat :: i < |log + [e]| ==> Explained(hash, log + [e], i)
  {
    hide Explained;
    forall i: nat | i < |log| ensures Explained(hash, log + [e], i) {
      ExplainedSurvives(hash, log, e, i);
    }
  }

  lemma HitKeeps(hash: Hash, s: State, q: Request, margin: real)
    requires Invariant(hash, s) && KeyOf(hash, q) in s.cache
    ensures Invariant(hash, Step(hash, s, LookUp(q, margin)))
  {
    var stored := s.cache[KeyOf(hash, q)];
    var e := FromCache(q, margin, ApplySafetyMargin(stored, margin));
    var t := Step(hash, s, LookUp(q, margin));
    assert t == s.(log := s.log + [e]);
    hide Attributed, Explained, ApplySafetyMargin, KeyOf, Step;
    HitIsExplained(hash, s.log, e, stored);
    LogStaysExplained(hash, s.log, e);
    forall k <- t.cache ensures Attributed(hash, t.log, k, t.cache[k]) {
      OthersStay(hash, s.log, e, k, s.cache[k]);
    }
  }

  lemma FillKeeps(hash: Hash, s: State, q: Request, margin: real, r: PreflightResult)
    requires Invariant(hash, s)
    ensures Invariant(hash, Finished(hash, s, q, margin, r))
  {
    var stored, key := WithPaddedFee(r, margin), KeyOf(hash, q);
    var e := Simulated(q, margin, r, ApplySafetyMargin(stored, margin));
    var t := Finished(hash, s, q, margin, r);
    assert t.cache == s.cache[key := stored] && t.log == s.log + [e];
    assert StoredBy(hash, t.log, |t.log|, key, stored, |s.log|);
    assert Explained(hash, t.log, |s.log|);
    assert Attributed(hash, t.log, key, stored);
    hide Attributed, Explained, StoredBy, ApplySafetyMargin, WithPaddedFee, KeyOf, Finished;
    LogStaysExplained(hash, s.log, e);
    forall k <- t.cache ensures Attributed(hash, t.log, k, t.cache[k]) {
      if k != key {
        OthersStay(hash, s.log, e, k, s.cache[k]);
      }
    }
  }

  lemma StepKeeps(hash: Hash, s: State, e: Event)
    requires Invariant(hash, s)
    ensures Invariant(hash, Step(hash, s, e))
  {
    hide Explained, Attributed, Simulate, Finished;
    match e
    case LookUp(q, margin) =>
      if KeyOf(hash, q) in s.cache { HitKeeps(hash, s, q, margin); }
    case Finish(q, c, sim) =>
      if q in s.pending && Simulate(c, sim).Ok? {
        FillKeeps(hash, s.(pending := s.pending - multiset{q}), q, c.safetyMargin, Simulate(c, sim).value);
      }
    case Evict(keys) =>
  }

  lemma {:induction false} RunsKeep(hash: Hash, events: seq<Event>)
    ensures Invariant(hash, Run(hash, events))
  {
    if events != [] {
      RunsKeep(hash, events[..|events| - 1]);
      StepKeeps(hash, Run(hash, events[..|events| - 1]), events[|events| - 1]);
      hide Invariant, Step;
    }
  }

  /** A hit pads what the latest call to simulate this very request stored: that call's last
      simulation, its fee already padded by that call's margin. */
  ghost predicate Transparent(log: seq<Reply>, i: nat)
    requires i < |log|
  {
    exists j: nat :: LatestFor(log, i, j) && log[i].result == Answer(log[j].simulated, log[j].margin, log[i].margin)
  }

  /** Among the replies before the i-th, the j-th is the latest simulated for the same request. */
  ghost predicate LatestFor(log: seq<Reply>, i: nat, j: nat) {
    && j < i < |log|
    && log[j].Simulated? && log[j].request == log[i].request
    && forall k :: j < k < i ==> log[k].FromCache? || log[k].request != log[i].request
  }

  lemma ExplainedIsTransparent(hash: Hash, log: seq<Reply>, i: nat)
    requires Separates(hash) && i < |log| && log[i].FromCache? && Explained(hash, log, i)
    ensures Transparent(log, i)
  {
    KeysIdentifyRequestsIff(hash);
    var j: nat :| LastFill(hash, log, i, KeyOf(hash, log[i].request), j)
                  && log[i].result == Answer(log[j].simulated, log[j].margin, log[i].margin);
    hide Answer;
    assert LatestFor(log, i, j) by { hide KeyOf; }
  }

  ghost predicate AllTransparent(hash: Hash, events: seq<Event>) {
    var log := Run(hash, events).log;
    forall i: nat :: i < |log| && log[i].FromCache? ==> Transparent(log, i)
  }

  /** The cache is transparent over every interleaving and every eviction exactly when the hash
      keeps the operations of each contract apart. */
  lemma CacheIsTransparentIff(hash: Hash)
    ensures (forall events :: AllTransparent(hash, events)) <==> Separates(hash)
  {
    if Separates(hash) {
      forall events ensures AllTransparent(hash, events) {
        RunsKeep(hash, events);
        var log := Run(hash, events).log;
        forall i: nat | i < |log| && log[i].FromCache? ensures Transparent(log, i) {
          ExplainedIsTransparent(hash, log, i);
        }
      }
    } else {
      var c, o, p :| hash(c + o) == hash(c + p) && o != p;
      var events := Collision(hash, Request(c, o), Request(c, p));
    }
  }

  /** A hit repeats the very reply of the latest call that simulated its request when both
      margins round to the same percentage, and is what a call simulating the same figures now
      would reply when its margin pads the fee as that call's did. RepeatsIff and FreshIff in
      Preflight say that these conditions are exact. */
  lemma HitRepeatsItsMiss(hash: Hash, events: seq<Event>, i: nat)
    requires Separates(hash) && i < |Run(hash, events).log| && Run(hash, events).log[i].FromCache?
    ensures var log := Run(hash, events).log;
            exists j: nat :: LatestFor(log, i, j)
              && (Numerator(log[j].margin) == Numerator(log[i].margin) ==> log[i].result == log[j].result)
              && (PadsFeeAlike(log[j].margin, log[i].margin)
                  ==> log[i].result == Answer(log[j].simulated, log[i].margin, log[i].margin))
  {
    var log := Run(hash, events).log;
    RunsKeep(hash, events);
    ExplainedIsTransparent(hash, log, i);
    var j: nat :| LatestFor(log, i, j) && log[i].result == Answer(log[j].simulated, log[j].margin, log[i].margin);
    assert Explained(hash, log, j);
    RepeatsIff(log[j].margin, log[i].margin);
    FreshIff(log[j].margin, log[i].margin);
    hide Answer, Run, Numerator, PadsFeeAlike;
  }

  /** One call of a run simulates r under margin m; the next one for its key, under n, is a hit. */
  lemma FillThenHit(hash: Hash, q: Request, q': Request, m: real, n: real, r: PreflightResult) returns (events: seq<Event>)
    requires KeyOf(hash, q) == KeyOf(hash, q')
    ensures Run(hash, events).log == [Simulated(q, m, r, Answer(r, m, m)), FromCache(q', n, Answer(r, m, n))]
  {
    var c := Config(m, 1, 0.1, 0.5);
    var sim: Simulator := (k, leeway) => Ok(r);
    events := [LookUp(q, m), Finish(q, c, sim), LookUp(q', n)];
    assert Rounds(c, sim, 0) == Running(INITIAL_LEEWAY, None);
    assert Simulate(c, sim) == Ok(r);
    RunThree(hash, events[0], events[1], events[2]);
    hide Simulate, Rounds, KeyOf, ApplySafetyMargin, WithPaddedFee, Run;
    var stored := WithPaddedFee(r, m);
    var s1 := State(map[], multiset{q}, []);
    var s2 := State(map[KeyOf(hash, q) := stored], multiset{}, [Simulated(q, m, r, ApplySafetyMargin(stored, m))]);
    assert Step(hash, Empty, events[0]) == s1;
    assert Step(hash, s1, events[1]) == s2;
    assert Step(hash, s2, events[2]).log == s2.log + [FromCache(q', n, ApplySafetyMargin(stored, n))];
  }

  lemma RunThree(hash: Hash, a: Event, b: Event, c: Event)
    ensures Run(hash, [a, b, c]) == Step(hash, Step(hash, Step(hash, Empty, a), b), c)
  {
    hide Step;
    assert [a, b, c][..2] == [a, b] && [a, b][..1] == [a] && [a][..0] == [];
    assert Run(hash, [a]) == Step(hash, Empty, a);
    assert Run(hash, [a, b]) == Step(hash, Run(hash, [a]), b);
  }

  const FREE := PreflightResult(0, 0, 0, 0, 0)

  /** Two requests under one key: the second is answered from the first one's simulation. */
  lemma Collision(hash: Hash, q: Request, q': Request) returns (events: seq<Event>)
    requires KeyOf(hash, q) == KeyOf(hash, q') && q != q'
    ensures !AllTransparent(hash, events)
  {
    events := FillThenHit(hash, q, q', 0.1, 0.1, FREE);
    hide Run, Answer, KeyOf;
    assert !Transparent(Run(hash, events).log, 1);
  }

  const FEE_OF_100 := PreflightResult(0, 0, 0, 0, 100)

  /** Another margin: a fee of 100 filled at 50% and asked for at 10% is answered as 165,
      where a call simulating it at 10% answers 121. */
  lemma HitKeepsTheOldMargin(hash: Hash, q: Request) returns (events: seq<Event>)
    ensures var log := Run(hash, events).log;
            && |log| == 2 && log[1].FromCache? && log[1].margin == 0.1 && LatestFor(log, 1, 0)
            && log[0].simulated == FEE_OF_100 && log[1].result.recommendedFee == 165
            && Answer(FEE_OF_100, 0.1, 0.1).recommendedFee == 121
  {
    events := FillThenHit(hash, q, q, 0.5, 0.1, FEE_OF_100);
    assert CeilNat(Part(1.5, 100)) == 150 && CeilNat(Part(1.1, 100)) == 110;
    assert Numerator(0.1) == 110;
    hide Run;
  }

  // ---- One call at a time ----

  class PreflightService {
    var cache: map<CacheKey, PreflightResult>

    constructor ()
      ensures cache == Empty.cache
    {
      cache := map[];
    }

    /** A call that nothing overlaps: its look-up, and after a miss its simulations. */
    method RunPreflight(q: Request, c: Config, hash: Hash, sim: Simulator) returns (reply: Result<PreflightResult>)
      modifies this
      ensures var key := CacheKey(q.contract, hash(q.contract + q.operation));
              if key in old(cache) then
                cache == old(cache) && reply == Ok(ApplySafetyMargin(old(cache)[key], c.safetyMargin))
              else
                match Fill(c, sim)
                case Err(e) => cache == old(cache) && reply == Err(e)
                case Ok(r) => cache == old(cache)[key := r] && reply == Ok(ApplySafetyMargin(r, c.safetyMargin))
      // The call is the two steps of the shared system, the second of which a hit skips.
      ensures var t := Step(hash, Step(hash, State(old(cache), multiset{}, []), LookUp(q, c.safetyMargin)), Finish(q, c, sim));
              && cache == t.cache && t.pending == multiset{}
              && t.log == if reply.Err? then []
                          else if KeyOf(hash, q) in old(cache) then [FromCache(q, c.safetyMargin, reply.value)]
                          else [Simulated(q, c.safetyMargin, Simulate(c, sim).value, reply.value)]
    {
      var key := KeyOf(hash, q);
      if key in cache {
        return Ok(ApplySafetyMargin(cache[key], c.safetyMargin));
      }
      var best: Option<PreflightResult> := None;
      var leeway := INITIAL_LEEWAY;
      for round := 0 to c.maxIterations
        invariant cache == old(cache)
        invariant Rounds(c, sim, round) == Running(leeway, best)
      {
        var outcome := sim(round, leeway);
        assert Rounds(c, sim, round + 1) == (match outcome case Err(e) => Failed(e)
                                             case Ok(r) => Running(NextLeeway(c, round, leeway, r.instructions), Some(r)));
        if outcome.Err? {
          StaysFailed(c, sim, round + 1, c.maxIterations);
          return Err(outcome.error);
        }
        var headroom := Headroom(leeway, outcome.value.instructions);
        if headroom < c.minLeeway {
          leeway := CeilNat(Part(c.maxLeeway, outcome.value.instructions));
        } else if headroom > c.maxLeeway && round > 0 {
          leeway := CeilNat(Part(c.minLeeway, outcome.value.instructions));
        }
        best := Some(outcome.value);
      }
      if best.None? {
        return Err(NO_RESULT);
      }
      var final := best.value.(recommendedFee := CeilNat(Part(1.0 + c.safetyMargin, best.value.recommendedFee)));
      cache := cache[key := final];
      reply := Ok(ApplySafetyMargin(final, c.safetyMargin));
    }

    method Clear()
      modifies this
      ensures cache == Empty.cache
    {
      cache := map[];
    }
  }

  lemma {:induction false} StaysFailed(c: Config, sim: Simulator, k: nat, n: nat)
    requires k <= n && Rounds(c, sim, k).Failed?
    ensures Rounds(c, sim, n) == Rounds(c, sim, k)
  {
    if k < n {
      StaysFailed(c, sim, k, n - 1);
    }
  }
}
