/** Cached preflight: leeway tuning, safety margins and the result cache. */
module Preflight {
  import opened Common
  import opened Products

  datatype PreflightResult = PreflightResult(footprint: nat, instructions: nat, readBytes: nat,
                                             writeBytes: nat, recommendedFee: nat)

  datatype Config = Config(safetyMargin: real, maxIterations: nat, minLeeway: real, maxLeeway: real)

  /** One call's simulations, by round and leeway: nothing is assumed of the network. */
  type Simulator = (nat, nat) -> Result<PreflightResult>

  const INITIAL_LEEWAY: nat := 1_000_000
  const NO_RESULT := "preflight returned no result"

  /** `x.ceil() as u64`: negative values saturate to zero. */
  function CeilNat(x: real): nat {
    if x <= 0.0 then 0 else -(-x).Floor
  }

  /** `x.round() as u64`: halves away from zero, negative values saturate. */
  function RoundNat(x: real): nat {
    if x <= 0.0 then 0 else (x + 0.5).Floor
  }

  lemma CeilIsLeast(x: real, t: nat)
    ensures CeilNat(x) <= t <==> x <= t as real
  {
    if x > 0.0 {
      assert (-x).Floor as real <= -x < (-x).Floor as real + 1.0;
    }
  }

  lemma CeilBounds(x: real)
    ensures x <= CeilNat(x) as real
    ensures x >= 0.0 ==> (CeilNat(x) as real) < x + 1.0
    ensures x <= 0.0 ==> CeilNat(x) == 0
  {
    CeilIsLeast(x, CeilNat(x));
    if CeilNat(x) > 0 {
      CeilIsLeast(x, CeilNat(x) - 1);
    }
  }

  // ---- Leeway tuning ----

  /** A fraction of an instruction count. */
  function Part(fraction: real, instructions: nat): real {
    fraction * instructions as real
  }

  function AtLeastOne(n: nat): nat {
    if n == 0 then 1 else n
  }

  function Headroom(leeway: nat, instructions: nat): real {
    leeway as real / AtLeastOne(instructions) as real
  }

  function NextLeeway(c: Config, round: nat, leeway: nat, instructions: nat): nat {
    if Headroom(leeway, instructions) < c.minLeeway then CeilNat(Part(c.maxLeeway, instructions))
    else if Headroom(leeway, instructions) > c.maxLeeway && round > 0 then CeilNat(Part(c.minLeeway, instructions))
    else leeway
  }

  datatype Progress = Failed(error: string) | Running(leeway: nat, best: Option<PreflightResult>)

  /** Where the tuning loop stands after k rounds. */
  function Rounds(c: Config, sim: Simulator, k: nat): Progress {
    if k == 0 then Running(INITIAL_LEEWAY, None)
    else match Rounds(c, sim, k - 1)
      case Failed(e) => Failed(e)
      case Running(leeway, _) =>
        match sim(k - 1, leeway)
        case Err(e) => Failed(e)
        case Ok(r) => Running(NextLeeway(c, k - 1, leeway, r.instructions), Some(r))
  }

  function WithPaddedFee(r: PreflightResult, margin: real): PreflightResult {
    r.(recommendedFee := CeilNat(Part(1.0 + margin, r.recommendedFee)))
  }

  /** The simulation a miss settles on. */
  function Simulate(c: Config, sim: Simulator): Result<PreflightResult> {
    match Rounds(c, sim, c.maxIterations)
    case Failed(e) => Err(e)
    case Running(_, None) => Err(NO_RESULT)
    case Running(_, Some(r)) => Ok(r)
  }

  /** What one miss puts in the cache. */
  function Fill(c: Config, sim: Simulator): Result<PreflightResult> {
    match Simulate(c, sim)
    case Err(e) => Err(e)
    case Ok(r) => Ok(WithPaddedFee(r, c.safetyMargin))
  }

  /** The leeway offered to the simulator in round k, when the call gets that far. */
  function Offered(c: Config, sim: Simulator, k: nat): Option<nat> {
    match Rounds(c, sim, k) case Failed(_) => None case Running(leeway, _) => Some(leeway)
  }

  /** The call reaches round k and its simulation is refused. */
  predicate FailsIn(c: Config, sim: Simulator, k: nat) {
    Offered(c, sim, k).Some? && sim(k, Offered(c, sim, k).value).Err?
  }

  /** A call fails with the error of the one round that fails, and otherwise keeps the last
      round's simulation. */
  lemma {:induction false} OneFailureDecides(c: Config, sim: Simulator, k: nat)
    ensures Rounds(c, sim, k).Failed? <==> exists j: nat :: j < k && FailsIn(c, sim, j)
    ensures forall j: nat :: j < k && FailsIn(c, sim, j) ==>
              Rounds(c, sim, k) == Failed(sim(j, Offered(c, sim, j).value).error)
    ensures Rounds(c, sim, k).Running? && k > 0 ==>
              Rounds(c, sim, k).best.Some? && Offered(c, sim, k - 1).Some?
              && sim(k - 1, Offered(c, sim, k - 1).value) == Ok(Rounds(c, sim, k).best.value)
  {
    if k > 0 {
      OneFailureDecides(c, sim, k - 1);
      if Rounds(c, sim, k).Failed? && Rounds(c, sim, k - 1).Running? {
        assert FailsIn(c, sim, k - 1);
      }
    }
  }

  /** What a miss stores: a configuration without rounds stores nothing and says so, a call with a
      failing round stores nothing and reports it, and any other stores its last simulation with
      the fee raised to the least whole number not below the margined one. */
  lemma MissOutcome(c: Config, sim: Simulator)
    ensures c.maxIterations == 0 ==> Fill(c, sim) == Err("preflight returned no result")
    ensures c.maxIterations > 0 ==> (Fill(c, sim).Err? <==> exists k: nat :: k < c.maxIterations && FailsIn(c, sim, k))
    ensures forall k: nat :: k < c.maxIterations && FailsIn(c, sim, k) ==>
              Fill(c, sim) == Err(sim(k, Offered(c, sim, k).value).error)
    ensures Fill(c, sim).Ok? ==>
              && Offered(c, sim, c.maxIterations - 1).Some?
              && var last := sim(c.maxIterations - 1, Offered(c, sim, c.maxIterations - 1).value);
                 && last.Ok? && Fill(c, sim).value == last.value.(recommendedFee := Fill(c, sim).value.recommendedFee)
                 && var fee, due := Fill(c, sim).value.recommendedFee, Part(1.0 + c.safetyMargin, last.value.recommendedFee);
                    due <= fee as real && (fee > 0 ==> (fee - 1) as real < due)
  {
    OneFailureDecides(c, sim, c.maxIterations);
    if Fill(c, sim).Ok? {
      var due := Part(1.0 + c.safetyMargin, Rounds(c, sim, c.maxIterations).best.value.recommendedFee);
      CeilIsLeast(due, CeilNat(due));
      if CeilNat(due) > 0 { CeilIsLeast(due, CeilNat(due) - 1); }
    }
    hide CeilNat, Part, NextLeeway;
  }

  /** The band a tuned leeway is meant to keep to, up to rounding. */
  predicate InBand(c: Config, leeway: nat, instructions: nat) {
    Part(c.minLeeway, instructions) <= leeway as real < Part(c.maxLeeway, instructions) + 1.0
  }

  /** The same with a count of 0 taken for 1 at the upper end, as the headroom takes it. */
  predicate NearBand(c: Config, leeway: nat, instructions: nat) {
    Part(c.minLeeway, instructions) <= leeway as real < Part(c.maxLeeway, AtLeastOne(instructions)) + 1.0
  }

  /** A positive leeway between the fractions is left alone by a count of 0, whose band is 0. */
  predicate Stuck(c: Config, leeway: nat, instructions: nat) {
    instructions == 0 && leeway > 0 && c.minLeeway <= leeway as real <= c.maxLeeway
  }

  /** The band itself, without the rounding allowance. */
  predicate Settled(c: Config, leeway: nat, instructions: nat) {
    Part(c.minLeeway, instructions) <= leeway as real <= Part(c.maxLeeway, instructions)
  }

  predicate Ordered(c: Config) {
    c.minLeeway <= c.maxLeeway && 0.0 <= c.maxLeeway
  }

  lemma HeadroomCompares(leeway: nat, instructions: nat, fraction: real)
    ensures Headroom(leeway, instructions) < fraction <==> (leeway as real) < Part(fraction, AtLeastOne(instructions))
    ensures Headroom(leeway, instructions) > fraction <==> (leeway as real) > Part(fraction, AtLeastOne(instructions))
  {
    QuotientCompares(leeway as real, AtLeastOne(instructions) as real, fraction);
  }

  lemma QuotientCompares(x: real, n: real, f: real)
    requires n > 0.0
    ensures x / n < f <==> x < f * n
    ensures x / n > f <==> x > f * n
  {
    var q := x / n;
    assert x == q * n;
    if q < f {
      assert (f - q) * n > 0.0;
    } else if q > f {
      assert (q - f) * n > 0.0;
    }
  }

  lemma PartsAreOrdered(c: Config, a: nat)
    requires Ordered(c)
    ensures Part(c.minLeeway, a) <= Part(c.maxLeeway, a) && 0.0 <= Part(c.maxLeeway, a)
    ensures Part(c.maxLeeway, a) <= Part(c.maxLeeway, AtLeastOne(a))
    ensures Part(c.minLeeway, a) <= Part(c.minLeeway, AtLeastOne(a)) || Part(c.minLeeway, a) <= 0.0
  {
    PartSpread(c.maxLeeway, c.minLeeway, a);
    PartSign(c.maxLeeway - c.minLeeway, a);
    PartSign(c.maxLeeway, a);
  }

  /** Every round leaves the leeway above the lower fraction of the instructions it saw.
      Every round but the first also leaves it below the upper one, up to rounding, exactly
      unless it is stuck, and then it is as near as the headroom lets it be. */
  lemma OneRoundLandsInBand(c: Config, round: nat, leeway: nat, a: nat)
    requires Ordered(c)
    ensures Part(c.minLeeway, a) <= NextLeeway(c, round, leeway, a) as real
    ensures round > 0 ==> NearBand(c, NextLeeway(c, round, leeway, a), a)
    ensures round > 0 ==> (InBand(c, NextLeeway(c, round, leeway, a), a) <==> !Stuck(c, leeway, a))
  {
    HeadroomCompares(leeway, a, c.minLeeway);
    HeadroomCompares(leeway, a, c.maxLeeway);
    PartsAreOrdered(c, a);
    CeilBounds(Part(c.minLeeway, a));
    CeilBounds(Part(c.maxLeeway, a));
    PartOfFew(c.minLeeway);
    PartOfFew(c.maxLeeway);
    hide Part, Headroom, CeilNat;
  }

  lemma PartOfFew(fraction: real)
    ensures Part(fraction, 0) == 0.0 && Part(fraction, 1) == fraction
  {
  }

  /** The first round never lowers a leeway that some instructions were reported for, however
      far above the band it is; every later one lowers it exactly when it is above the band. */
  lemma FirstRoundNeverLowers(c: Config, round: nat, leeway: nat, a: nat)
    requires Ordered(c) && a > 0
    ensures NextLeeway(c, 0, leeway, a) >= leeway
    ensures round > 0 ==> (NextLeeway(c, round, leeway, a) < leeway <==>
                             Part(c.maxLeeway, a) < leeway as real && CeilNat(Part(c.minLeeway, a)) < leeway)
  {
    HeadroomCompares(leeway, a, c.minLeeway);
    HeadroomCompares(leeway, a, c.maxLeeway);
    PartsAreOrdered(c, a);
    CeilBounds(Part(c.maxLeeway, a));
    CeilIsLeast(Part(c.minLeeway, a), leeway);
    hide Part, Headroom, CeilNat;
  }

  /** For any simulator, after every round but the first: in the band of the instructions it
      reported whenever they are not 0, and near it always. */
  lemma LeewayStaysInBand(c: Config, sim: Simulator, k: nat)
    requires Ordered(c) && k > 1 && Rounds(c, sim, k).Running?
    ensures Rounds(c, sim, k).best.Some?
    ensures NearBand(c, Rounds(c, sim, k).leeway, Rounds(c, sim, k).best.value.instructions)
    ensures Rounds(c, sim, k - 1).Running?
    ensures InBand(c, Rounds(c, sim, k).leeway, Rounds(c, sim, k).best.value.instructions)
       <==> !Stuck(c, Rounds(c, sim, k - 1).leeway, Rounds(c, sim, k).best.value.instructions)
  {
    var before := Rounds(c, sim, k - 1);
    OneRoundLandsInBand(c, k - 1, before.leeway, sim(k - 1, before.leeway).value.instructions);
    hide InBand, NearBand, NextLeeway, Stuck;
  }

  /** In every run, after every round but the first, the leeway is in the band of the
      instructions that round reported. */
  ghost predicate RunsStayInBand(c: Config) {
    forall sim, k :: k > 1 && Rounds(c, sim, k).Running? && Rounds(c, sim, k).best.Some? ==>
      InBand(c, Rounds(c, sim, k).leeway, Rounds(c, sim, k).best.value.instructions)
  }

  /** Some run gets stuck: a leeway the fractions allow for one instruction is reached, as it
      always is with a positive lower fraction if there is one, or the initial leeway is one. */
  predicate CanStick(c: Config) {
    if c.minLeeway > 0.0 then CeilNat(c.minLeeway) as real <= c.maxLeeway else 1_000_000.0 <= c.maxLeeway
  }

  /** Every run stays in the band exactly when the fractions are in order, the upper one is not
      negative, and no run can get stuck. */
  lemma RunsStayInBandIff(c: Config)
    ensures RunsStayInBand(c) <==> Ordered(c) && !CanStick(c)
  {
    if !Ordered(c) {
      var a := OverloadedCount(c);
      var r := PreflightResult(0, a, 0, 0, 0);
      var sim: Simulator := (k, leeway) => Ok(r);
      SecondRound(c, sim, r);
      OverloadLeavesBand(c, a);
      hide InBand, NextLeeway;
    } else if CanStick(c) {
      var sim, k := StickingRun(c);
      hide Rounds, InBand;
    } else {
      forall sim, k | k > 1 && Rounds(c, sim, k).Running? && Rounds(c, sim, k).best.Some?
        ensures InBand(c, Rounds(c, sim, k).leeway, Rounds(c, sim, k).best.value.instructions)
      {
        LeewayStaysInBand(c, sim, k);
        NeverStuck(c, sim, k - 1);
        hide InBand, Rounds;
      }
    }
  }

  /** With these, the band holds in every run of the default configuration. */
  lemma DefaultFractionsStayInBand(c: Config)
    requires c.minLeeway == 0.1 && c.maxLeeway == 0.5
    ensures RunsStayInBand(c)
  {
    RunsStayInBandIff(c);
    hide RunsStayInBand;
  }

  const TenTenNothing: Simulator := (k, leeway) => Ok(PreflightResult(0, if k < 2 then 10 else 0, 0, 0, 0))

  /** A run of three rounds that ends outside: the counts 10, 10 and 0 leave a leeway of 1,
      where the band of 0 instructions only has 0. */
  lemma ZeroCountLeavesBand(margin: real)
    ensures var c := Config(margin, 3, 0.1, 1.0);
            && Ordered(c) && Rounds(c, TenTenNothing, 3) == Running(1, Some(PreflightResult(0, 0, 0, 0, 0)))
            && !InBand(c, 1, 0)
  {
    var c, r := Config(margin, 3, 0.1, 1.0), PreflightResult(0, 10, 0, 0, 0);
    assert NextLeeway(c, 0, INITIAL_LEEWAY, 10) == INITIAL_LEEWAY;
    assert NextLeeway(c, 1, INITIAL_LEEWAY, 10) == 1;
    assert NextLeeway(c, 2, 1, 0) == 1;
    SecondRound(c, TenTenNothing, r);
    hide NextLeeway;
  }

  /** Once no leeway at all lies between the fractions, or only those the run never visits. */
  lemma NeverStuck(c: Config, sim: Simulator, k: nat)
    requires Ordered(c) && !CanStick(c) && Rounds(c, sim, k).Running?
    ensures forall a :: !Stuck(c, Rounds(c, sim, k).leeway, a)
  {
    var leeway := Rounds(c, sim, k).leeway;
    if c.minLeeway > 0.0 {
      CeilIsLeast(c.minLeeway, leeway);
    } else {
      OnlyInitialOrZero(c, sim, k);
    }
    hide Rounds, CeilNat;
  }

  lemma {:induction false} OnlyInitialOrZero(c: Config, sim: Simulator, k: nat)
    requires c.minLeeway <= 0.0 && Rounds(c, sim, k).Running?
    ensures Rounds(c, sim, k).leeway == INITIAL_LEEWAY || Rounds(c, sim, k).leeway == 0
  {
    if k > 0 {
      OnlyInitialOrZero(c, sim, k - 1);
      var leeway := Rounds(c, sim, k - 1).leeway;
      var a := sim(k - 1, leeway).value.instructions;
      HeadroomIsNotNegative(leeway, a);
      PartSign(c.minLeeway, a);
      CeilBounds(Part(c.minLeeway, a));
      assert NextLeeway(c, k - 1, leeway, a) == leeway || NextLeeway(c, k - 1, leeway, a) == 0;
      hide NextLeeway;
    }
  }

  lemma HeadroomIsNotNegative(leeway: nat, a: nat)
    ensures Headroom(leeway, a) >= 0.0
  {
    HeadroomCompares(leeway, a, 0.0);
    PartSign(0.0, AtLeastOne(a));
  }

  /** Two rounds with one instruction settle on a leeway between the fractions, or the initial
      leeway is one and the first round leaves it alone; then a count of 0 leaves it there. */
  lemma StickingRun(c: Config) returns (sim: Simulator, k: nat)
    requires Ordered(c) && CanStick(c)
    ensures k > 1 && Rounds(c, sim, k).Running? && Rounds(c, sim, k).best.Some?
    ensures !InBand(c, Rounds(c, sim, k).leeway, Rounds(c, sim, k).best.value.instructions)
  {
    var one, none := PreflightResult(0, 1, 0, 0, 0), PreflightResult(0, 0, 0, 0, 0);
    hide InBand, NearBand;
    PartOfFew(c.minLeeway);
    PartOfFew(c.maxLeeway);
    if c.minLeeway > 0.0 {
      sim, k := (round, leeway) => Ok(if round < 2 then one else none), 3;
      SecondRound(c, sim, one);
      var settled := Rounds(c, sim, 2).leeway;
      TwoRoundsSettle(c, INITIAL_LEEWAY, 1, settled);
      assert Stuck(c, settled, 0);
      OneRoundLandsInBand(c, 2, settled, 0);
    } else {
      sim, k := (round, leeway) => Ok(none), 2;
      SecondRound(c, sim, none);
      HeadroomIsNotNegative(INITIAL_LEEWAY, 0);
      assert NextLeeway(c, 0, INITIAL_LEEWAY, 0) == INITIAL_LEEWAY;
      OneRoundLandsInBand(c, 1, INITIAL_LEEWAY, 0);
    }
    hide NextLeeway;
  }

  lemma SecondRound(c: Config, sim: Simulator, r: PreflightResult)
    requires forall k, leeway :: k < 2 ==> sim(k, leeway) == Ok(r)
    ensures Rounds(c, sim, 2) == Running(NextLeeway(c, 1, NextLeeway(c, 0, INITIAL_LEEWAY, r.instructions), r.instructions), Some(r))
  {
    hide NextLeeway;
    assert Rounds(c, sim, 0) == Running(INITIAL_LEEWAY, None);
    assert Rounds(c, sim, 1) == Running(NextLeeway(c, 0, INITIAL_LEEWAY, r.instructions), Some(r));
  }

  /** Either no leeway can meet the upper end, or the initial leeway is below the lower end
      and so is everything below the upper end plus one. */
  predicate Overloads(c: Config, a: nat) {
    && a > 0
    && (Part(c.maxLeeway, a) + 1.0 <= 0.0
        || (INITIAL_LEEWAY as real < Part(c.minLeeway, a) && 0.0 <= Part(c.maxLeeway, a)
            && Part(c.maxLeeway, a) + 1.0 <= Part(c.minLeeway, a)))
  }

  lemma OverloadedCount(c: Config) returns (a: nat)
    requires !Ordered(c)
    ensures Overloads(c, a)
  {
    if c.maxLeeway < 0.0 {
      a := Reaching(-c.maxLeeway, 1.0);
      PartSpread(0.0, c.maxLeeway, a);
      PartSign(0.0, a);
    } else {
      var gap := c.minLeeway - c.maxLeeway;
      var x, y := Reaching(gap, 1.0), Reaching(c.minLeeway, INITIAL_LEEWAY as real + 1.0);
      a := x + y;
      PartGrows(gap, x, a);
      PartGrows(c.minLeeway, y, a);
      PartSpread(c.minLeeway, c.maxLeeway, a);
      PartSign(c.maxLeeway, a);
    }
    hide Part, Reaching;
  }

  /** A count whose part of a positive fraction reaches the goal. */
  function Reaching(fraction: real, goal: real): (a: nat)
    requires fraction > 0.0 && goal > 0.0
    ensures a > 0 && Part(fraction, a) >= goal
  {
    CeilBounds(goal / fraction);
    QuotientCompares(goal, fraction, CeilNat(goal / fraction) as real);
    CeilNat(goal / fraction)
  }

  lemma PartGrows(fraction: real, a: nat, b: nat)
    requires fraction >= 0.0 && a <= b
    ensures Part(fraction, a) <= Part(fraction, b)
  {
    NonNegative(fraction, (b - a) as real);
  }

  lemma PartSpread(x: real, y: real, a: nat)
    ensures Part(x, a) == Part(y, a) + Part(x - y, a)
  {
  }

  lemma PartSign(x: real, a: nat)
    ensures x >= 0.0 ==> Part(x, a) >= 0.0
    ensures x <= 0.0 ==> Part(x, a) <= 0.0
  {
  }

  lemma OverloadLeavesBand(c: Config, a: nat)
    requires Overloads(c, a)
    ensures !InBand(c, NextLeeway(c, 1, NextLeeway(c, 0, INITIAL_LEEWAY, a), a), a)
  {
    var once := NextLeeway(c, 0, INITIAL_LEEWAY, a);
    HeadroomCompares(INITIAL_LEEWAY, a, c.minLeeway);
    HeadroomCompares(once, a, c.minLeeway);
    CeilBounds(Part(c.maxLeeway, a));
    hide Part, Headroom, CeilNat;
  }

  lemma NonNegative(x: real, y: real)
    requires x >= 0.0 && y >= 0.0
    ensures x * y >= 0.0
  {
  }

  // ---- A steady simulator ----

  ghost predicate Steady(sim: Simulator, r: PreflightResult) {
    forall k, leeway :: sim(k, leeway) == Ok(r)
  }

  /** A leeway the loop leaves alone in every round after the first. */
  ghost predicate Fixed(c: Config, leeway: nat, a: nat) {
    forall round: nat :: round > 0 ==> NextLeeway(c, round, leeway, a) == leeway
  }

  /** The band holds a whole number exactly when its rounded lower end fits. */
  predicate Fits(c: Config, a: nat) {
    CeilNat(Part(c.minLeeway, a)) as real <= Part(c.maxLeeway, a)
  }

  lemma SettledMeansFits(c: Config, leeway: nat, a: nat)
    requires Settled(c, leeway, a)
    ensures Fits(c, a)
  {
    CeilIsLeast(Part(c.minLeeway, a), leeway);
  }

  /** Two rounds from anywhere reach a fixed leeway, which is inside the band iff one fits. */
  lemma TwoRoundsSettle(c: Config, leeway: nat, a: nat, fixed: nat)
    requires Ordered(c) && a > 0
    requires fixed == NextLeeway(c, 1, NextLeeway(c, 0, leeway, a), a)
    ensures Fixed(c, fixed, a)
    ensures Settled(c, fixed, a) <==> Fits(c, a)
  {
    var low, high := CeilNat(Part(c.minLeeway, a)), CeilNat(Part(c.maxLeeway, a));
    var once := NextLeeway(c, 0, leeway, a);
    forall x: nat ensures SteersBy(c, x, a) {
      HeadroomCompares(x, a, c.minLeeway);
      HeadroomCompares(x, a, c.maxLeeway);
    }
    assert SteersBy(c, leeway, a) && SteersBy(c, once, a) && SteersBy(c, fixed, a);
    PartsAreOrdered(c, a);
    CeilBounds(Part(c.minLeeway, a));
    CeilBounds(Part(c.maxLeeway, a));
    if Settled(c, fixed, a) { SettledMeansFits(c, fixed, a); }
    if Settled(c, once, a) { SettledMeansFits(c, once, a); }
    hide Part, Headroom, CeilNat;
  }

  predicate SteersBy(c: Config, x: nat, a: nat) {
    && (Headroom(x, a) < c.minLeeway <==> (x as real) < Part(c.minLeeway, a))
    && (Headroom(x, a) > c.maxLeeway <==> (x as real) > Part(c.maxLeeway, a))
  }

  /** With a simulator that always reports the same positive instruction count, the leeway
      never changes after two rounds. */
  lemma {:induction false} SteadyLeewayConverges(c: Config, sim: Simulator, r: PreflightResult, k: nat)
    requires Ordered(c) && Steady(sim, r) && r.instructions > 0 && k >= 2
    ensures Rounds(c, sim, 2).Running? && Rounds(c, sim, k) == Rounds(c, sim, 2)
    ensures Settled(c, Rounds(c, sim, k).leeway, r.instructions) <==> Fits(c, r.instructions)
  {
    assert Rounds(c, sim, 1) == Running(NextLeeway(c, 0, INITIAL_LEEWAY, r.instructions), Some(r));
    assert Rounds(c, sim, 2) == Running(NextLeeway(c, 1, Rounds(c, sim, 1).leeway, r.instructions), Some(r));
    TwoRoundsSettle(c, INITIAL_LEEWAY, r.instructions, Rounds(c, sim, 2).leeway);
    if k > 2 {
      SteadyLeewayConverges(c, sim, r, k - 1);
      hide NextLeeway, Settled, Fits;
      assert sim(k - 1, Rounds(c, sim, k - 1).leeway) == Ok(r);
    }
  }

  // ---- Safety margin ----

  /** The margin as a whole number of percent of the original. */
  function Numerator(margin: real): nat {
    RoundNat(margin * 100.0 + 100.0)
  }

  function Scaled(v: nat, margin: real): nat {
    (v * Numerator(margin) + 99) / 100
  }

  function ApplySafetyMargin(r: PreflightResult, margin: real): PreflightResult {
    PreflightResult(Scaled(r.footprint, margin), Scaled(r.instructions, margin), Scaled(r.readBytes, margin),
                    Scaled(r.writeBytes, margin), Scaled(r.recommendedFee, margin))
  }

  /** Scaling is the least whole number not below the rounded percentage. */
  lemma ScaledIsLeastUpperBound(v: nat, margin: real, t: nat)
    ensures Scaled(v, margin) <= t <==> v * Numerator(margin) <= 100 * t
  {
  }

  lemma RoundIsMonotone(x: real, y: real)
    requires x <= y
    ensures RoundNat(x) <= RoundNat(y)
  {
  }

  lemma ScaledIsMonotone(v: nat, w: nat, m: real, n: real)
    requires v <= w && m <= n
    ensures Scaled(v, m) <= Scaled(w, n)
  {
    RoundIsMonotone(m * 100.0 + 100.0, n * 100.0 + 100.0);
    ProductIsMonotone(v, Numerator(m), w, Numerator(n));
    hide Numerator;
    ScaledIsLeastUpperBound(v, m, Scaled(w, n));
    ScaledIsLeastUpperBound(w, n, Scaled(w, n));
  }

  lemma ProductIsMonotone(a: nat, b: nat, c: nat, d: nat)
    requires a <= c && b <= d
    ensures a * b <= c * d
  {
    assert (c - a) * b >= 0 && c * (d - b) >= 0;
  }

  /** The share of the original that a margin asks for. */
  function Asked(v: nat, margin: real): real {
    Part(1.0 + margin, v)
  }

  /** Padding honours the margin for every value exactly when rounding it to a whole percent
      did not lose any of it. */
  lemma PaddingCoversMarginIff(margin: real)
    ensures (forall v: nat :: Asked(v, margin) <= Scaled(v, margin) as real)
       <==> margin * 100.0 + 100.0 <= Numerator(margin) as real
  {
    var n := Numerator(margin);
    if margin * 100.0 + 100.0 <= n as real {
      forall v: nat ensures Asked(v, margin) <= Scaled(v, margin) as real {
        AskedIsCovered(v, margin);
      }
    } else {
      var gap := (margin * 100.0 + 100.0 - n as real) / 100.0;
      var v := Reaching(gap, 1.0);
      PartSpread(1.0 + margin, n as real / 100.0, v);
      ScaledFallsShort(v, margin);
    }
  }

  lemma AskedIsCovered(v: nat, margin: real)
    requires margin * 100.0 + 100.0 <= Numerator(margin) as real
    ensures Asked(v, margin) <= Scaled(v, margin) as real
  {
    var n := Numerator(margin);
    hide Numerator;
    PartSpread(n as real / 100.0, 1.0 + margin, v);
    PartSign(n as real / 100.0 - (1.0 + margin), v);
    ShareOfProduct(v, n);
  }

  lemma ShareOfProduct(v: nat, n: nat)
    ensures Part(n as real / 100.0, v) == (v * n) as real / 100.0
  {
    assert (v * n) as real == v as real * n as real;
  }

  lemma ScaledFallsShort(v: nat, margin: real)
    requires Asked(v, margin) >= Part(Numerator(margin) as real / 100.0, v) + 1.0
    ensures Asked(v, margin) > Scaled(v, margin) as real
  {
    var n := Numerator(margin);
    hide Numerator, Asked;
    ShareOfProduct(v, n);
  }

  /** At 10.4 percent the percentage is rounded to 110, and 1000 becomes 1100 instead of 1104. */
  lemma FractionalMarginFallsShort()
    ensures Numerator(0.104) == 110 && Scaled(1000, 0.104) == 1100 && Asked(1000, 0.104) == 1104.0
  {
  }

  // ---- The fee, margined twice ----

  function Positive(x: real): real {
    if x < 0.0 then 0.0 else x
  }

  /** The rate the whole-percent padding uses. */
  function Rate(margin: real): real {
    Numerator(margin) as real / 100.0
  }

  /** The fee with the exact margin, which may not be below zero. */
  function DueFee(fee: nat, margin: real): real {
    Part(Positive(1.0 + margin), fee)
  }

  predicate RoundedUp(exact: real, padded: nat) {
    exact <= padded as real < exact + 1.0
  }

  /** For every margin, what a miss replies from its last simulation r: each figure but the fee
      is padded once, by a rate within half a percent of the margin; the fee is first padded
      by the exact margin and then by the rate, rounding up each time. */
  lemma FeeIsMarginedTwice(r: PreflightResult, margin: real)
    ensures margin >= -1.0 ==> -0.005 < Rate(margin) - (1.0 + margin) <= 0.005
    ensures Rate(margin) >= 0.0 && (margin < -1.0 ==> Rate(margin) == 0.0)
    ensures var reply, rate := Answer(r, margin, margin), Rate(margin);
            && RoundedUp(Part(rate, r.footprint), reply.footprint)
            && RoundedUp(Part(rate, r.instructions), reply.instructions)
            && RoundedUp(Part(rate, r.readBytes), reply.readBytes)
            && RoundedUp(Part(rate, r.writeBytes), reply.writeBytes)
            && Mul(rate, DueFee(r.recommendedFee, margin)) <= reply.recommendedFee as real
            && (reply.recommendedFee as real) < Mul(rate, DueFee(r.recommendedFee, margin) + 1.0) + 1.0
  {
    ScaledRoundsUp(r.footprint, margin);
    ScaledRoundsUp(r.instructions, margin);
    ScaledRoundsUp(r.readBytes, margin);
    ScaledRoundsUp(r.writeBytes, margin);
    RescaledFee(r.recommendedFee, margin);
    hide Scaled, CeilNat, Mul, DueFee, RoundedUp, Part;
  }

  lemma ScaledRoundsUp(v: nat, margin: real)
    ensures RoundedUp(Part(Rate(margin), v), Scaled(v, margin))
  {
    ShareOfProduct(v, Numerator(margin));
    hide Numerator;
  }

  lemma CeilOfPart(fraction: real, v: nat)
    ensures CeilNat(Part(fraction, v)) == CeilNat(Part(Positive(fraction), v))
  {
    PartSign(fraction, v);
    PartSign(0.0, v);
    hide Part;
  }

  lemma RescaledFee(fee: nat, margin: real)
    ensures var rate, padded := Rate(margin), Scaled(CeilNat(Part(1.0 + margin, fee)), margin);
            && Mul(rate, DueFee(fee, margin)) <= padded as real
            && (padded as real) < Mul(rate, DueFee(fee, margin) + 1.0) + 1.0
  {
    var due, once := DueFee(fee, margin), CeilNat(Part(1.0 + margin, fee));
    CeilOfPart(1.0 + margin, fee);
    PartSign(Positive(1.0 + margin), fee);
    CeilBounds(due);
    ScaledRoundsUp(once, margin);
    assert Part(Rate(margin), once) == Mul(Rate(margin), once as real);
    MulIsMonotone(Rate(margin), due, once as real);
    MulIsMonotone(Rate(margin), once as real, due + 1.0);
    hide Numerator, Scaled, Part, Mul, CeilNat;
  }

  // ---- A result stored under one margin and answered under another ----

  /** The reply to a call with margin n, from figures r that a call with margin m simulated and stored. */
  function Answer(r: PreflightResult, m: real, n: real): PreflightResult {
    ApplySafetyMargin(WithPaddedFee(r, m), n)
  }

  /** The answer repeats the filling call's own reply, whatever was simulated, exactly when
      both margins round to the same percentage. */
  lemma RepeatsIff(m: real, n: real)
    ensures (forall r :: Answer(r, m, n) == Answer(r, m, m)) <==> Numerator(m) == Numerator(n)
  {
    if Numerator(m) != Numerator(n) {
      var r := PreflightResult(0, 100, 0, 0, 0);
      ScaledHundred(m);
      ScaledHundred(n);
      assert Answer(r, m, n) != Answer(r, m, m) by { hide Scaled, Numerator, CeilNat; }
    }
  }

  lemma ScaledHundred(margin: real)
    ensures Scaled(100, margin) == Numerator(margin)
  {
    hide Numerator;
  }

  /** The two margins pad every fee alike, or the answering one leaves nothing of it. */
  predicate PadsFeeAlike(m: real, n: real) {
    Numerator(n) == 0 || Positive(1.0 + m) == Positive(1.0 + n)
  }

  /** The answer is what a call with margin n that simulated the same figures would get,
      whatever they are, exactly when the margins pad fees alike; for margins that are not
      negative, exactly when they are equal. */
  lemma FreshIff(m: real, n: real)
    ensures (forall r :: Answer(r, m, n) == Answer(r, n, n)) <==> PadsFeeAlike(m, n)
    ensures m >= 0.0 && n >= 0.0 ==> (PadsFeeAlike(m, n) <==> m == n)
  {
    if PadsFeeAlike(m, n) {
      forall r: PreflightResult ensures Answer(r, m, n) == Answer(r, n, n) {
        CeilOfPart(1.0 + m, r.recommendedFee);
        CeilOfPart(1.0 + n, r.recommendedFee);
        ScaledByNothing(CeilNat(Part(1.0 + m, r.recommendedFee)), n);
        ScaledByNothing(CeilNat(Part(1.0 + n, r.recommendedFee)), n);
        hide Numerator, Scaled, CeilNat, Part;
      }
    } else {
      var fee := TellingFee(Positive(1.0 + m), Positive(1.0 + n));
      var r := PreflightResult(0, 0, 0, 0, fee);
      CeilOfPart(1.0 + m, fee);
      CeilOfPart(1.0 + n, fee);
      hide Positive, CeilNat, Part, Mul;
      ScaledApart(CeilNat(Part(1.0 + m, fee)), CeilNat(Part(1.0 + n, fee)), n);
      assert Answer(r, m, n) != Answer(r, n, n) by { hide Scaled, Numerator; }
    }
  }

  lemma ScaledByNothing(v: nat, margin: real)
    ensures Numerator(margin) == 0 ==> Scaled(v, margin) == 0
  {
    hide Numerator;
  }

  /** A fee so large that two different rates pad it a hundred apart. */
  lemma TellingFee(x: real, y: real) returns (fee: nat)
    requires x != y && x >= 0.0 && y >= 0.0
    ensures Apart(CeilNat(Part(x, fee)), CeilNat(Part(y, fee)))
  {
    var gap := if x < y then y - x else x - y;
    fee := Reaching(gap, 101.0);
    PartSign(x, fee);
    PartSign(y, fee);
    CeilBounds(Part(x, fee));
    CeilBounds(Part(y, fee));
    PartSpread(x, y, fee);
    PartSpread(y, x, fee);
    hide CeilNat, Reaching, Part;
  }

  predicate Apart(v: nat, w: nat) {
    v >= w + 100 || w >= v + 100
  }

  lemma ScaledApart(v: nat, w: nat, margin: real)
    requires Numerator(margin) > 0 && Apart(v, w)
    ensures Scaled(v, margin) != Scaled(w, margin)
  {
    var n, d := Numerator(margin), v - w;
    hide Numerator;
    assert v * n == w * n + d * n;
    assert d >= 100 ==> d * n >= 100;
    assert d <= -100 ==> d * n <= -100;
  }
}
