/** Time-of-use pricing: first matching schedule, summed over a batch. */
module Tariffs {

  const SECONDS_PER_HOUR := 3_600
  const HOURS: nat := 24
  const DEFAULT_RATE := 0.12

  datatype Schedule = Schedule(ratePerUnit: real, startHour: nat, endHour: nat)

  datatype Reading = Reading(seconds: int, volume: real)

  /** The UTC hour of a Unix time. */
  function HourOf(seconds: int): (h: nat)
    ensures h < HOURS
  {
    seconds / SECONDS_PER_HOUR % HOURS
  }

  predicate Covers(s: Schedule, hour: nat) {
    s.startHour <= hour < s.endHour
  }

  function Evaluate(schedules: seq<Schedule>, r: Reading): real {
    if schedules == [] then r.volume * DEFAULT_RATE
    else if Covers(schedules[0], HourOf(r.seconds)) then r.volume * schedules[0].ratePerUnit
    else Evaluate(schedules[1..], r)
  }

  function EvaluateBatch(schedules: seq<Schedule>, batch: seq<Reading>): real {
    if batch == [] then 0.0 else Evaluate(schedules, batch[0]) + EvaluateBatch(schedules, batch[1..])
  }

  /** The rate in force at an hour: that of the first schedule covering it. */
  ghost predicate IsRate(schedules: seq<Schedule>, hour: nat, rate: real) {
    if exists i :: 0 <= i < |schedules| && schedules[i].startHour <= hour < schedules[i].endHour
    then exists i :: 0 <= i < |schedules| && schedules[i].startHour <= hour < schedules[i].endHour && rate == schedules[i].ratePerUnit
                     && forall j :: 0 <= j < i ==> !(schedules[j].startHour <= hour < schedules[j].endHour)
    else rate == 0.12
  }

  /** The hour of a time: whole days of 86400 seconds and hours of 3600 before it. */
  lemma HourIsOfDay(day: int, hour: nat, second: nat)
    requires hour < 24 && second < 3_600
    ensures HourOf(day * 86_400 + hour * 3_600 + second) == hour
  {
    var seconds := day * 86_400 + hour * 3_600 + second;
    var h := day * 24 + hour;
    assert seconds == h * 3_600 + second;
    assert seconds / SECONDS_PER_HOUR == h;
  }

  /** A unit reading in the hour prices at the rate. */
  function RateAt(schedules: seq<Schedule>, hour: nat): real {
    Evaluate(schedules, Reading(hour * SECONDS_PER_HOUR, 1.0))
  }

  lemma {:induction false} EvaluateUsesFirstMatch(schedules: seq<Schedule>, r: Reading, rate: real)
    requires IsRate(schedules, HourOf(r.seconds), rate)
    ensures Evaluate(schedules, r) == r.volume * rate
  {
    if schedules != [] && !Covers(schedules[0], HourOf(r.seconds)) {
      var h, rest := HourOf(r.seconds), schedules[1..];
      if i :| 0 <= i < |schedules| && Covers(schedules[i], h) && rate == schedules[i].ratePerUnit
              && forall j :: 0 <= j < i ==> !Covers(schedules[j], h) {
        assert rest[i - 1] == schedules[i];
        assert forall j :: 0 <= j < i - 1 ==> !Covers(rest[j], h) by {
          assert forall j :: 0 <= j < i - 1 ==> rest[j] == schedules[j + 1];
        }
        assert IsRate(rest, h, rate);
      } else {
        assert forall i :: 0 <= i < |rest| ==> rest[i] == schedules[i + 1];
        assert IsRate(rest, h, rate);
      }
      EvaluateUsesFirstMatch(rest, r, rate);
    }
  }

  /** There is exactly one rate per hour, and RateAt finds it. */
  lemma RateAtIsTheRate(schedules: seq<Schedule>, hour: nat)
    requires hour < HOURS
    ensures forall rate :: IsRate(schedules, hour, rate) <==> rate == RateAt(schedules, hour)
  {
    var unit := Reading(hour * SECONDS_PER_HOUR, 1.0);
    assert HourOf(unit.seconds) == hour;
    forall rate | IsRate(schedules, hour, rate) ensures rate == RateAt(schedules, hour) {
      EvaluateUsesFirstMatch(schedules, unit, rate);
    }
    var rate := SomeRate(schedules, hour);
    EvaluateUsesFirstMatch(schedules, unit, rate);
  }

  lemma {:induction false} SomeRate(schedules: seq<Schedule>, hour: nat) returns (rate: real)
    ensures IsRate(schedules, hour, rate)
  {
    if schedules == [] {
      rate := DEFAULT_RATE;
    } else if Covers(schedules[0], hour) {
      rate := schedules[0].ratePerUnit;
    } else {
      var rest := schedules[1..];
      rate := SomeRate(rest, hour);
      if i :| 0 <= i < |rest| && Covers(rest[i], hour) && rate == rest[i].ratePerUnit
              && forall j :: 0 <= j < i ==> !Covers(rest[j], hour) {
        assert schedules[i + 1] == rest[i];
        assert forall j :: 0 < j < i + 1 ==> schedules[j] == rest[j - 1];
      } else {
        assert forall j :: 0 < j < |schedules| ==> schedules[j] == rest[j - 1];
      }
    }
  }

  // ---- Regrouping a batch by hour ----

  function VolumeOf(r: Reading, hour: nat): real {
    if HourOf(r.seconds) == hour then r.volume else 0.0
  }

  function VolumeAt(batch: seq<Reading>, hour: nat): real {
    if batch == [] then 0.0 else VolumeOf(batch[0], hour) + VolumeAt(batch[1..], hour)
  }

  function Cost(volume: real, rate: real): real {
    volume * rate
  }

  /** Sum over the first `hours` hours of volume times rate. */
  function CostByHour(schedules: seq<Schedule>, batch: seq<Reading>, hours: nat): real {
    if hours == 0 then 0.0
    else CostByHour(schedules, batch, hours - 1) + Cost(VolumeAt(batch, hours - 1), RateAt(schedules, hours - 1))
  }

  lemma CostOfOne(schedules: seq<Schedule>, r: Reading)
    ensures Evaluate(schedules, r) == Cost(r.volume, RateAt(schedules, HourOf(r.seconds)))
  {
    hide RateAt, Evaluate, IsRate, HourOf;
    RateAtIsTheRate(schedules, HourOf(r.seconds));
    EvaluateUsesFirstMatch(schedules, r, RateAt(schedules, HourOf(r.seconds)));
  }

  lemma {:induction false} CostSplitsOffOne(schedules: seq<Schedule>, batch: seq<Reading>, hours: nat)
    requires batch != []
    ensures CostByHour(schedules, batch, hours)
         == CostByHour(schedules, batch[1..], hours) + if HourOf(batch[0].seconds) < hours then Evaluate(schedules, batch[0]) else 0.0
  {
    if hours > 0 {
      CostSplitsOffOne(schedules, batch, hours - 1);
      CostOfOne(schedules, batch[0]);
      Distribute(if HourOf(batch[0].seconds) == hours - 1 then batch[0].volume else 0.0,
                 VolumeAt(batch[1..], hours - 1), RateAt(schedules, hours - 1));
      hide RateAt, Evaluate, HourOf, Cost;
    }
  }

  lemma Distribute(x: real, y: real, rate: real)
    ensures Cost(x + y, rate) == Cost(x, rate) + Cost(y, rate)
    ensures Cost(0.0, rate) == 0.0
  {
  }

  lemma {:induction false} NothingCostsNothing(schedules: seq<Schedule>, hours: nat)
    ensures CostByHour(schedules, [], hours) == 0.0
  {
    if hours > 0 {
      NothingCostsNothing(schedules, hours - 1);
      Distribute(0.0, 0.0, RateAt(schedules, hours - 1));
    }
  }

  /** A batch costs, hour by hour, the hour's total volume at the hour's rate. */
  lemma {:induction false} BatchRegroupsByHour(schedules: seq<Schedule>, batch: seq<Reading>)
    ensures EvaluateBatch(schedules, batch) == CostByHour(schedules, batch, HOURS)
  {
    if batch == [] {
      NothingCostsNothing(schedules, HOURS);
    } else {
      BatchRegroupsByHour(schedules, batch[1..]);
      CostSplitsOffOne(schedules, batch, HOURS);
      hide CostByHour, Evaluate;
    }
  }

  /** So any two batches with the same volume in every hour cost the same: in another
      order, or with readings split or merged within their hour. */
  lemma OnlyHourlyVolumesMatter(schedules: seq<Schedule>, a: seq<Reading>, b: seq<Reading>)
    requires forall h: nat :: h < HOURS ==> VolumeAt(a, h) == VolumeAt(b, h)
    ensures EvaluateBatch(schedules, a) == EvaluateBatch(schedules, b)
  {
    BatchRegroupsByHour(schedules, a);
    BatchRegroupsByHour(schedules, b);
    SameVolumesSameCost(schedules, a, b, HOURS);
  }

  lemma {:induction false} SameVolumesSameCost(schedules: seq<Schedule>, a: seq<Reading>, b: seq<Reading>, hours: nat)
    requires forall h: nat :: h < hours ==> VolumeAt(a, h) == VolumeAt(b, h)
    ensures CostByHour(schedules, a, hours) == CostByHour(schedules, b, hours)
  {
    if hours > 0 {
      SameVolumesSameCost(schedules, a, b, hours - 1);
    }
  }

  lemma {:induction false} VolumeOfConcat(a: seq<Reading>, b: seq<Reading>, hour: nat)
    ensures VolumeAt(a + b, hour) == VolumeAt(a, hour) + VolumeAt(b, hour)
  {
    if a == [] {
      assert a + b == b;
    } else {
      assert (a + b)[1..] == a[1..] + b;
      VolumeOfConcat(a[1..], b, hour);
    }
  }

  function Without(s: seq<Reading>, i: nat): (r: seq<Reading>)
    requires i < |s|
    ensures |r| == |s| - 1
  {
    s[..i] + s[i + 1..]
  }

  lemma MultisetWithout(s: seq<Reading>, i: nat)
    requires i < |s|
    ensures multiset(Without(s, i)) == multiset(s) - multiset{s[i]}
  {
    assert s == s[..i] + [s[i]] + s[i + 1..];
  }

  lemma VolumeWithout(s: seq<Reading>, i: nat, hour: nat)
    requires i < |s|
    ensures VolumeAt(s, hour) == VolumeAt(Without(s, i), hour) + VolumeOf(s[i], hour)
  {
    var front, back := s[..i], s[i + 1..];
    assert s == front + ([s[i]] + back) && ([s[i]] + back)[1..] == back;
    VolumeOfConcat(front, back, hour);
    VolumeOfConcat(front, [s[i]] + back, hour);
  }

  lemma {:induction false} VolumeIgnoresOrder(a: seq<Reading>, b: seq<Reading>, hour: nat)
    requires multiset(a) == multiset(b)
    ensures VolumeAt(a, hour) == VolumeAt(b, hour)
    decreases |a|
  {
    assert |multiset(a)| == |a| && |multiset(b)| == |b|;
    if a != [] {
      hide VolumeAt, VolumeOf, Without;
      assert a[0] in multiset(b);
      var i :| 0 <= i < |b| && b[i] == a[0];
      MultisetWithout(a, 0);
      MultisetWithout(b, i);
      VolumeIgnoresOrder(Without(a, 0), Without(b, i), hour);
      VolumeWithout(a, 0, hour);
      VolumeWithout(b, i, hour);
    }
  }

  lemma BatchIgnoresOrder(schedules: seq<Schedule>, a: seq<Reading>, b: seq<Reading>)
    requires multiset(a) == multiset(b)
    ensures EvaluateBatch(schedules, a) == EvaluateBatch(schedules, b)
  {
    forall h: nat | h < HOURS ensures VolumeAt(a, h) == VolumeAt(b, h) {
      VolumeIgnoresOrder(a, b, h);
    }
    OnlyHourlyVolumesMatter(schedules, a, b);
  }

  /** Splitting a reading in two within its hour changes nothing. */
  lemma BatchIgnoresSplits(schedules: seq<Schedule>, before: seq<Reading>, r: Reading, x: Reading, y: Reading, after: seq<Reading>)
    requires HourOf(x.seconds) == HourOf(y.seconds) == HourOf(r.seconds) && x.volume + y.volume == r.volume
    ensures EvaluateBatch(schedules, before + ([r] + after)) == EvaluateBatch(schedules, before + ([x, y] + after))
  {
    var a, b := before + ([r] + after), before + ([x, y] + after);
    forall h: nat | h < HOURS ensures VolumeAt(a, h) == VolumeAt(b, h) {
      VolumeOfConcat(before, [r] + after, h);
      VolumeOfConcat(before, [x, y] + after, h);
      VolumeOfConcat([r], after, h);
      VolumeOfConcat([x, y], after, h);
      assert [x, y][1..] == [y];
    }
    OnlyHourlyVolumesMatter(schedules, a, b);
  }
}
