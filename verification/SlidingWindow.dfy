/** The per-meter rolling window: what a run of ingests leaves in each deque,
    compared with a filter over everything that was ever ingested. */
module SlidingWindow {
  import opened Common
  import opened Readings

  const NANOS_PER_DAY := 86_400_000_000_000

  function Cutoff(days: int, now: int): int {
    now - days * NANOS_PER_DAY
  }

  predicate Stale(r: Reading, cutoff: int) {
    r.timestamp.nanos < cutoff
  }

  /** Drops stale readings from the front, stopping at the first that is not. */
  function PruneFront(w: seq<Reading>, cutoff: int): seq<Reading> {
    if w == [] || !Stale(w[0], cutoff) then w else PruneFront(w[1..], cutoff)
  }

  type Windows = map<string, seq<Reading>>

  function WindowOf(windows: Windows, meterId: string): seq<Reading> {
    if meterId in windows then windows[meterId] else []
  }

  function IngestInto(windows: Windows, days: int, e: Ingest): Windows {
    windows[e.meterId := PruneFront(WindowOf(windows, e.meterId), Cutoff(days, e.now)) + [e.reading]]
  }

  // ---- Runs ----

  /** One call of `ingest_reading`, with the clock value it read. */
  datatype Ingest = Ingest(meterId: string, reading: Reading, now: int)

  function WindowsAfter(days: int, log: seq<Ingest>): Windows {
    if log == [] then map[]
    else IngestInto(WindowsAfter(days, log[..|log| - 1]), days, log[|log| - 1])
  }

  function Window(days: int, log: seq<Ingest>, meterId: string): seq<Reading> {
    WindowOf(WindowsAfter(days, log), meterId)
  }

  /** Every reading ever ingested for the meter, oldest call first. */
  function History(log: seq<Ingest>, meterId: string): seq<Reading> {
    if log == [] then []
    else
      var e := log[|log| - 1];
      History(log[..|log| - 1], meterId) + if e.meterId == meterId then [e.reading] else []
  }

  /** The cutoff computed by the meter's most recent ingest. */
  function LastCutoff(days: int, log: seq<Ingest>, meterId: string): int
    requires History(log, meterId) != []
  {
    var e := log[|log| - 1];
    if e.meterId == meterId then Cutoff(days, e.now) else LastCutoff(days, log[..|log| - 1], meterId)
  }

  ghost predicate MonotoneClock(log: seq<Ingest>) {
    forall i, j :: 0 <= i < j < |log| ==> log[i].now <= log[j].now
  }

  ghost predicate InTimeOrder(h: seq<Reading>) {
    forall i, j :: 0 <= i < j < |h| ==> h[i].timestamp.nanos <= h[j].timestamp.nanos
  }

  // ---- Pruning ----

  lemma {:induction false} PruneIsSuffix(w: seq<Reading>, cutoff: int)
    ensures |PruneFront(w, cutoff)| <= |w|
    ensures PruneFront(w, cutoff) == w[|w| - |PruneFront(w, cutoff)|..]
    ensures forall i :: 0 <= i < |w| - |PruneFront(w, cutoff)| ==> Stale(w[i], cutoff)
  {
    if w != [] && Stale(w[0], cutoff) {
      PruneIsSuffix(w[1..], cutoff);
    }
  }

  /** A later, higher cutoff makes an earlier pruning unobservable. */
  lemma {:induction false} PruneAbsorbs(a: seq<Reading>, b: seq<Reading>, c1: int, c2: int)
    requires c1 <= c2
    ensures PruneFront(PruneFront(a, c1) + b, c2) == PruneFront(a + b, c2)
  {
    if a != [] && Stale(a[0], c1) {
      assert (a + b)[1..] == a[1..] + b;
      PruneAbsorbs(a[1..], b, c1, c2);
    }
  }

  lemma WindowStep(days: int, log: seq<Ingest>, meterId: string)
    requires log != []
    ensures var before, e := log[..|log| - 1], log[|log| - 1];
            Window(days, log, meterId)
            == if e.meterId == meterId
               then PruneFront(Window(days, before, meterId), Cutoff(days, e.now)) + [e.reading]
               else Window(days, before, meterId)
  {
  }

  ghost predicate IsSuffix(w: seq<Reading>, h: seq<Reading>) {
    |w| <= |h| && w == h[|h| - |w|..]
  }

  lemma SuffixTransitive(v: seq<Reading>, w: seq<Reading>, h: seq<Reading>, r: Reading)
    requires IsSuffix(v, w) && IsSuffix(w, h)
    ensures IsSuffix(v + [r], h + [r])
  {
  }

  // ---- Any clock, any order ----

  /** A deque is a contiguous suffix of its meter's ingest history, ending in the newest reading. */
  lemma {:induction false} WindowIsSuffixOfHistory(days: int, log: seq<Ingest>, meterId: string)
    ensures IsSuffix(Window(days, log, meterId), History(log, meterId))
    ensures History(log, meterId) != [] ==> Window(days, log, meterId) != []
  {
    if log != [] {
      var before, e := log[..|log| - 1], log[|log| - 1];
      var w := Window(days, before, meterId);
      WindowIsSuffixOfHistory(days, before, meterId);
      WindowStep(days, log, meterId);
      if e.meterId == meterId {
        PruneIsSuffix(w, Cutoff(days, e.now));
        SuffixTransitive(PruneFront(w, Cutoff(days, e.now)), w, History(before, meterId), e.reading);
      }
    }
  }

  /** The k-th call came after the i-th reading of the meter and computed a cutoff above it. */
  ghost predicate Evicts(days: int, log: seq<Ingest>, meterId: string, i: nat, k: nat) {
    && k < |log| && log[k].meterId == meterId
    && i < |History(log[..k], meterId)| && i < |History(log, meterId)|
    && Stale(History(log, meterId)[i], Cutoff(days, log[k].now))
  }

  /** Whatever the clock and the order, a reading leaves its deque only because some later
      ingest of that meter computed a cutoff above it. */
  lemma {:induction false} OnlyStaleReadingsAreLost(days: int, log: seq<Ingest>, meterId: string, i: nat) returns (k: nat)
    requires i < |History(log, meterId)| - |Window(days, log, meterId)|
    ensures Evicts(days, log, meterId, i, k)
  {
    var n := |log| - 1;
    var before, e := log[..n], log[n];
    var w, h := Window(days, before, meterId), History(before, meterId);
    WindowIsSuffixOfHistory(days, before, meterId);
    if e.meterId == meterId && i >= |h| - |w| {
      PruneIsSuffix(w, Cutoff(days, e.now));
      assert h[i] == w[i - (|h| - |w|)];
      k := n;
    } else {
      k := OnlyStaleReadingsAreLost(days, before, meterId, i);
      assert before[..k] == log[..k];
      hide Stale, Cutoff;
    }
  }

  // ---- Monotone clock ----

  lemma {:induction false} LastCutoffIsBounded(days: int, log: seq<Ingest>, meterId: string, now: int)
    requires History(log, meterId) != []
    requires forall i :: 0 <= i < |log| ==> log[i].now <= now
    ensures LastCutoff(days, log, meterId) <= Cutoff(days, now)
  {
    if log[|log| - 1].meterId != meterId {
      LastCutoffIsBounded(days, log[..|log| - 1], meterId, now);
    }
  }

  /** Under a monotone clock the whole sequence of prunings collapses into one
      pruning of the full history by the last cutoff. */
  lemma {:induction false} WindowIsPrunedHistory(days: int, log: seq<Ingest>, meterId: string)
    requires MonotoneClock(log) && History(log, meterId) != []
    ensures var h := History(log, meterId);
            Window(days, log, meterId) == PruneFront(h[..|h| - 1], LastCutoff(days, log, meterId)) + [h[|h| - 1]]
  {
    var before, e := log[..|log| - 1], log[|log| - 1];
    var h := History(before, meterId);
    WindowStep(days, log, meterId);
    if e.meterId != meterId {
      assert History(log, meterId) == h;
      WindowIsPrunedHistory(days, before, meterId);
    } else {
      assert History(log, meterId)[..|h|] == h;
      WindowIsSuffixOfHistory(days, before, meterId);
      if h != [] {
        WindowIsPrunedHistory(days, before, meterId);
        LastCutoffIsBounded(days, before, meterId, e.now);
        var n := |h| - 1;
        PruneAbsorbs(h[..n], [h[n]], LastCutoff(days, before, meterId), Cutoff(days, e.now));
        assert h[..n] + [h[n]] == h;
      }
    }
  }

  // ---- Against the naive filter ----

  function Fresh(h: seq<Reading>, cutoff: int): (r: seq<Reading>)
    ensures |r| <= |h|
  {
    if h == [] then [] else (if Stale(h[0], cutoff) then [] else [h[0]]) + Fresh(h[1..], cutoff)
  }

  /** No stale reading was ingested after one that is still fresh. */
  predicate NoStaleBehindFresh(h: seq<Reading>, cutoff: int) {
    forall i, j :: 0 <= i < j < |h| && !Stale(h[i], cutoff) ==> !Stale(h[j], cutoff)
  }

  lemma {:induction false} FreshKeepsAll(h: seq<Reading>, cutoff: int)
    ensures |Fresh(h, cutoff)| == |h| <==> forall i :: 0 <= i < |h| ==> !Stale(h[i], cutoff)
    ensures |Fresh(h, cutoff)| == |h| ==> Fresh(h, cutoff) == h
  {
    if h != [] {
      FreshKeepsAll(h[1..], cutoff);
    }
  }

  lemma {:induction false} PruneIsFilter(h: seq<Reading>, cutoff: int)
    ensures PruneFront(h, cutoff) == Fresh(h, cutoff) <==> NoStaleBehindFresh(h, cutoff)
  {
    if h != [] {
      if Stale(h[0], cutoff) {
        PruneIsFilter(h[1..], cutoff);
        assert NoStaleBehindFresh(h, cutoff) <==> NoStaleBehindFresh(h[1..], cutoff) by {
          assert forall i :: 0 < i < |h| ==> h[i] == h[1..][i - 1];
          assert forall i :: 0 <= i < |h[1..]| ==> h[1..][i] == h[i + 1];
        }
      } else {
        FreshKeepsAll(h, cutoff);
      }
    }
  }

  /** Under a monotone clock the deque is the naive filter of all earlier readings
      followed by the newest one, exactly when no stale reading hides behind a fresh one. */
  lemma WindowIsNaiveFilterIff(days: int, log: seq<Ingest>, meterId: string)
    requires MonotoneClock(log) && History(log, meterId) != []
    ensures var h, c := History(log, meterId), LastCutoff(days, log, meterId);
            Window(days, log, meterId) == Fresh(h[..|h| - 1], c) + [h[|h| - 1]]
            <==> NoStaleBehindFresh(h[..|h| - 1], c)
  {
    var h, c, w := History(log, meterId), LastCutoff(days, log, meterId), Window(days, log, meterId);
    WindowIsPrunedHistory(days, log, meterId);
    PruneIsFilter(h[..|h| - 1], c);
    assert w[..|w| - 1] == PruneFront(h[..|h| - 1], c);
    if w == Fresh(h[..|h| - 1], c) + [h[|h| - 1]] {
      assert w[..|w| - 1] == Fresh(h[..|h| - 1], c);
    }
  }

  lemma OrderedWindowIsNaiveFilter(days: int, log: seq<Ingest>, meterId: string)
    requires MonotoneClock(log) && History(log, meterId) != [] && InTimeOrder(History(log, meterId))
    ensures var h, c := History(log, meterId), LastCutoff(days, log, meterId);
            Window(days, log, meterId) == Fresh(h[..|h| - 1], c) + [h[|h| - 1]]
  {
    WindowIsNaiveFilterIff(days, log, meterId);
  }

  // ---- In terms of timestamps ----

  /** For any clock and order: a reading that no later ingest of its meter sees more than
      the window's days behind its clock is in the deque, where the suffix puts it. */
  lemma RecentReadingsAreKept(days: int, log: seq<Ingest>, meterId: string, i: nat)
    requires i < |History(log, meterId)|
    requires forall k: nat :: k < |log| && log[k].meterId == meterId && i < |History(log[..k], meterId)| ==>
               History(log, meterId)[i].timestamp.nanos >= log[k].now - days * 86_400_000_000_000
    ensures var h, w := History(log, meterId), Window(days, log, meterId);
            |h| - |w| <= i && w[i - (|h| - |w|)] == h[i]
  {
    WindowIsSuffixOfHistory(days, log, meterId);
    if i < |History(log, meterId)| - |Window(days, log, meterId)| {
      var k := OnlyStaleReadingsAreLost(days, log, meterId, i);
      assert false;
    }
  }

  lemma {:induction false} FreshIsNotStale(h: seq<Reading>, cutoff: int)
    ensures forall j :: 0 <= j < |Fresh(h, cutoff)| ==> !Stale(Fresh(h, cutoff)[j], cutoff)
  {
    if h != [] {
      FreshIsNotStale(h[1..], cutoff);
    }
  }

  lemma {:induction false} LastCutoffIsHighest(days: int, log: seq<Ingest>, meterId: string, k: nat)
    requires MonotoneClock(log) && k < |log| && log[k].meterId == meterId
    ensures History(log, meterId) != [] && Cutoff(days, log[k].now) <= LastCutoff(days, log, meterId)
  {
    var n := |log| - 1;
    if k < n {
      assert log[..n][k] == log[k];
      LastCutoffIsHighest(days, log[..n], meterId, k);
    }
  }

  /** With a monotone clock and readings in time order, every entry but the newest is within
      the window's days of the clock at each ingest of the meter, the latest included. */
  lemma KeptReadingsAreRecent(days: int, log: seq<Ingest>, meterId: string, j: nat, k: nat)
    requires MonotoneClock(log) && InTimeOrder(History(log, meterId))
    requires j < |Window(days, log, meterId)| - 1 && k < |log| && log[k].meterId == meterId
    ensures Window(days, log, meterId)[j].timestamp.nanos >= log[k].now - days * 86_400_000_000_000
  {
    LastCutoffIsHighest(days, log, meterId, k);
    OrderedWindowIsNaiveFilter(days, log, meterId);
    var h, c := History(log, meterId), LastCutoff(days, log, meterId);
    FreshIsNotStale(h[..|h| - 1], c);
    hide History, Window, Fresh, LastCutoff;
  }

  /** Readings that arrive newest first outlive the window: with a 30-day window
      and one clock value, a 40-day-old reading stays behind a fresh one. */
  lemma NewestFirstKeepsStaleReading(v: real)
    ensures var day := NANOS_PER_DAY;
            var recent := Reading(Timestamp(99 * day, 0), v, None);
            var aged := Reading(Timestamp(60 * day, 0), v, None);
            var log := [Ingest("m", recent, 100 * day), Ingest("m", aged, 100 * day), Ingest("m", recent, 100 * day)];
            MonotoneClock(log) && Stale(aged, LastCutoff(30, log, "m")) && aged in Window(30, log, "m")
  {
    var day := NANOS_PER_DAY;
    var recent := Reading(Timestamp(99 * day, 0), v, None);
    var aged := Reading(Timestamp(60 * day, 0), v, None);
    var e, f := Ingest("m", recent, 100 * day), Ingest("m", aged, 100 * day);
    assert [e, f, e][..2] == [e, f] && [e, f][..1] == [e] && [e][..0] == [];
    WindowStep(30, [e], "m");
    WindowStep(30, [e, f], "m");
    WindowStep(30, [e, f, e], "m");
    assert Window(30, [e, f, e], "m") == [recent, aged, recent];
    assert History([e, f, e], "m") == History([e, f], "m") + [recent];
  }
}
