/** apps/web/src/lib/funnel.ts: the checkout funnel, its loops against the sets of sessions they
    count. Percentages are exact reals. */
module Funnel {
  import opened Wrappers
  import Sets

  const FUNNEL_STEPS := ["checkout_opened", "wallet_connected", "authorization_approved", "payment_settled"]
  const N := 4

  datatype Event = Event(sessionId: string, step: string, ts: int, device: string, wallet: string)

  /** `from` is inclusive and `to` is exclusive. */
  datatype DateRange = DateRange(from: int, to: int)

  /** An absent filter is the empty string, as the source's truthiness test treats both alike. */
  datatype Filters = Filters(range: Option<DateRange>, device: string, wallet: string)

  datatype Step = Step(key: string, count: nat, fromPrevious: real, fromStart: real, dropOff: real)

  datatype FunnelResult = FunnelResult(steps: seq<Step>, bottleneck: Option<Step>, overall: real)

  datatype Dimension = ByDevice | ByWallet

  datatype Segment = Segment(name: string, funnel: FunnelResult)

  function Percent(part: nat, whole: nat): real {
    if whole > 0 then part as real / whole as real * 100.0 else 0.0
  }

  /** The index of a known step; a newer client may send others. */
  function StepIndex(step: string): (i: Option<nat>)
    ensures i.Some? <==> step in FUNNEL_STEPS
    ensures i.Some? ==> i.value < N && FUNNEL_STEPS[i.value] == step
  {
    if step == FUNNEL_STEPS[0] then Some(0)
    else if step == FUNNEL_STEPS[1] then Some(1)
    else if step == FUNNEL_STEPS[2] then Some(2)
    else if step == FUNNEL_STEPS[3] then Some(3)
    else None
  }

  predicate Matches(e: Event, filters: Filters) {
    (filters.range.None? || filters.range.value.from <= e.ts < filters.range.value.to) &&
    (filters.device == "" || e.device == filters.device) &&
    (filters.wallet == "" || e.wallet == filters.wallet)
  }

  function FilterEvents(events: seq<Event>, filters: Filters): seq<Event> {
    if events == [] then []
    else (if Matches(events[0], filters) then [events[0]] else []) + FilterEvents(events[1..], filters)
  }

  /** The filter keeps exactly the events from the range's start up to before its end, of the device and of the
      wallet, where one is given. */
  lemma FilteredExactly(events: seq<Event>, filters: Filters, e: Event)
    ensures e in FilterEvents(events, filters) <==>
            && e in events
            && (filters.range.Some? ==> filters.range.value.from <= e.ts && e.ts < filters.range.value.to)
            && (filters.device != "" ==> e.device == filters.device)
            && (filters.wallet != "" ==> e.wallet == filters.wallet)
  {
    FilterMembers(events, filters, e);
  }

  lemma {:induction false} FilterMembers(events: seq<Event>, filters: Filters, e: Event)
    ensures e in FilterEvents(events, filters) <==> e in events && Matches(e, filters)
  {
    hide Matches;
    if events != [] { FilterMembers(events[1..], filters, e); }
  }

  /* ----- what the counts mean ----- */

  predicate ReachedStep(e: Event, i: nat) {
    StepIndex(e.step).Some? && StepIndex(e.step).value >= i
  }

  /** The sessions with an event at step `i` or a later one. */
  function SessionsAt(events: seq<Event>, i: nat): set<string> {
    set e | e in events && ReachedStep(e, i) :: e.sessionId
  }

  /** A session is counted at a step if one of its events is at that step or at a later one. */
  lemma SessionsAtExactly(events: seq<Event>, i: nat, s: string)
    requires i < 4
    ensures s in SessionsAt(events, i) <==>
            exists e :: e in events && e.sessionId == s && e.step in
              ["checkout_opened", "wallet_connected", "authorization_approved", "payment_settled"][i..]
  {
    forall e ensures ReachedStep(e, i) <==> e.step in FUNNEL_STEPS[i..] {
      ReachedStepExactly(e, i);
    }
    hide ReachedStep;
  }

  lemma ReachedStepExactly(e: Event, i: nat)
    requires i < N
    ensures ReachedStep(e, i) <==> e.step in FUNNEL_STEPS[i..]
  {
    if ReachedStep(e, i) { assert FUNNEL_STEPS[i..][StepIndex(e.step).value - i] == e.step; }
  }

  function Reached(events: seq<Event>): (r: seq<nat>)
    ensures |r| == N
  {
    seq(N, i requires 0 <= i < N => |SessionsAt(events, i)|)
  }

  function StepOf(reached: seq<nat>, i: nat): Step
    requires |reached| == N && i < N
  {
    var previous := if i == 0 then reached[0] else reached[i - 1];
    var fromPrevious := Percent(reached[i], previous);
    Step(FUNNEL_STEPS[i], reached[i], fromPrevious, Percent(reached[i], reached[0]),
         if previous > 0 then 100.0 - fromPrevious else 0.0)
  }

  function StepsOf(reached: seq<nat>): (steps: seq<Step>)
    requires |reached| == N
    ensures |steps| == N
  {
    seq(N, i requires 0 <= i < N => StepOf(reached, i))
  }

  function Worse(best: Option<Step>, step: Step): Option<Step> {
    if step.dropOff > 0.0 && (best.None? || step.dropOff > best.value.dropOff) then Some(step) else best
  }

  /** The worst drop among the steps after the first, scanned in order. */
  function Bottleneck(steps: seq<Step>): Option<Step> {
    if |steps| <= 1 then None else Worse(Bottleneck(steps[..|steps| - 1]), steps[|steps| - 1])
  }

  function FunnelOf(events: seq<Event>, filters: Filters): FunnelResult {
    var steps := StepsOf(Reached(FilterEvents(events, filters)));
    FunnelResult(steps, Bottleneck(steps), steps[N - 1].fromStart)
  }

  /* ----- aggregateFunnel ----- */

  ghost predicate IsFurthest(events: seq<Event>, furthest: map<string, nat>) {
    (forall s :: s in furthest ==> furthest[s] < N) &&
    forall s, i: nat :: (s in furthest && furthest[s] >= i) <==> s in SessionsAt(events, i)
  }

  lemma SessionsGrow(events: seq<Event>, e: Event, i: nat)
    ensures SessionsAt(events + [e], i) == SessionsAt(events, i) + (if ReachedStep(e, i) then {e.sessionId} else {})
  {
  }

  function Furthest(furthest: map<string, nat>, e: Event): map<string, nat> {
    match StepIndex(e.step)
    case None => furthest
    case Some(idx) =>
      var before: int := if e.sessionId in furthest then furthest[e.sessionId] else -1;
      furthest[e.sessionId := if before > idx then before else idx]
  }

  lemma FurthestNext(events: seq<Event>, furthest: map<string, nat>, e: Event)
    requires IsFurthest(events, furthest)
    ensures IsFurthest(events + [e], Furthest(furthest, e))
  {
    hide StepIndex, SessionsAt;
    var next := Furthest(furthest, e);
    forall s, i: nat ensures (s in next && next[s] >= i) <==> s in SessionsAt(events + [e], i) {
      SessionsGrow(events, e, i);
      assert (s in furthest && furthest[s] >= i) <==> s in SessionsAt(events, i);
    }
  }

  /** The sessions of `done` that got to step `i`. */
  ghost function Tally(furthest: map<string, nat>, done: set<string>, i: nat): set<string> {
    set s | s in done && s in furthest && furthest[s] >= i
  }

  lemma TallyNext(furthest: map<string, nat>, done: set<string>, s: string, i: nat)
    requires s in furthest && s !in done
    ensures |Tally(furthest, done + {s}, i)| == |Tally(furthest, done, i)| + if furthest[s] >= i then 1 else 0
  {
    assert Tally(furthest, done + {s}, i) == Tally(furthest, done, i) + (if furthest[s] >= i then {s} else {});
  }

  lemma TallyIsReached(events: seq<Event>, furthest: map<string, nat>)
    requires IsFurthest(events, furthest)
    ensures forall i: nat :: i < N ==> |Tally(furthest, furthest.Keys, i)| == Reached(events)[i]
  {
    hide SessionsAt;
    forall i: nat | i < N ensures |Tally(furthest, furthest.Keys, i)| == Reached(events)[i] {
      assert Tally(furthest, furthest.Keys, i) == SessionsAt(events, i);
    }
  }

  /** The two counting loops: `furthest`, then every step up to it. */
  method CountReached(matching: seq<Event>) returns (reached: array<nat>)
    ensures fresh(reached) && reached[..] == Reached(matching)
  {
    hide IsFurthest, Furthest, Reached, Tally;
    var furthest: map<string, nat> := map[];
    assert IsFurthest([], furthest) by { NoneFurthest(); }
    assert matching[..0] == [];
    for k := 0 to |matching|
      invariant IsFurthest(matching[..k], furthest)
    {
      assert matching[..k + 1] == matching[..k] + [matching[k]];
      FurthestNext(matching[..k], furthest, matching[k]);
      furthest := Furthest(furthest, matching[k]);
    }
    assert matching[..|matching|] == matching;
    reached := new nat[N](_ => 0);
    ghost var done: set<string> := {};
    NothingTallied(furthest);
    var rest := furthest.Keys;
    while rest != {}
      invariant done !! rest && done + rest == furthest.Keys
      invariant forall i: nat :: i < N ==> reached[i] == |Tally(furthest, done, i)|
      decreases |rest|
    {
      var s :| s in rest;
      AtMostLast(matching, furthest, s);
      ghost var before := reached[..];
      for i := 0 to furthest[s] + 1
        invariant forall j: nat :: j < N ==> reached[j] == before[j] + if j < i then 1 else 0
      {
        reached[i] := reached[i] + 1;
      }
      forall i: nat | i < N ensures reached[i] == |Tally(furthest, done + {s}, i)| { TallyNext(furthest, done, s, i); }
      done := done + {s};
      rest := rest - {s};
    }
    assert done == furthest.Keys;
    TallyIsReached(matching, furthest);
  }

  lemma NoneFurthest()
    ensures IsFurthest([], map[])
  {
  }

  lemma NothingTallied(furthest: map<string, nat>)
    ensures forall i: nat :: |Tally(furthest, {}, i)| == 0
  {
  }

  lemma AtMostLast(events: seq<Event>, furthest: map<string, nat>, s: string)
    requires IsFurthest(events, furthest) && s in furthest
    ensures furthest[s] < N
  {
  }

  /** `aggregateFunnel`. */
  method AggregateFunnel(events: seq<Event>, filters: Filters) returns (result: FunnelResult)
    ensures result == FunnelOf(events, filters)
  {
    hide Reached, FilterEvents, StepOf;
    var reached := CountReached(FilterEvents(events, filters));
    var steps := StepsOf(reached[..]);
    var bottleneck: Option<Step> := None;
    for i := 1 to |steps|
      invariant bottleneck == Bottleneck(steps[..i])
    {
      assert steps[..i + 1][..i] == steps[..i];
      bottleneck := Worse(bottleneck, steps[i]);
    }
    assert steps[..|steps|] == steps;
    result := FunnelResult(steps, bottleneck, steps[N - 1].fromStart);
  }

  /* ----- properties of the result ----- */

  /** The funnel is a function of the set of events: order and duplicates do not matter. */
  lemma OrderAndDuplicatesDoNotMatter(a: seq<Event>, b: seq<Event>, filters: Filters)
    requires forall e :: e in a <==> e in b
    ensures FunnelOf(a, filters) == FunnelOf(b, filters)
  {
    hide Matches, FilterEvents, StepsOf, Bottleneck, ReachedStep;
    var p, q := FilterEvents(a, filters), FilterEvents(b, filters);
    forall e ensures e in p <==> e in q {
      FilterMembers(a, filters, e);
      FilterMembers(b, filters, e);
    }
    forall i: nat ensures SessionsAt(p, i) == SessionsAt(q, i) {}
    assert Reached(p) == Reached(q);
  }

  lemma ReachedFalls(events: seq<Event>, i: nat, j: nat)
    requires i <= j < N
    ensures Reached(events)[j] <= Reached(events)[i]
  {
    assert SessionsAt(events, j) <= SessionsAt(events, i);
    Sets.SubsetSize(SessionsAt(events, j), SessionsAt(events, i));
  }

  lemma PercentBounds(part: nat, whole: nat)
    requires part <= whole
    ensures 0.0 <= Percent(part, whole) <= 100.0
    ensures Percent(part, whole) == 100.0 <==> 0 < part == whole
  {
  }

  /** Counts never rise from step to step, every share lies between 0 and 100, and a step's drop is
      zero exactly when it lost nobody. */
  lemma FunnelNarrows(events: seq<Event>, filters: Filters, i: nat)
    requires i < N
    ensures var steps := FunnelOf(events, filters).steps;
      steps[i].count == |SessionsAt(FilterEvents(events, filters), i)| &&
      0.0 <= steps[i].fromPrevious <= 100.0 && 0.0 <= steps[i].fromStart <= 100.0 && 0.0 <= steps[i].dropOff <= 100.0 &&
      (i > 0 ==> steps[i].count <= steps[i - 1].count) &&
      (i > 0 ==> (steps[i].dropOff > 0.0 <==> steps[i].count < steps[i - 1].count))
  {
    hide FilterEvents, SessionsAt, Bottleneck, Percent;
    var reached := Reached(FilterEvents(events, filters));
    var previous := if i == 0 then 0 else i - 1;
    ReachedFalls(FilterEvents(events, filters), previous, i);
    ReachedFalls(FilterEvents(events, filters), 0, i);
    PercentBounds(reached[i], reached[previous]);
    PercentBounds(reached[i], reached[0]);
  }

  /** What the percentages say of the counts, without division: every share times its whole is a hundred
      times its part, and what a step keeps and what it drops make a hundred. */
  lemma SharesAreExact(events: seq<Event>, filters: Filters, i: nat)
    requires 0 < i < N
    ensures var steps := FunnelOf(events, filters).steps;
      steps[i].key == FUNNEL_STEPS[i] &&
      steps[i].fromPrevious * steps[i - 1].count as real == 100.0 * steps[i].count as real &&
      steps[i].fromStart * steps[0].count as real == 100.0 * steps[i].count as real &&
      (steps[i - 1].count > 0 ==> steps[i].fromPrevious + steps[i].dropOff == 100.0) &&
      FunnelOf(events, filters).overall == steps[N - 1].fromStart
  {
    hide FilterEvents, SessionsAt, Bottleneck, Percent;
    var reached := Reached(FilterEvents(events, filters));
    ReachedFalls(FilterEvents(events, filters), i - 1, i);
    ReachedFalls(FilterEvents(events, filters), 0, i);
    PercentTimesWhole(reached[i], reached[i - 1]);
    PercentTimesWhole(reached[i], reached[0]);
  }

  /** The first step keeps everyone it has, and a step after an empty one shows no shares. */
  lemma FirstAndEmptySteps(events: seq<Event>, filters: Filters, i: nat)
    requires i < N
    ensures var steps := FunnelOf(events, filters).steps;
      && steps[0].key == FUNNEL_STEPS[0] && steps[0].dropOff == 0.0
      && steps[0].fromPrevious == steps[0].fromStart == (if steps[0].count > 0 then 100.0 else 0.0)
      && (i > 0 && steps[i - 1].count == 0 ==> steps[i].fromPrevious == steps[i].dropOff == 0.0)
      && (steps[0].count == 0 ==> steps[i].fromStart == 0.0)
  {
    hide SessionsAt, FilterEvents;
    PercentBounds(Reached(FilterEvents(events, filters))[0], Reached(FilterEvents(events, filters))[0]);
  }

  lemma PercentTimesWhole(part: nat, whole: nat)
    requires part <= whole
    ensures Percent(part, whole) * whole as real == 100.0 * part as real
  {
  }

  ghost predicate IsBottleneck(steps: seq<Step>, worst: Option<Step>) {
    match worst
    case None => forall i :: 1 <= i < |steps| ==> steps[i].dropOff <= 0.0
    case Some(w) => exists k :: 1 <= k < |steps| && IsEarliestWorst(steps, k) && steps[k] == w
  }

  ghost predicate IsEarliestWorst(steps: seq<Step>, k: nat)
    requires k < |steps|
  {
    steps[k].dropOff > 0.0 &&
    (forall i :: 1 <= i < k ==> steps[i].dropOff < steps[k].dropOff) &&
    (forall i :: k <= i < |steps| ==> steps[i].dropOff <= steps[k].dropOff)
  }

  /** Adding a step either leaves the earliest worst one or replaces it. */
  lemma EarliestWorstExtends(steps: seq<Step>, n: nat, k: nat)
    requires 1 <= k < n == |steps| - 1 && IsEarliestWorst(steps[..n], k)
    ensures IsEarliestWorst(steps, if steps[n].dropOff > steps[k].dropOff then n else k)
  {
  }

  lemma FirstDrop(steps: seq<Step>, n: nat)
    requires 1 <= n == |steps| - 1 && steps[n].dropOff > 0.0
    requires forall i :: 1 <= i < n ==> steps[..n][i].dropOff <= 0.0
    ensures IsEarliestWorst(steps, n)
  {
    assert forall i :: 0 <= i < n ==> steps[..n][i] == steps[i];
  }

  lemma BottleneckAt(steps: seq<Step>, k: nat)
    requires 1 <= k < |steps| && IsEarliestWorst(steps, k)
    ensures IsBottleneck(steps, Some(steps[k])) && steps[k].dropOff > 0.0
  {
  }

  /** The bottleneck is the earliest step after the first with the largest positive drop, and there is
      none exactly when nothing was lost. */
  lemma {:induction false} BottleneckIsEarliestWorst(steps: seq<Step>)
    ensures IsBottleneck(steps, Bottleneck(steps))
    decreases |steps|
  {
    if |steps| > 1 {
      var before := steps[..|steps| - 1];
      BottleneckIsEarliestWorst(before);
      WorseIsBottleneck(steps, Bottleneck(before));
    }
  }

  lemma WorseIsBottleneck(steps: seq<Step>, worst: Option<Step>)
    requires |steps| > 1 && IsBottleneck(steps[..|steps| - 1], worst)
    ensures IsBottleneck(steps, Worse(worst, steps[|steps| - 1]))
  {
    hide IsEarliestWorst;
    var n := |steps| - 1;
    var before := steps[..n];
    assert forall i :: 0 <= i < n ==> steps[i] == before[i];
    if worst.Some? {
      var k :| 1 <= k < |before| && IsEarliestWorst(before, k) && before[k] == worst.value;
      EarliestWorstExtends(steps, n, k);
      BottleneckAt(before, k);
      BottleneckAt(steps, if steps[n].dropOff > steps[k].dropOff then n else k);
    } else if steps[n].dropOff > 0.0 {
      FirstDrop(steps, n);
    }
  }

  lemma RatioChain(a: nat, b: nat, c: nat)
    requires c <= b <= a
    ensures Percent(c, a) * 100.0 == Percent(c, b) * Percent(b, a)
  {
  }

  /** Conversion multiplies along the funnel: the share kept from the start is the share kept up to the
      previous step times the share kept from it. */
  lemma ConversionMultiplies(events: seq<Event>, filters: Filters, i: nat)
    requires 0 < i < N
    ensures var steps := FunnelOf(events, filters).steps;
      steps[i].fromStart * 100.0 == steps[i].fromPrevious * steps[i - 1].fromStart
  {
    hide FilterEvents, SessionsAt, Bottleneck, Percent;
    var reached := Reached(FilterEvents(events, filters));
    ReachedFalls(FilterEvents(events, filters), i - 1, i);
    ReachedFalls(FilterEvents(events, filters), 0, i - 1);
    RatioChain(reached[0], reached[i - 1], reached[i]);
  }

  /* ----- segments ----- */

  function ValueOf(e: Event, dim: Dimension): string {
    match dim case ByDevice => e.device case ByWallet => e.wallet
  }

  function WithValue(filters: Filters, dim: Dimension, value: string): Filters {
    match dim case ByDevice => filters.(device := value) case ByWallet => filters.(wallet := value)
  }

  /** The distinct values in order of first appearance, as `[...new Set(values)]` lists them. */
  function DistinctValues(events: seq<Event>, dim: Dimension): seq<string> {
    if events == [] then []
    else
      var before := DistinctValues(events[..|events| - 1], dim);
      var value := ValueOf(events[|events| - 1], dim);
      if value in before then before else before + [value]
  }

  lemma {:induction false} DistinctValuesList(events: seq<Event>, dim: Dimension)
    ensures forall i, j :: 0 <= i < j < |DistinctValues(events, dim)| ==>
            DistinctValues(events, dim)[i] != DistinctValues(events, dim)[j]
    ensures forall v :: v in DistinctValues(events, dim) <==> exists e :: e in events && ValueOf(e, dim) == v
  {
    hide ValueOf;
    if events != [] {
      var before, last := events[..|events| - 1], events[|events| - 1];
      DistinctValuesList(before, dim);
      assert events == before + [last];
      forall v ensures v in DistinctValues(events, dim) <==> exists e :: e in events && ValueOf(e, dim) == v {
        if v in DistinctValues(before, dim) {
          var e :| e in before && ValueOf(e, dim) == v;
          assert e in events;
        }
        if e :| e in events && ValueOf(e, dim) == v {
          assert e in before || e == last;
        }
      }
    }
  }

  type Collation = (string, string) -> int

  function Audience(s: Segment): int {
    if s.funnel.steps == [] then 0 else s.funnel.steps[0].count
  }

  /** The comparator of the sort: larger audience first, then by the collation of the labels. */
  function Compare(collate: Collation, a: Segment, b: Segment): int {
    if Audience(a) != Audience(b) then Audience(b) - Audience(a) else collate(a.name, b.name)
  }

  function InsertSegment(collate: Collation, s: Segment, sorted: seq<Segment>): seq<Segment> {
    if sorted == [] || Compare(collate, s, sorted[0]) <= 0 then [s] + sorted
    else [sorted[0]] + InsertSegment(collate, s, sorted[1..])
  }

  function SortSegments(collate: Collation, segments: seq<Segment>): seq<Segment> {
    if segments == [] then [] else InsertSegment(collate, segments[0], SortSegments(collate, segments[1..]))
  }

  function SegmentOf(events: seq<Event>, dim: Dimension, filters: Filters, value: string): Segment {
    Segment(value, FunnelOf(events, WithValue(filters, dim, value)))
  }

  function SegmentsOf(events: seq<Event>, dim: Dimension, filters: Filters, values: seq<string>): seq<Segment> {
    if values == [] then []
    else [SegmentOf(events, dim, filters, values[0])] + SegmentsOf(events, dim, filters, values[1..])
  }

  /** `segmentFunnel`: one funnel per value among the matching events. */
  function SegmentFunnel(collate: Collation, events: seq<Event>, dim: Dimension, filters: Filters): seq<Segment> {
    SortSegments(collate, SegmentsOf(events, dim, filters, DistinctValues(FilterEvents(events, filters), dim)))
  }

  function CountAt(s: Segment, i: nat): nat {
    if i < |s.funnel.steps| then s.funnel.steps[i].count else 0
  }

  function TotalAt(segments: seq<Segment>, i: nat): nat {
    if segments == [] then 0 else CountAt(segments[0], i) + TotalAt(segments[1..], i)
  }

  predicate LargestFirst(segments: seq<Segment>) {
    forall i, j :: 0 <= i < j < |segments| ==> Audience(segments[i]) >= Audience(segments[j])
  }

  lemma {:induction false} InsertKeepsAll(collate: Collation, s: Segment, sorted: seq<Segment>, i: nat)
    ensures multiset(InsertSegment(collate, s, sorted)) == multiset(sorted) + multiset{s}
    ensures TotalAt(InsertSegment(collate, s, sorted), i) == CountAt(s, i) + TotalAt(sorted, i)
  {
    hide Compare, CountAt;
    if sorted != [] && Compare(collate, s, sorted[0]) > 0 {
      InsertKeepsAll(collate, s, sorted[1..], i);
      assert sorted == [sorted[0]] + sorted[1..];
    } else {
      assert ([s] + sorted)[1..] == sorted;
    }
  }

  lemma {:induction false} InsertKeepsLargestFirst(collate: Collation, s: Segment, sorted: seq<Segment>)
    requires LargestFirst(sorted)
    ensures LargestFirst(InsertSegment(collate, s, sorted))
  {
    hide Audience;
    if sorted != [] && Compare(collate, s, sorted[0]) > 0 {
      InsertKeepsLargestFirst(collate, s, sorted[1..]);
      InsertKeepsAll(collate, s, sorted[1..], 0);
      var out := InsertSegment(collate, s, sorted[1..]);
      forall j | 0 <= j < |out| ensures Audience(sorted[0]) >= Audience(out[j]) {
        assert out[j] in multiset(sorted[1..]) + multiset{s};
      }
    }
  }

  /** The sort puts the largest audience first and neither adds nor loses a segment. */
  lemma {:induction false} SegmentsAreSorted(collate: Collation, segments: seq<Segment>, i: nat)
    ensures LargestFirst(SortSegments(collate, segments))
    ensures multiset(SortSegments(collate, segments)) == multiset(segments)
    ensures TotalAt(SortSegments(collate, segments), i) == TotalAt(segments, i)
  {
    hide InsertSegment, LargestFirst, CountAt;
    if segments == [] {
      assert LargestFirst([]) by { NoSegments(); }
    } else {
      var rest := SortSegments(collate, segments[1..]);
      SegmentsAreSorted(collate, segments[1..], i);
      InsertKeepsAll(collate, segments[0], rest, i);
      InsertKeepsLargestFirst(collate, segments[0], rest);
      assert segments == [segments[0]] + segments[1..];
    }
  }

  /** The locale compares any two names, and consistently. */
  ghost predicate IsCollation(collate: Collation) {
    (forall a, b :: collate(a, b) <= 0 || collate(b, a) <= 0) &&
    (forall a, b, c :: collate(a, b) <= 0 && collate(b, c) <= 0 ==> collate(a, c) <= 0)
  }

  /** Largest audience first, and segments of one size by name. */
  ghost predicate Ranked(collate: Collation, segments: seq<Segment>) {
    forall i, j :: 0 <= i < j < |segments| ==>
      Audience(segments[i]) > Audience(segments[j]) ||
      (Audience(segments[i]) == Audience(segments[j]) && collate(segments[i].name, segments[j].name) <= 0)
  }

  lemma {:induction false} SegmentsAreRanked(collate: Collation, segments: seq<Segment>)
    requires IsCollation(collate)
    ensures Ranked(collate, SortSegments(collate, segments))
  {
    hide Ranked;
    if segments == [] {
      assert Ranked(collate, []) by { NoneRanked(collate); }
    } else {
      SegmentsAreRanked(collate, segments[1..]);
      InsertKeepsRanked(collate, segments[0], SortSegments(collate, segments[1..]));
    }
  }

  lemma NoneRanked(collate: Collation)
    ensures Ranked(collate, [])
  {
  }

  lemma {:induction false} InsertKeepsRanked(collate: Collation, s: Segment, sorted: seq<Segment>)
    requires IsCollation(collate) && Ranked(collate, sorted)
    ensures Ranked(collate, InsertSegment(collate, s, sorted))
  {
    hide Audience;
    if sorted == [] || Compare(collate, s, sorted[0]) <= 0 {
      assert InsertSegment(collate, s, sorted) == [s] + sorted;
    } else {
      InsertKeepsRanked(collate, s, sorted[1..]);
      InsertKeepsAll(collate, s, sorted[1..], 0);
      var out := InsertSegment(collate, s, sorted[1..]);
      forall j | 0 <= j < |out|
        ensures Audience(sorted[0]) > Audience(out[j]) ||
                (Audience(sorted[0]) == Audience(out[j]) && collate(sorted[0].name, out[j].name) <= 0)
      {
        assert out[j] in multiset(sorted[1..]) + multiset{s};
      }
    }
  }

  lemma NoSegments()
    ensures LargestFirst([])
  {
  }

  /* ----- do the segments add up to the whole? ----- */

  /** The sessions that the segment of a value counts at step `i`. */
  function SegmentSessions(events: seq<Event>, dim: Dimension, filters: Filters, value: string, i: nat): set<string> {
    SessionsAt(FilterEvents(events, WithValue(filters, dim, value)), i)
  }

  function AllSegmentSessions(events: seq<Event>, dim: Dimension, filters: Filters, values: seq<string>, i: nat)
    : (r: seq<set<string>>)
    ensures |r| == |values|
  {
    seq(|values|, k requires 0 <= k < |values| => SegmentSessions(events, dim, filters, values[k], i))
  }

  /** The sessions that reached step `i` in an event with one value of the dimension. */
  function SessionsWith(matching: seq<Event>, dim: Dimension, value: string, i: nat): set<string> {
    set e | e in matching && ReachedStep(e, i) && ValueOf(e, dim) == value :: e.sessionId
  }

  function UnionOf(sets: seq<set<string>>): set<string> {
    if sets == [] then {} else sets[0] + UnionOf(sets[1..])
  }

  function Sizes(sets: seq<set<string>>): nat {
    if sets == [] then 0 else |sets[0]| + Sizes(sets[1..])
  }

  ghost predicate PairwiseDisjoint(sets: seq<set<string>>) {
    forall j, k :: 0 <= j < k < |sets| ==> sets[j] !! sets[k]
  }

  lemma {:induction false} SegmentsOfMembers(events: seq<Event>, dim: Dimension, filters: Filters,
                                             values: seq<string>, s: Segment)
    ensures s in SegmentsOf(events, dim, filters, values) <==>
            s.name in values && s.funnel == FunnelOf(events, WithValue(filters, dim, s.name))
    ensures |SegmentsOf(events, dim, filters, values)| == |values|
  {
    hide FunnelOf, WithValue;
    if values != [] {
      SegmentsOfMembers(events, dim, filters, values[1..], s);
      assert values == [values[0]] + values[1..];
      assert s.name in values <==> s.name == values[0] || s.name in values[1..];
    }
  }

  /** The segments: one for each device, or wallet, of the events that pass the filter, with the funnel of that
      one alone. */
  lemma SegmentsExactly(collate: Collation, events: seq<Event>, filters: Filters, s: Segment)
    ensures s in SegmentFunnel(collate, events, ByDevice, filters) <==>
            (exists e :: e in FilterEvents(events, filters) && e.device == s.name) &&
            s.funnel == FunnelOf(events, filters.(device := s.name))
    ensures s in SegmentFunnel(collate, events, ByWallet, filters) <==>
            (exists e :: e in FilterEvents(events, filters) && e.wallet == s.name) &&
            s.funnel == FunnelOf(events, filters.(wallet := s.name))
  {
    SegmentsOfDimension(collate, events, ByDevice, filters, s);
    SegmentsOfDimension(collate, events, ByWallet, filters, s);
    hide FunnelOf, FilterEvents, SegmentFunnel;
  }

  lemma SegmentsOfDimension(collate: Collation, events: seq<Event>, dim: Dimension, filters: Filters, s: Segment)
    ensures s in SegmentFunnel(collate, events, dim, filters) <==>
            (exists e :: e in FilterEvents(events, filters) && ValueOf(e, dim) == s.name) &&
            s.funnel == FunnelOf(events, WithValue(filters, dim, s.name))
    ensures |SegmentFunnel(collate, events, dim, filters)| == |DistinctValues(FilterEvents(events, filters), dim)|
  {
    var values := DistinctValues(FilterEvents(events, filters), dim);
    var segments := SegmentsOf(events, dim, filters, values);
    DistinctValuesList(FilterEvents(events, filters), dim);
    SegmentsOfMembers(events, dim, filters, values, s);
    SegmentsAreSorted(collate, segments, 0);
    hide FunnelOf, FilterEvents, SortSegments, DistinctValues, SegmentsOf, WithValue;
    assert |multiset(SortSegments(collate, segments))| == |multiset(segments)|;
    assert s in SortSegments(collate, segments) <==> s in multiset(SortSegments(collate, segments));
  }

  lemma {:induction false} InUnion(sets: seq<set<string>>, s: string)
    ensures s in UnionOf(sets) <==> exists k :: 0 <= k < |sets| && s in sets[k]
  {
    if sets != [] {
      InUnion(sets[1..], s);
      if k :| 0 <= k < |sets| && s in sets[k] {
        if k > 0 { assert s in sets[1..][k - 1]; }
      }
      if k :| 0 <= k < |sets[1..]| && s in sets[1..][k] { assert s in sets[k + 1]; }
    }
  }

  lemma UnionSize(a: set<string>, b: set<string>)
    ensures |a + b| <= |a| + |b|
    ensures |a + b| == |a| + |b| <==> a !! b
  {
    assert |a + b| == |a| + |b| - |a * b|;
    if a * b == {} {
      forall x | x in a ensures x !in b { assert x !in a * b; }
    } else {
      var x :| x in a * b;
      assert x in a && x in b;
    }
  }

  lemma DisjointFromAll(a: set<string>, sets: seq<set<string>>)
    ensures a !! UnionOf(sets) <==> forall k :: 0 <= k < |sets| ==> a !! sets[k]
  {
    hide UnionOf;
    if a !! UnionOf(sets) {
      forall k | 0 <= k < |sets| ensures a !! sets[k] {
        forall s | s in a ensures s !in sets[k] { InUnion(sets, s); }
      }
    }
    if forall k :: 0 <= k < |sets| ==> a !! sets[k] {
      forall s | s in a ensures s !in UnionOf(sets) { InUnion(sets, s); }
    }
  }

  lemma {:induction false} SizesAndUnion(sets: seq<set<string>>)
    ensures |UnionOf(sets)| <= Sizes(sets)
    ensures |UnionOf(sets)| == Sizes(sets) <==> PairwiseDisjoint(sets)
  {
    if sets != [] {
      hide PairwiseDisjoint;
      SizesAndUnion(sets[1..]);
      UnionSize(sets[0], UnionOf(sets[1..]));
      DisjointFromAll(sets[0], sets[1..]);
      PairwiseDisjointSplit(sets);
    }
  }

  lemma PairwiseDisjointSplit(sets: seq<set<string>>)
    requires sets != []
    ensures PairwiseDisjoint(sets) <==>
            PairwiseDisjoint(sets[1..]) && forall k :: 0 <= k < |sets[1..]| ==> sets[0] !! sets[1..][k]
  {
  }

  /** No session reached step `i` under two values. */
  ghost predicate OneValueEach(matching: seq<Event>, dim: Dimension, i: nat) {
    forall e, f ::
      e in matching && f in matching && ReachedStep(e, i) && ReachedStep(f, i) && e.sessionId == f.sessionId ==>
        ValueOf(e, dim) == ValueOf(f, dim)
  }

  /** No session reached step `i` under a value that is not empty. */
  ghost predicate OnlyEmptyValues(matching: seq<Event>, dim: Dimension, i: nat) {
    forall e :: e in matching && ReachedStep(e, i) ==> ValueOf(e, dim) == ""
  }

  /** A filter on a value that occurs, and is not empty, selects exactly the matching events with it. */
  lemma SegmentSelects(events: seq<Event>, dim: Dimension, filters: Filters, value: string, i: nat)
    requires value != "" && value in DistinctValues(FilterEvents(events, filters), dim)
    ensures SegmentSessions(events, dim, filters, value, i) ==
            SessionsWith(FilterEvents(events, filters), dim, value, i)
  {
    hide FilterEvents, DistinctValues, ReachedStep;
    var matching := FilterEvents(events, filters);
    var selected := FilterEvents(events, WithValue(filters, dim, value));
    DistinctValuesList(matching, dim);
    var sample :| sample in matching && ValueOf(sample, dim) == value;
    FilterMembers(events, filters, sample);
    forall e ensures e in selected <==> e in matching && ValueOf(e, dim) == value {
      FilterMembers(events, filters, e);
      FilterMembers(events, WithValue(filters, dim, value), e);
    }
  }

  /** The segment of the empty value is not filtered at all: it repeats the whole funnel. */
  lemma EmptyValueRepeatsTheWhole(events: seq<Event>, dim: Dimension, filters: Filters)
    requires "" in DistinctValues(FilterEvents(events, filters), dim)
    ensures SegmentOf(events, dim, filters, "").funnel == FunnelOf(events, filters)
  {
    hide FilterEvents, DistinctValues, FunnelOf;
    DistinctValuesList(FilterEvents(events, filters), dim);
    var e :| e in FilterEvents(events, filters) && ValueOf(e, dim) == "";
    FilterMembers(events, filters, e);
  }

  lemma EmptySegmentSessions(events: seq<Event>, dim: Dimension, filters: Filters, i: nat)
    requires "" in DistinctValues(FilterEvents(events, filters), dim)
    ensures SegmentSessions(events, dim, filters, "", i) == SessionsAt(FilterEvents(events, filters), i)
  {
    hide FilterEvents, DistinctValues, SessionsAt;
    DistinctValuesList(FilterEvents(events, filters), dim);
    var e :| e in FilterEvents(events, filters) && ValueOf(e, dim) == "";
    FilterMembers(events, filters, e);
  }

  lemma {:induction false} TotalIsSizes(events: seq<Event>, dim: Dimension, filters: Filters, values: seq<string>,
                                        i: nat)
    requires i < N
    ensures TotalAt(SegmentsOf(events, dim, filters, values), i) ==
            Sizes(AllSegmentSessions(events, dim, filters, values, i))
  {
    hide FilterEvents, SessionsAt, Bottleneck, Percent;
    if values != [] {
      TotalIsSizes(events, dim, filters, values[1..], i);
      var sets := AllSegmentSessions(events, dim, filters, values, i);
      assert sets[1..] == AllSegmentSessions(events, dim, filters, values[1..], i);
    }
  }

  /** What a segment of an occurring value counts: the whole for the empty value, else its own events. */
  lemma SegmentCounts(events: seq<Event>, dim: Dimension, filters: Filters, value: string, i: nat)
    requires value in DistinctValues(FilterEvents(events, filters), dim)
    ensures var matching := FilterEvents(events, filters);
            SegmentSessions(events, dim, filters, value, i) ==
            if value == "" then SessionsAt(matching, i) else SessionsWith(matching, dim, value, i)
  {
    hide FilterEvents, DistinctValues, SegmentSessions;
    if value == "" {
      EmptySegmentSessions(events, dim, filters, i);
    } else {
      SegmentSelects(events, dim, filters, value, i);
    }
  }

  lemma ValuesCover(events: seq<Event>, dim: Dimension, filters: Filters, i: nat)
    ensures var matching := FilterEvents(events, filters);
            UnionOf(AllSegmentSessions(events, dim, filters, DistinctValues(matching, dim), i)) ==
              SessionsAt(matching, i)
  {
    hide FilterEvents, DistinctValues, ReachedStep, ValueOf, UnionOf, SegmentSessions;
    var matching := FilterEvents(events, filters);
    var values := DistinctValues(matching, dim);
    var sets := AllSegmentSessions(events, dim, filters, values, i);
    DistinctValuesList(matching, dim);
    forall k | 0 <= k < |values| ensures sets[k] <= SessionsAt(matching, i) {
      SegmentCounts(events, dim, filters, values[k], i);
    }
    forall s ensures s in UnionOf(sets) <==> s in SessionsAt(matching, i) {
      InUnion(sets, s);
      if s in SessionsAt(matching, i) {
        var e :| e in matching && ReachedStep(e, i) && e.sessionId == s;
        assert ValueOf(e, dim) in values;
        var k :| 0 <= k < |values| && values[k] == ValueOf(e, dim);
        SegmentCounts(events, dim, filters, values[k], i);
        assert s in sets[k];
      }
    }
  }

  lemma DisjointMeansOneValue(events: seq<Event>, dim: Dimension, filters: Filters, i: nat)
    requires "" !in DistinctValues(FilterEvents(events, filters), dim)
    ensures var matching := FilterEvents(events, filters);
            PairwiseDisjoint(AllSegmentSessions(events, dim, filters, DistinctValues(matching, dim), i)) <==>
              OneValueEach(matching, dim, i)
  {
    hide FilterEvents, DistinctValues, ReachedStep, ValueOf, SegmentSessions;
    var matching := FilterEvents(events, filters);
    var values := DistinctValues(matching, dim);
    var sets := AllSegmentSessions(events, dim, filters, values, i);
    DistinctValuesList(matching, dim);
    forall k | 0 <= k < |values| ensures sets[k] == SessionsWith(matching, dim, values[k], i) {
      SegmentCounts(events, dim, filters, values[k], i);
    }
    if PairwiseDisjoint(sets) {
      forall e, f | e in matching && f in matching && ReachedStep(e, i) && ReachedStep(f, i) &&
             e.sessionId == f.sessionId
        ensures ValueOf(e, dim) == ValueOf(f, dim)
      {
        assert ValueOf(e, dim) in values && ValueOf(f, dim) in values;
        var j :| 0 <= j < |values| && values[j] == ValueOf(e, dim);
        var k :| 0 <= k < |values| && values[k] == ValueOf(f, dim);
        assert e.sessionId in sets[j] && e.sessionId in sets[k];
      }
    }
    if OneValueEach(matching, dim, i) {
      forall j, k | 0 <= j < k < |sets| ensures sets[j] !! sets[k] {
        forall s | s in sets[j] ensures s !in sets[k] {}
      }
    }
  }

  lemma DisjointMeansOnlyEmpty(events: seq<Event>, dim: Dimension, filters: Filters, i: nat)
    requires "" in DistinctValues(FilterEvents(events, filters), dim)
    ensures var matching := FilterEvents(events, filters);
            PairwiseDisjoint(AllSegmentSessions(events, dim, filters, DistinctValues(matching, dim), i)) <==>
              OnlyEmptyValues(matching, dim, i)
  {
    hide FilterEvents, DistinctValues, ReachedStep, ValueOf, SegmentSessions;
    var matching := FilterEvents(events, filters);
    var values := DistinctValues(matching, dim);
    var sets := AllSegmentSessions(events, dim, filters, values, i);
    DistinctValuesList(matching, dim);
    var m :| 0 <= m < |values| && values[m] == "";
    forall k | 0 <= k < |values|
      ensures sets[k] == if k == m then SessionsAt(matching, i) else SessionsWith(matching, dim, values[k], i)
    {
      SegmentCounts(events, dim, filters, values[k], i);
    }
    if PairwiseDisjoint(sets) {
      forall e | e in matching && ReachedStep(e, i) ensures ValueOf(e, dim) == "" {
        assert ValueOf(e, dim) in values;
        var k :| 0 <= k < |values| && values[k] == ValueOf(e, dim);
        assert e.sessionId in sets[k] && e.sessionId in sets[m];
      }
    }
    if OnlyEmptyValues(matching, dim, i) {
      forall k | 0 <= k < |sets| && k != m ensures sets[k] == {} {}
    }
  }

  /** When the segments' counts add up, for all inputs. At every step they add up to at least the whole
      funnel's count. Without an empty value they add up to exactly it if and only if no session
      reached the step under two values; with one, whose segment is the whole again, if and only if no
      session reached the step under any other. */
  lemma SegmentsAddUp(collate: Collation, events: seq<Event>, dim: Dimension, filters: Filters, i: nat)
    requires i < N
    ensures var whole := FunnelOf(events, filters).steps[i].count;
            var total := TotalAt(SegmentFunnel(collate, events, dim, filters), i);
            var matching := FilterEvents(events, filters);
            && whole <= total
            && (whole == total <==>
                  if exists e :: e in matching && ValueOf(e, dim) == "" then OnlyEmptyValues(matching, dim, i)
                  else OneValueEach(matching, dim, i))
  {
    hide FilterEvents, DistinctValues, SessionsAt, Bottleneck, Percent, SortSegments, SegmentsOf, PairwiseDisjoint,
         OneValueEach, OnlyEmptyValues, SegmentSessions;
    var matching := FilterEvents(events, filters);
    var values := DistinctValues(matching, dim);
    DistinctValuesList(matching, dim);
    SegmentsAreSorted(collate, SegmentsOf(events, dim, filters, values), i);
    TotalIsSizes(events, dim, filters, values, i);
    SizesAndUnion(AllSegmentSessions(events, dim, filters, values, i));
    ValuesCover(events, dim, filters, i);
    if "" in values {
      DisjointMeansOnlyEmpty(events, dim, filters, i);
    } else {
      DisjointMeansOneValue(events, dim, filters, i);
    }
  }
}
