/**
 The delivery forecast's scheduler: business-day arithmetic, and the greedy assignment of tasks to the
 engineer who is free earliest.

 A date is a day number counted from Thursday 1 January 1970; the time of day never changes.
*/
module Scheduling {

  type Day = int

  /** Sunday is 0 and Saturday is 6. */
  function Weekday(d: Day): nat {
    (d + 4) % 7
  }

  predicate Weekend(d: Day) {
    Weekday(d) == 0 || Weekday(d) == 6
  }

  /** Day 0 is a Thursday, so the third and fourth day of every week from then on are the weekend. */
  lemma WeekendDays(week: int, d: nat)
    requires d < 7
    ensures Weekend(7 * week + d) <==> d == 2 || d == 3
  {
  }

  /** Weekend days directly after `d`. */
  function Gap(d: Day): nat {
    if Weekday(d + 1) == 6 then 2 else if Weekday(d + 1) == 0 then 1 else 0
  }

  lemma GapShrinks(d: Day)
    ensures Weekend(d + 1) ==> Gap(d + 1) < Gap(d)
  {
    assert d + 5 == 7 * ((d + 5) / 7) + Weekday(d + 1);
    assert d + 6 == 7 * ((d + 6) / 7) + Weekday(d + 2);
  }

  /** One day at a time: a weekend day costs nothing, a weekday one of the `days`. */
  function AddBusinessDays(from: Day, days: int): Day
    decreases if days > 0 then days else 0, Gap(from)
  {
    if days <= 0 then from
    else
      GapShrinks(from);
      AddBusinessDays(from + 1, if Weekend(from + 1) then days else days - 1)
  }

  /** Weekdays after `from`, up to and including `last`. */
  function WorkDays(from: Day, last: Day): nat
    requires from <= last
    decreases last - from
  {
    if from == last then 0 else WorkDays(from, last - 1) + if Weekend(last) then 0 else 1
  }

  lemma {:induction false} WorkDaysSplit(a: Day, b: Day, c: Day)
    requires a <= b <= c
    ensures WorkDays(a, c) == WorkDays(a, b) + WorkDays(b, c)
    decreases c - b
  {
    if b == c {
    } else {
      WorkDaysSplit(a, b, c - 1);
    }
  }

  /** The result is the first day by which the given number of weekdays has passed. */
  lemma {:induction false} FirstDayWithEnoughWork(from: Day, days: nat)
    ensures var last := AddBusinessDays(from, days);
            && from <= last && WorkDays(from, last) == days
            && forall d | from <= d < last :: WorkDays(from, d) < days
    decreases days, Gap(from)
  {
    if days == 0 {
    } else {
      GapShrinks(from);
      var next := from + 1;
      var rest := if Weekend(next) then days else days - 1;
      FirstDayWithEnoughWork(next, rest);
      var last := AddBusinessDays(from, days);
      WorkDaysSplit(from, next, last);
      assert WorkDays(from, next) == days - rest;
      forall d | from <= d < last ensures WorkDays(from, d) < days {
        if d > from { WorkDaysSplit(from, next, d); }
      }
    }
  }

  lemma {:induction false} Composes(from: Day, a: nat, b: nat)
    ensures AddBusinessDays(AddBusinessDays(from, a), b) == AddBusinessDays(from, a + b)
    decreases a, Gap(from)
  {
    if a == 0 {
    } else {
      GapShrinks(from);
      Composes(from + 1, if Weekend(from + 1) then a else a - 1, b);
    }
  }

  lemma OneMoreDay(week: int, d: nat, k: nat)
    requires d < 7 && k < 7
    ensures var from := 7 * week + d;
            var next := (d + k + 1) % 7;
            WorkDays(from, from + k + 1) == WorkDays(from, from + k) + if next == 2 || next == 3 then 0 else 1
  {
    var next := d + k + 1;
    WeekendDays(week + next / 7, next % 7);
    assert 7 * (week + next / 7) + next % 7 == 7 * week + d + k + 1;
  }

  lemma {:induction false} WorkDaysOfAWeek(week: int, d: nat, k: nat)
    requires d < 7 && k <= 7
    ensures var from := 7 * week + d;
            WorkDays(from, from + k) == k - (if d < 2 <= d + k then 1 else 0) - (if d < 3 <= d + k then 1 else 0)
                                          - (if d + k >= 9 then 1 else 0) - (if d + k >= 10 then 1 else 0)
  {
    if k > 0 {
      WorkDaysOfAWeek(week, d, k - 1);
      OneMoreDay(week, d, k - 1);
    }
  }

  /** Five business days from a weekday are a week; from a weekend they end on the next Friday. */
  lemma FiveDaysAreAWeek(week: int, d: nat)
    requires d < 7
    ensures AddBusinessDays(7 * week + d, 5) == 7 * week + if d == 2 || d == 3 then 8 else d + 7
  {
    var from := 7 * week + d;
    var target := 7 * week + if d == 2 || d == 3 then 8 else d + 7;
    FirstDayWithEnoughWork(from, 5);
    WorkDaysOfAWeek(week, d, target - from);
    WorkDaysOfAWeek(week, d, target - from - 1);
    var last := AddBusinessDays(from, 5);
    if last < target { WorkDaysSplit(from, last, target - 1); }
  }

  /** Later by business days is later by date, and the other way round. */
  lemma StrictlyMonotone(from: Day, a: nat, b: nat)
    ensures AddBusinessDays(from, a) < AddBusinessDays(from, b) <==> a < b
  {
    if a < b { MoreIsLater(from, a, b); }
    if b < a { MoreIsLater(from, b, a); }
  }

  lemma MoreIsLater(from: Day, a: nat, b: nat)
    requires a < b
    ensures AddBusinessDays(from, a) < AddBusinessDays(from, b)
  {
    Composes(from, a, b - a);
    FirstDayWithEnoughWork(AddBusinessDays(from, a), b - a);
  }

  method AddBusinessDaysTo(from: Day, days: int) returns (d: Day)
    ensures d == AddBusinessDays(from, days)
  {
    d := from;
    var added := 0;
    while added < days
      invariant added <= days || added == 0
      invariant AddBusinessDays(d, days - added) == AddBusinessDays(from, days)
      decreases days - added, Gap(d)
    {
      GapShrinks(d);
      d := d + 1;
      if !Weekend(d) { added := added + 1; }
    }
  }

  // ------------------------------------------------------------------- list scheduling

  function Sum(xs: seq<nat>): nat {
    if xs == [] then 0 else Sum(xs[..|xs| - 1]) + xs[|xs| - 1]
  }

  function Max(xs: seq<nat>): (m: nat)
    ensures forall i | 0 <= i < |xs| :: xs[i] <= m
    ensures xs != [] ==> m in xs
    ensures xs == [] ==> m == 0
  {
    if xs == [] then 0
    else
      var n := |xs| - 1;
      if xs[n] >= Max(xs[..n]) then xs[n] else Max(xs[..n])
  }

  /** The first of the least loaded. */
  function FirstLeast(xs: seq<nat>): (e: nat)
    requires xs != []
    ensures e < |xs| && (forall f | 0 <= f < |xs| :: xs[e] <= xs[f]) && (forall f | 0 <= f < e :: xs[e] < xs[f])
  {
    if |xs| == 1 then 0
    else
      var n := |xs| - 1;
      var e := FirstLeast(xs[..n]);
      if xs[n] < xs[e] then n else e
  }

  function Loaded(loads: seq<nat>, e: nat, work: nat): seq<nat>
    requires e < |loads|
  {
    loads[e := loads[e] + work]
  }

  /** The loads of `m` workers when task `t` goes to worker `who[t]`. */
  function Loads(m: nat, work: seq<nat>, who: seq<nat>): (loads: seq<nat>)
    requires |who| == |work| && forall i | 0 <= i < |who| :: who[i] < m
    ensures |loads| == m
  {
    if work == [] then seq(m, _ => 0)
    else
      var n := |work| - 1;
      Loaded(Loads(m, work[..n], who[..n]), who[n], work[n])
  }

  /** Least-load list scheduling. */
  function Greedy(m: nat, work: seq<nat>): (who: seq<nat>)
    requires m > 0
    ensures |who| == |work| && forall i | 0 <= i < |who| :: who[i] < m
  {
    if work == [] then []
    else
      var n := |work| - 1;
      var who := Greedy(m, work[..n]);
      who + [FirstLeast(Loads(m, work[..n], who))]
  }

  lemma GreedyStep(m: nat, work: seq<nat>)
    requires m > 0 && work != []
    ensures var n := |work| - 1;
            var before := Loads(m, work[..n], Greedy(m, work[..n]));
            Loads(m, work, Greedy(m, work)) == Loaded(before, FirstLeast(before), work[n])
  {
    var n := |work| - 1;
    assert Greedy(m, work)[..n] == Greedy(m, work[..n]);
  }

  lemma {:induction false} SumAfterLoad(loads: seq<nat>, e: nat, work: nat)
    requires e < |loads|
    ensures Sum(Loaded(loads, e, work)) == Sum(loads) + work
  {
    var n := |loads| - 1;
    var after := Loaded(loads, e, work);
    if e == n {
      assert after[..n] == loads[..n];
    } else {
      assert after[..n] == Loaded(loads[..n], e, work);
      SumAfterLoad(loads[..n], e, work);
    }
  }

  lemma {:induction false} SumOfZeros(m: nat)
    ensures Sum(seq(m, _ => 0)) == 0
  {
    if m == 0 {
    } else {
      SumOfZeros(m - 1);
      assert seq(m, _ => 0)[..m - 1] == seq(m - 1, _ => 0);
    }
  }

  /** No assignment loses or invents work. */
  lemma {:induction false} WorkIsConserved(m: nat, work: seq<nat>, who: seq<nat>)
    requires |who| == |work| && forall i | 0 <= i < |who| :: who[i] < m
    ensures Sum(Loads(m, work, who)) == Sum(work)
    decreases |work|
  {
    if work == [] {
      SumOfZeros(m);
    } else {
      var n := |work| - 1;
      WorkIsConserved(m, work[..n], who[..n]);
      SumAfterLoad(Loads(m, work[..n], who[..n]), who[n], work[n]);
    }
  }

  /** No assignment finishes before its longest task does. */
  lemma {:induction false} MakespanCoversEachTask(m: nat, work: seq<nat>, who: seq<nat>, t: nat)
    requires |who| == |work| && t < |work| && forall i | 0 <= i < |who| :: who[i] < m
    ensures work[t] <= Max(Loads(m, work, who))
    decreases |work|
  {
    var n := |work| - 1;
    var before := Loads(m, work[..n], who[..n]);
    var after := Loads(m, work, who);
    assert after == Loaded(before, who[n], work[n]) && after[who[n]] in after;
    if t < n {
      MakespanCoversEachTask(m, work[..n], who[..n], t);
      var k :| 0 <= k < m && before[k] == Max(before);
      assert after[k] in after && before[k] <= after[k];
    }
  }

  ghost predicate Balanced(loads: seq<nat>, longest: nat) {
    forall e, f | 0 <= e < |loads| && 0 <= f < |loads| :: loads[e] <= loads[f] + longest
  }

  /** The least-load rule keeps any two workers within one task of each other. */
  lemma {:induction false} GreedyStaysBalanced(m: nat, work: seq<nat>, longest: nat)
    requires m > 0 && forall i | 0 <= i < |work| :: work[i] <= longest
    ensures Balanced(Loads(m, work, Greedy(m, work)), longest)
    decreases |work|
  {
    if work == [] {
    } else {
      var n := |work| - 1;
      GreedyStaysBalanced(m, work[..n], longest);
      GreedyStep(m, work);
    }
  }

  lemma OneMore(n: int, x: int)
    ensures (n + 1) * x == n * x + x
  {
  }

  lemma {:induction false} SumAtLeast(xs: seq<nat>, low: int)
    requires forall i | 0 <= i < |xs| :: xs[i] >= low
    ensures Sum(xs) >= |xs| * low
  {
    if xs == [] {
    } else {
      var n := |xs| - 1;
      SumAtLeast(xs[..n], low);
      OneMore(n, low);
    }
  }

  /** One entry is the maximum; the others are at least `low`. */
  lemma {:induction false} SumWithMax(xs: seq<nat>, low: int)
    requires xs != [] && low <= Max(xs) && forall i | 0 <= i < |xs| :: xs[i] >= low
    ensures Sum(xs) >= Max(xs) + (|xs| - 1) * low
  {
    var n := |xs| - 1;
    var front := xs[..n];
    if xs[n] == Max(xs) {
      SumAtLeast(front, low);
    } else {
      assert Max(xs) == Max(front);
      SumWithMax(front, low);
      OneMore(n - 1, low);
    }
  }

  lemma SplitMakespan(m: nat, max: nat, low: int, longest: nat)
    requires low == max - longest
    ensures m * max == max + (m - 1) * low + (m - 1) * longest
  {
    assert (m - 1) * (low + longest) == (m - 1) * low + (m - 1) * longest;
    assert m * max == (m - 1) * max + max;
  }

  /** m times the makespan of the greedy schedule is at most all the work plus m - 1 longest tasks. */
  lemma GreedyMakespan(m: nat, work: seq<nat>)
    requires m > 0
    ensures m * Max(Loads(m, work, Greedy(m, work))) <= Sum(work) + (m - 1) * Max(work)
  {
    hide Greedy, Loads, Max, Sum;
    var loads, longest := Loads(m, work, Greedy(m, work)), Max(work);
    GreedyStaysBalanced(m, work, longest);
    WorkIsConserved(m, work, Greedy(m, work));
    var low := Max(loads) - longest;
    var e :| 0 <= e < m && loads[e] == Max(loads);
    forall f | 0 <= f < m ensures loads[f] >= low {
      assert loads[e] <= loads[f] + longest;
    }
    SumWithMax(loads, low);
    SplitMakespan(m, Max(loads), low, longest);
  }

  lemma {:induction false} SumAtMost(xs: seq<nat>, high: nat)
    requires forall i | 0 <= i < |xs| :: xs[i] <= high
    ensures Sum(xs) <= |xs| * high
  {
    if xs == [] {
    } else {
      var n := |xs| - 1;
      SumAtMost(xs[..n], high);
      OneMore(n, high);
    }
  }

  /** No assignment beats the average load or its longest task. */
  lemma NoAssignmentBeats(m: nat, work: seq<nat>, who: seq<nat>)
    requires |who| == |work| && forall i | 0 <= i < |who| :: who[i] < m
    ensures Sum(work) <= m * Max(Loads(m, work, who)) && Max(work) <= Max(Loads(m, work, who))
  {
    WorkIsConserved(m, work, who);
    SumAtMost(Loads(m, work, who), Max(Loads(m, work, who)));
    if work != [] {
      var t :| 0 <= t < |work| && work[t] == Max(work);
      MakespanCoversEachTask(m, work, who, t);
    }
  }

  lemma MulMonotone(k: nat, a: nat, b: nat)
    requires a <= b
    ensures k * a <= k * b
  {
  }

  lemma MulDistributes(a: nat, b: nat, c: nat)
    ensures (a + b) * c == a * c + b * c
  {
  }

  lemma Combine(m: nat, total: nat, longest: nat, best: nat)
    requires m > 0 && total <= m * best && longest <= best
    ensures total + (m - 1) * longest <= (2 * m - 1) * best
  {
    MulMonotone(m - 1, longest, best);
    MulDistributes(m, m - 1, best);
  }

  /** The greedy schedule takes less than twice as long as any other assignment of the same tasks. */
  lemma GreedyIsWithinTwiceTheBest(m: nat, work: seq<nat>, who: seq<nat>)
    requires m > 0 && |who| == |work| && forall i | 0 <= i < |who| :: who[i] < m
    ensures m * Max(Loads(m, work, Greedy(m, work))) <= (2 * m - 1) * Max(Loads(m, work, who))
  {
    hide Greedy, Loads, Max, Sum;
    GreedyMakespan(m, work);
    NoAssignmentBeats(m, work, who);
    Combine(m, Sum(work), Max(work), Max(Loads(m, work, who)));
  }

  // ----------------------------------------------------------------- one simulated run

  /** A duration of zero or less takes no business day. */
  function Work(durations: seq<int>): seq<nat> {
    seq(|durations|, t requires 0 <= t < |durations| => if durations[t] > 0 then durations[t] else 0)
  }

  /** `engineers` are free on the dates that `loads` business days from the start bring. */
  ghost predicate FreeAfter(start: Day, engineers: seq<Day>, loads: seq<nat>) {
    |engineers| == |loads| && forall e | 0 <= e < |loads| :: engineers[e] == AddBusinessDays(start, loads[e])
  }

  /** The engineer with the earliest date is the one with the least load. */
  lemma EarliestIsLeastLoaded(start: Day, engineers: seq<Day>, loads: seq<nat>, e: nat)
    requires FreeAfter(start, engineers, loads) && e < |loads|
    requires forall f | 0 <= f < |loads| :: engineers[e] <= engineers[f]
    requires forall f | 0 <= f < e :: engineers[e] < engineers[f]
    ensures e == FirstLeast(loads)
  {
    var least := FirstLeast(loads);
    StrictlyMonotone(start, loads[e], loads[least]);
    StrictlyMonotone(start, loads[least], loads[e]);
  }

  lemma Assigned(start: Day, engineers: seq<Day>, loads: seq<nat>, e: nat, duration: int)
    requires FreeAfter(start, engineers, loads) && e < |loads|
    ensures FreeAfter(start, engineers[e := AddBusinessDays(engineers[e], duration)],
                      Loaded(loads, e, if duration > 0 then duration else 0))
  {
    Composes(start, loads[e], if duration > 0 then duration else 0);
  }

  method Earliest(engineers: array<Day>) returns (earliest: nat)
    requires engineers.Length > 0
    ensures earliest < engineers.Length
    ensures forall f | 0 <= f < engineers.Length :: engineers[earliest] <= engineers[f]
    ensures forall f | 0 <= f < earliest :: engineers[earliest] < engineers[f]
  {
    earliest := 0;
    for e := 1 to engineers.Length
      invariant earliest < e
      invariant forall f | 0 <= f < e :: engineers[earliest] <= engineers[f]
      invariant forall f | 0 <= f < earliest :: engineers[earliest] < engineers[f]
    {
      if engineers[e] < engineers[earliest] { earliest := e; }
    }
  }

  /** Give task `t` to the engineer who is free earliest. */
  method AssignTask(engineers: array<Day>, ghost start: Day, durations: seq<int>, t: nat) returns (endDate: Day)
    requires engineers.Length > 0 && t < |durations|
    requires FreeAfter(start, engineers[..], LoadsAt(engineers.Length, durations, t))
    modifies engineers
    ensures FreeAfter(start, engineers[..], LoadsAt(engineers.Length, durations, t + 1))
    ensures EndsOnTime(start, engineers.Length, durations, t, endDate)
  {
    hide FreeAfter, LoadsAt, EndsOnTime, AddBusinessDays;
    var earliest := Earliest(engineers);
    ghost var dates := engineers[..];
    endDate := AddBusinessDaysTo(engineers[earliest], durations[t]);
    engineers[earliest] := endDate;
    assert engineers[..] == dates[earliest := endDate];
    TaskAssigned(start, engineers.Length, durations, t, dates, earliest);
  }

  /**
   One iteration of the simulation is least-load list scheduling: every engineer is free on the date
   that the load of the greedy assignment brings, and each task ends when its engineer is free again.
  */
  method Simulate(start: Day, concurrency: nat, durations: seq<int>) returns (engineers: array<Day>, ends: seq<Day>)
    requires concurrency > 0
    ensures var work := Work(durations);
            var who := Greedy(concurrency, work);
            && FreeAfter(start, engineers[..], Loads(concurrency, work, who))
            && |ends| == |durations|
            && forall t | 0 <= t < |durations| :: EndsOnTime(start, concurrency, durations, t, ends[t])
  {
    hide FreeAfter, LoadsAt, EndsOnTime, Loads, Greedy;
    engineers := new Day[concurrency](_ => start);
    ends := [];
    var t := 0;
    assert engineers[..] == seq(concurrency, _ => start);
    EverybodyFree(start, concurrency, durations);
    while t < |durations|
      invariant 0 <= t <= |durations| && |ends| == t
      invariant engineers.Length == concurrency
      invariant FreeAfter(start, engineers[..], LoadsAt(concurrency, durations, t))
      invariant forall k | 0 <= k < t :: EndsOnTime(start, concurrency, durations, k, ends[k])
    {
      var endDate := AssignTask(engineers, start, durations, t);
      ends := ends + [endDate];
      t := t + 1;
    }
    AllLoads(concurrency, durations);
  }

  lemma EverybodyFree(start: Day, m: nat, durations: seq<int>)
    requires m > 0
    ensures FreeAfter(start, seq(m, _ => start), LoadsAt(m, durations, 0))
  {
  }

  lemma AllLoads(m: nat, durations: seq<int>)
    requires m > 0
    ensures LoadsAt(m, durations, |durations|) == Loads(m, Work(durations), Greedy(m, Work(durations)))
  {
    assert Work(durations)[..|durations|] == Work(durations);
  }

  /** The greedy loads after the first `t` tasks. */
  function LoadsAt(m: nat, durations: seq<int>, t: nat): (loads: seq<nat>)
    requires m > 0 && t <= |durations|
    ensures |loads| == m
  {
    var work := Work(durations)[..t];
    Loads(m, work, Greedy(m, work))
  }

  /** Task `t` ends when the engineer it was given to has worked off everything assigned so far. */
  ghost predicate EndsOnTime(start: Day, m: nat, durations: seq<int>, t: nat, end: Day)
    requires m > 0 && t < |durations|
  {
    end == AddBusinessDays(start, LoadsAt(m, durations, t + 1)[FirstLeast(LoadsAt(m, durations, t))])
  }

  lemma TaskAssigned(start: Day, m: nat, durations: seq<int>, t: nat, dates: seq<Day>, e: nat)
    requires m > 0 && t < |durations| && e < |dates|
    requires FreeAfter(start, dates, LoadsAt(m, durations, t))
    requires forall f | 0 <= f < |dates| :: dates[e] <= dates[f]
    requires forall f | 0 <= f < e :: dates[e] < dates[f]
    ensures var end := AddBusinessDays(dates[e], durations[t]);
            && FreeAfter(start, dates[e := end], LoadsAt(m, durations, t + 1))
            && EndsOnTime(start, m, durations, t, end)
  {
    var loads := LoadsAt(m, durations, t);
    assert |dates| == |loads|;
    hide FreeAfter, AddBusinessDays, LoadsAt, FirstLeast;
    EarliestIsLeastLoaded(start, dates, loads, e);
    Assigned(start, dates, loads, e, durations[t]);
    LoadsStep(m, durations, t);
    AssignedEnds(start, dates, loads, e, durations[t]);
  }

  lemma LoadsStep(m: nat, durations: seq<int>, t: nat)
    requires m > 0 && t < |durations|
    ensures var loads := LoadsAt(m, durations, t);
            LoadsAt(m, durations, t + 1) == Loaded(loads, FirstLeast(loads), if durations[t] > 0 then durations[t] else 0)
  {
    var work := Work(durations)[..t + 1];
    assert work[..t] == Work(durations)[..t];
    GreedyStep(m, work);
  }

  lemma AssignedEnds(start: Day, engineers: seq<Day>, loads: seq<nat>, e: nat, duration: int)
    requires FreeAfter(start, engineers, loads) && e < |loads|
    ensures AddBusinessDays(engineers[e], duration)
         == AddBusinessDays(start, Loaded(loads, e, if duration > 0 then duration else 0)[e])
  {
    Composes(start, loads[e], if duration > 0 then duration else 0);
  }
}
