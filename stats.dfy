/** GET /stats of server/routes/timer.js: roll-ups of a user's completed
    sessions started at or after the lower bound of a period, per type and per
    (day, type). The calendar is a parameter: `startOf` gives each period's lower
    bound at the time of the request, `dayOf` the calendar day of an instant. */
module Stats {
  import opened Base
  import opened TimerSession
  import opened Sorting

  datatype Period = Day | Week | Month | Year

  /** The `period` query value; anything but `day`, `month` or `year` (including
      the default `week`) means the last seven days. */
  function ParsePeriod(name: string): (p: Period)
    ensures p == Day <==> name == "day"
    ensures p == Month <==> name == "month"
    ensures p == Year <==> name == "year"
  {
    if name == "day" then Day
    else if name == "month" then Month
    else if name == "year" then Year
    else Week
  }

  /** The `$match` stage of both aggregations. */
  predicate Qualifies(s: Session, user: UserId, lowerBound: int)
  {
    s.user == user && s.startTime >= lowerBound && s.completed
  }

  function QualifyingSessions(ss: seq<Session>, user: UserId, lowerBound: int): seq<Session>
  {
    Filter(ss, (s: Session) => Qualifies(s, user, lowerBound))
  }

  // ---------------------------------------------------------------------------
  // Per-type roll-up
  // ---------------------------------------------------------------------------

  /** One group of the per-type aggregation. The source reports the actual
      duration in (fractional) minutes; this model keeps its sum in milliseconds. */
  datatype TypeRollup = TypeRollup(count: nat, totalDuration: int, totalActualMs: int)

  /** `endTime - startTime`; a record without `endTime` adds nothing to the sum. */
  function ActualMs(s: Session): int
  {
    match s.endTime
    case Some(e) => e - s.startTime
    case None => 0
  }

  function AddToRollup(m: map<TimerType, TypeRollup>, s: Session): (r: map<TimerType, TypeRollup>)
    ensures forall t :: t in r <==> t in m || t == s.kind
    ensures forall t :: t in m && t != s.kind ==> r[t] == m[t]
    ensures var prior := if s.kind in m then m[s.kind] else TypeRollup(0, 0, 0);
            r[s.kind] == TypeRollup(prior.count + 1, prior.totalDuration + s.duration, prior.totalActualMs + ActualMs(s))
  {
    var prior := if s.kind in m then m[s.kind] else TypeRollup(0, 0, 0);
    m[s.kind := TypeRollup(prior.count + 1, prior.totalDuration + s.duration, prior.totalActualMs + ActualMs(s))]
  }

  /** The `$group` by type over already-matched records. */
  function RollupByType(qs: seq<Session>): (r: map<TimerType, TypeRollup>)
    ensures forall t :: t in r ==> 1 <= r[t].count <= |qs|
  {
    if qs == [] then map[] else AddToRollup(RollupByType(qs[1..]), qs[0])
  }

  function OfType(qs: seq<Session>, t: TimerType): seq<Session>
  {
    Filter(qs, (s: Session) => s.kind == t)
  }

  function SumDuration(qs: seq<Session>): int
  {
    if qs == [] then 0 else qs[0].duration + SumDuration(qs[1..])
  }

  function SumActualMs(qs: seq<Session>): int
  {
    if qs == [] then 0 else ActualMs(qs[0]) + SumActualMs(qs[1..])
  }

  /** Each type present among the records has one group, holding the number of
      its records and the sums of their nominal and actual durations; types
      without records have no group. */
  lemma {:induction false} RollupByTypeCorrect(qs: seq<Session>)
    ensures forall t :: t in RollupByType(qs) <==> |OfType(qs, t)| > 0
    ensures forall t :: t in RollupByType(qs) ==>
              RollupByType(qs)[t] == TypeRollup(|OfType(qs, t)|, SumDuration(OfType(qs, t)), SumActualMs(OfType(qs, t)))
  {
    if qs != [] {
      RollupByTypeCorrect(qs[1..]);
      forall t
        ensures t in RollupByType(qs) <==> |OfType(qs, t)| > 0
        ensures t in RollupByType(qs) ==>
                  RollupByType(qs)[t] == TypeRollup(|OfType(qs, t)|, SumDuration(OfType(qs, t)), SumActualMs(OfType(qs, t)))
      {
        OfTypeCons(qs, t);
      }
    }
  }

  /** The per-type claim of `RollupByTypeCorrect` for one type, assuming it for the tail. */
  ghost predicate RollupStep(qs: seq<Session>, t: TimerType)
  {
    && (t in RollupByType(qs) <==> |OfType(qs, t)| > 0)
    && (t in RollupByType(qs) ==>
          RollupByType(qs)[t] == TypeRollup(|OfType(qs, t)|, SumDuration(OfType(qs, t)), SumActualMs(OfType(qs, t))))
  }

  lemma OfTypeCons(qs: seq<Session>, t: TimerType)
    requires qs != []
    requires RollupStep(qs[1..], t)
    ensures RollupStep(qs, t)
  {
    OfTypeHead(qs, t);
    if qs[0].kind == t {
      OfTypeConsSame(qs, t);
    } else {
      assert RollupByType(qs) == AddToRollup(RollupByType(qs[1..]), qs[0]);
    }
  }

  lemma OfTypeConsSame(qs: seq<Session>, t: TimerType)
    requires qs != [] && qs[0].kind == t
    requires RollupStep(qs[1..], t)
    requires OfType(qs, t) == [qs[0]] + OfType(qs[1..], t)
    ensures RollupStep(qs, t)
  {
    var x, sub := qs[0], OfType(qs[1..], t);
    assert RollupByType(qs) == AddToRollup(RollupByType(qs[1..]), x);
    assert ([x] + sub)[1..] == sub;
    assert SumDuration([x] + sub) == x.duration + SumDuration(sub);
    assert SumActualMs([x] + sub) == ActualMs(x) + SumActualMs(sub);
  }

  lemma OfTypeHead(qs: seq<Session>, t: TimerType)
    requires qs != []
    ensures OfType(qs, t) == if qs[0].kind == t then [qs[0]] + OfType(qs[1..], t) else OfType(qs[1..], t)
  {
    assert qs == [qs[0]] + qs[1..];
  }

  // ---------------------------------------------------------------------------
  // Per-day roll-up
  // ---------------------------------------------------------------------------

  /** One group of the daily aggregation: a calendar day, a type and the sum of `duration`. */
  datatype DailyEntry = DailyEntry(date: int, kind: TimerType, duration: int)

  function KeyOf(e: DailyEntry): (int, TimerType) { (e.date, e.kind) }

  /** The duration already grouped under a key, or 0 when there is no such group. */
  function Prior(entries: seq<DailyEntry>, date: int, kind: TimerType): int
  {
    if entries == [] then 0
    else if KeyOf(entries[0]) == (date, kind) then entries[0].duration
    else Prior(entries[1..], date, kind)
  }

  /** Adds `duration` to the group of `(date, kind)`, creating it if absent. */
  function AddToDaily(entries: seq<DailyEntry>, date: int, kind: TimerType, duration: int): (r: seq<DailyEntry>)
    ensures |entries| <= |r| <= |entries| + 1
  {
    if entries == [] then [DailyEntry(date, kind, duration)]
    else if KeyOf(entries[0]) == (date, kind) then [entries[0].(duration := entries[0].duration + duration)] + entries[1..]
    else [entries[0]] + AddToDaily(entries[1..], date, kind, duration)
  }

  /** Groups of other keys are neither created nor dropped nor changed. */
  lemma {:induction false} AddToDailyKeepsOthers(entries: seq<DailyEntry>, date: int, kind: TimerType, duration: int)
    ensures forall e :: e in AddToDaily(entries, date, kind, duration) && KeyOf(e) != (date, kind) ==> e in entries
    ensures forall e :: e in entries && KeyOf(e) != (date, kind) ==> e in AddToDaily(entries, date, kind, duration)
  {
    if entries != [] {
      assert entries == [entries[0]] + entries[1..];
      AddToDailyKeepsOthers(entries[1..], date, kind, duration);
    }
  }

  /** The group of `(date, kind)` afterwards holds the prior sum plus `duration`. */
  lemma {:induction false} AddToDailyAdds(entries: seq<DailyEntry>, date: int, kind: TimerType, duration: int)
    requires DistinctBy(entries, KeyOf)
    ensures DailyEntry(date, kind, Prior(entries, date, kind) + duration) in AddToDaily(entries, date, kind, duration)
    ensures forall e :: e in AddToDaily(entries, date, kind, duration) && KeyOf(e) == (date, kind) ==>
              e.duration == Prior(entries, date, kind) + duration
  {
    if entries != [] {
      var e0 := entries[0];
      assert entries == [e0] + entries[1..];
      if KeyOf(e0) == (date, kind) {
        assert forall e :: e in entries[1..] ==> KeyOf(e) != (date, kind);
      } else {
        AddToDailyAdds(entries[1..], date, kind, duration);
      }
    }
  }

  /** Adding never creates a second group for a key. */
  lemma {:induction false} AddToDailyDistinct(entries: seq<DailyEntry>, date: int, kind: TimerType, duration: int)
    requires DistinctBy(entries, KeyOf)
    ensures DistinctBy(AddToDaily(entries, date, kind, duration), KeyOf)
  {
    if entries != [] {
      var e0 := entries[0];
      assert entries == [e0] + entries[1..];
      if KeyOf(e0) != (date, kind) {
        var rest := AddToDaily(entries[1..], date, kind, duration);
        AddToDailyDistinct(entries[1..], date, kind, duration);
        AddToDailyKeepsOthers(entries[1..], date, kind, duration);
        AddToDailyAdds(entries[1..], date, kind, duration);
        assert forall e :: e in rest ==> KeyOf(e) != KeyOf(e0);
        var r := [e0] + rest;
        assert forall i :: 1 <= i < |r| ==> r[i] in rest;
      }
    }
  }

  /** The `$group` by (day, type) over already-matched records. */
  function GroupDaily(qs: seq<Session>, dayOf: int -> int): (r: seq<DailyEntry>)
    ensures |r| <= |qs|
    ensures qs != [] ==> |r| >= 1
  {
    if qs == [] then []
    else AddToDaily(GroupDaily(qs[1..], dayOf), dayOf(qs[0].startTime), qs[0].kind, qs[0].duration)
  }

  function DayCount(qs: seq<Session>, dayOf: int -> int, date: int, kind: TimerType): nat
  {
    if qs == [] then 0
    else (if dayOf(qs[0].startTime) == date && qs[0].kind == kind then 1 else 0) + DayCount(qs[1..], dayOf, date, kind)
  }

  function DaySum(qs: seq<Session>, dayOf: int -> int, date: int, kind: TimerType): int
  {
    if qs == [] then 0
    else (if dayOf(qs[0].startTime) == date && qs[0].kind == kind then qs[0].duration else 0)
         + DaySum(qs[1..], dayOf, date, kind)
  }

  /** `entries` holds exactly one group per (day, type) that occurs in `qs`,
      with the sum of the durations of those records. */
  ghost predicate DescribesDaily(entries: seq<DailyEntry>, qs: seq<Session>, dayOf: int -> int)
  {
    && DistinctBy(entries, KeyOf)
    && (forall e :: e in entries ==>
          DayCount(qs, dayOf, e.date, e.kind) > 0 && e.duration == DaySum(qs, dayOf, e.date, e.kind))
    && (forall d, t :: DayCount(qs, dayOf, d, t) > 0 ==> DailyEntry(d, t, DaySum(qs, dayOf, d, t)) in entries)
  }

  lemma {:induction false} NoCountNoSum(qs: seq<Session>, dayOf: int -> int, d: int, t: TimerType)
    requires DayCount(qs, dayOf, d, t) == 0
    ensures DaySum(qs, dayOf, d, t) == 0
  {
    if qs != [] {
      NoCountNoSum(qs[1..], dayOf, d, t);
    }
  }

  lemma {:induction false} PriorIsDaySum(entries: seq<DailyEntry>, qs: seq<Session>, dayOf: int -> int, d: int, t: TimerType)
    requires DescribesDaily(entries, qs, dayOf)
    ensures Prior(entries, d, t) == DaySum(qs, dayOf, d, t)
  {
    if DayCount(qs, dayOf, d, t) == 0 {
      NoCountNoSum(qs, dayOf, d, t);
      PriorAbsent(entries, d, t);
    } else {
      PriorPresent(entries, DailyEntry(d, t, DaySum(qs, dayOf, d, t)));
    }
  }

  lemma {:induction false} PriorAbsent(entries: seq<DailyEntry>, d: int, t: TimerType)
    requires forall e :: e in entries ==> KeyOf(e) != (d, t)
    ensures Prior(entries, d, t) == 0
  {
    if entries != [] {
      assert entries[0] in entries;
      PriorAbsent(entries[1..], d, t);
    }
  }

  lemma {:induction false} PriorPresent(entries: seq<DailyEntry>, e: DailyEntry)
    requires DistinctBy(entries, KeyOf) && e in entries
    ensures Prior(entries, e.date, e.kind) == e.duration
  {
    if entries[0] != e {
      assert e in entries[1..];
      PriorPresent(entries[1..], e);
    }
  }

  lemma {:induction false} GroupDailyCorrect(qs: seq<Session>, dayOf: int -> int)
    ensures DescribesDaily(GroupDaily(qs, dayOf), qs, dayOf)
  {
    if qs != [] {
      var rest := qs[1..];
      var g := GroupDaily(rest, dayOf);
      GroupDailyCorrect(rest, dayOf);
      var x := qs[0];
      var dx := dayOf(x.startTime);
      var r := GroupDaily(qs, dayOf);
      PriorIsDaySum(g, rest, dayOf, dx, x.kind);
      AddToDailyKeepsOthers(g, dx, x.kind, x.duration);
      AddToDailyAdds(g, dx, x.kind, x.duration);
      AddToDailyDistinct(g, dx, x.kind, x.duration);
      forall e | e in r
        ensures DayCount(qs, dayOf, e.date, e.kind) > 0 && e.duration == DaySum(qs, dayOf, e.date, e.kind)
      {
      }
      forall d, t | DayCount(qs, dayOf, d, t) > 0
        ensures DailyEntry(d, t, DaySum(qs, dayOf, d, t)) in r
      {
      }
    }
  }

  // ---------------------------------------------------------------------------
  // The report
  // ---------------------------------------------------------------------------

  datatype StatsReport = StatsReport(
    period: string,
    startDate: int,
    stats: map<TimerType, TypeRollup>,
    dailyStats: seq<DailyEntry>)

  /** The whole /stats answer: the period echoed back, its lower bound, the
      per-type groups and the per-(day, type) groups in ascending date order. */
  function GetStats(ss: seq<Session>, user: UserId, period: string,
                    startOf: Period -> int, dayOf: int -> int): (r: StatsReport)
    ensures r.period == period && r.startDate == startOf(ParsePeriod(period))
    ensures forall t :: t in r.stats ==> 1 <= r.stats[t].count <= |ss|
    ensures |r.dailyStats| <= |ss|
    ensures forall i, j :: 0 <= i < j < |r.dailyStats| ==> r.dailyStats[i].date <= r.dailyStats[j].date
  {
    var lowerBound := startOf(ParsePeriod(period));
    var qs := QualifyingSessions(ss, user, lowerBound);
    StatsReport(period, lowerBound, RollupByType(qs),
                SortBy(GroupDaily(qs, dayOf), (e: DailyEntry) => e.date))
  }

  /** The report covers exactly the user's completed sessions that started at
      or after the period's lower bound: per type their count and sums, per
      (day, type) one group with their summed duration, days ascending. */
  lemma GetStatsCorrect(ss: seq<Session>, user: UserId, period: string,
                        startOf: Period -> int, dayOf: int -> int)
    ensures var r := GetStats(ss, user, period, startOf, dayOf);
            var qs := QualifyingSessions(ss, user, r.startDate);
            && r.startDate == startOf(ParsePeriod(period))
            && (forall s :: s in qs <==> s in ss && s.user == user && s.completed && s.startTime >= r.startDate)
            && (forall t :: t in r.stats <==> |OfType(qs, t)| > 0)
            && (forall t :: t in r.stats ==>
                  r.stats[t] == TypeRollup(|OfType(qs, t)|, SumDuration(OfType(qs, t)), SumActualMs(OfType(qs, t))))
            && DescribesDaily(r.dailyStats, qs, dayOf)
            && (forall i, j :: 0 <= i < j < |r.dailyStats| ==> r.dailyStats[i].date <= r.dailyStats[j].date)
  {
    var r := GetStats(ss, user, period, startOf, dayOf);
    var qs := QualifyingSessions(ss, user, r.startDate);
    RollupByTypeCorrect(qs);
    var g := GroupDaily(qs, dayOf);
    GroupDailyCorrect(qs, dayOf);
    var key := (e: DailyEntry) => e.date;
    SortDistinct(g, key, KeyOf);
    var sorted := SortBy(g, key);
    assert SortedBy(sorted, key);
    forall e ensures e in sorted <==> e in g {
      assert e in sorted <==> e in multiset(sorted);
      assert e in g <==> e in multiset(g);
    }
  }
}
