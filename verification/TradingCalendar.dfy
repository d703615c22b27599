/** The fail-closed exchange calendar beside the mutable runtime one (src/calendar.rs). */
module TradingCalendar {
  import opened Optional
  import opened GregorianDates
  import opened FiniteSets

  /** The checked-in exchange calendar. */
  datatype Authority = Authority(years: seq<int>, closures: set<int>)

  /** What a date is to the exchange calendar, None when its bytes did not parse. */
  datatype Verdict = Uncovered | Open | Shut

  /** `verified_a_share_trading_day`. */
  function Verified(a: Option<Authority>, d: int): Verdict {
    if a.None? || YearOf(d) !in a.value.years then Uncovered
    else if Weekend(d) || d in a.value.closures then Shut
    else Open
  }

  /** The exchange calendar as a function of the date; the laws below hold of any such function. */
  type Oracle = int -> Verdict

  function By(a: Option<Authority>): Oracle {
    d => Verified(a, d)
  }

  const FIRST_DATE: int := YearStart(MIN_YEAR)
  const LAST_DATE: int := YearStart(MAX_YEAR + 1) - 1

  /** How a walk over the exchange calendar ends. */
  datatype Walk = Found(date: int) | NoCoverage | OutOfRange

  /** The walk from `d` on, `d` included. */
  function WalkUp(v: Oracle, d: int): Walk
    decreases LAST_DATE - d + 1
  {
    if d > LAST_DATE then OutOfRange
    else match v(d)
      case Uncovered => NoCoverage
      case Open => Found(d)
      case Shut => WalkUp(v, d + 1)
  }

  function WalkDown(v: Oracle, d: int): Walk
    decreases d - FIRST_DATE + 1
  {
    if d < FIRST_DATE then OutOfRange
    else match v(d)
      case Uncovered => NoCoverage
      case Open => Found(d)
      case Shut => WalkDown(v, d - 1)
  }

  /** Every date of a span is covered and closed. */
  ghost predicate AllShut(v: Oracle, from: int, until: int) {
    forall d :: from <= d <= until ==> v(d) == Shut
  }

  method NextOpen(v: Oracle, from: int) returns (r: Walk)
    requires FIRST_DATE <= from <= LAST_DATE
    ensures r == WalkUp(v, from + 1)
  {
    var candidate := from + 1;
    while candidate <= LAST_DATE
      invariant from < candidate <= LAST_DATE + 1
      invariant WalkUp(v, candidate) == WalkUp(v, from + 1)
    {
      match v(candidate)
      case Uncovered => return NoCoverage;
      case Open => return Found(candidate);
      case Shut => candidate := candidate + 1;
    }
    r := OutOfRange;
  }

  method PreviousOpen(v: Oracle, from: int) returns (r: Walk)
    requires FIRST_DATE <= from <= LAST_DATE
    ensures r == WalkDown(v, from - 1)
  {
    var candidate := from - 1;
    while candidate >= FIRST_DATE
      invariant FIRST_DATE - 1 <= candidate < from
      invariant WalkDown(v, candidate) == WalkDown(v, from - 1)
    {
      match v(candidate)
      case Uncovered => return NoCoverage;
      case Open => return Found(candidate);
      case Shut => candidate := candidate - 1;
    }
    r := OutOfRange;
  }

  /** `verified_next_a_share_trading_day`. */
  method VerifiedNext(a: Option<Authority>, from: int) returns (r: Walk)
    requires FIRST_DATE <= from <= LAST_DATE
    ensures r == WalkUp(By(a), from + 1)
  {
    r := NextOpen(By(a), from);
  }

  /** `verified_prev_a_share_trading_day`. */
  method VerifiedPrev(a: Option<Authority>, from: int) returns (r: Walk)
    requires FIRST_DATE <= from <= LAST_DATE
    ensures r == WalkDown(By(a), from - 1)
  {
    r := PreviousOpen(By(a), from);
  }

  /** A walk up finds the first open day, and fails exactly when an uncovered date, or the end of all
      dates, comes first. */
  lemma {:induction false} WalkUpIsNearest(v: Oracle, d: int, e: int)
    requires FIRST_DATE <= d <= LAST_DATE + 1
    ensures WalkUp(v, d) == Found(e) <==> d <= e <= LAST_DATE && v(e) == Open && AllShut(v, d, e - 1)
    ensures WalkUp(v, d) == NoCoverage <==> exists u :: d <= u <= LAST_DATE && v(u) == Uncovered && AllShut(v, d, u - 1)
    ensures WalkUp(v, d) == OutOfRange <==> AllShut(v, d, LAST_DATE)
    decreases LAST_DATE - d + 1
  {
    if d <= LAST_DATE && v(d) == Shut {
      WalkUpIsNearest(v, d + 1, e);
      assert forall u :: AllShut(v, d + 1, u) ==> AllShut(v, d, u);
      assert forall u :: AllShut(v, d, u) ==> AllShut(v, d + 1, u);
    }
  }

  lemma {:induction false} WalkDownIsNearest(v: Oracle, d: int, e: int)
    requires FIRST_DATE - 1 <= d <= LAST_DATE
    ensures WalkDown(v, d) == Found(e) <==> FIRST_DATE <= e <= d && v(e) == Open && AllShut(v, e + 1, d)
    ensures WalkDown(v, d) == NoCoverage <==>
      exists u :: FIRST_DATE <= u <= d && v(u) == Uncovered && AllShut(v, u + 1, d)
    ensures WalkDown(v, d) == OutOfRange <==> AllShut(v, FIRST_DATE, d)
    decreases d - FIRST_DATE + 1
  {
    if FIRST_DATE <= d && v(d) == Shut {
      WalkDownIsNearest(v, d - 1, e);
      assert forall u :: AllShut(v, u, d - 1) ==> AllShut(v, u, d);
      assert forall u :: AllShut(v, u, d) ==> AllShut(v, u, d - 1);
    }
  }

  /** On trading days, next and previous undo each other. */
  lemma NextAndPreviousAreInverse(v: Oracle, d: int, e: int)
    requires FIRST_DATE <= d <= LAST_DATE && FIRST_DATE <= e <= LAST_DATE && v(d) == Open && v(e) == Open
    ensures WalkUp(v, d + 1) == Found(e) <==> WalkDown(v, e - 1) == Found(d)
  {
    WalkUpIsNearest(v, d + 1, e);
    WalkDownIsNearest(v, e - 1, d);
  }

  // ----- replay ranges

  datatype CalendarError =
    InvalidRange | InvalidQuarter | InvalidTimezone | SessionIncomplete | Unavailable | Empty | Arithmetic

  datatype Replay = Replay(from: int, until: int, dates: seq<int>)

  datatype Result<+T> = Ok(value: T) | Err(error: CalendarError)

  /** The open days of a span, in order. */
  function OpenDays(v: Oracle, from: int, until: int): seq<int>
    decreases until - from + 1
  {
    if from > until then [] else OpenDays(v, from, until - 1) + if v(until) == Open then [until] else []
  }

  predicate CoveredSpan(v: Oracle, from: int, until: int) {
    forall d :: from <= d <= until ==> v(d) != Uncovered
  }

  /** The answer `resolve_verified_replay_range` owes for a span. */
  function RangeAnswer(v: Oracle, from: int, until: int): Result<Replay> {
    if from > until then Err(InvalidRange)
    else if !CoveredSpan(v, from, until) then Err(Unavailable)
    else if OpenDays(v, from, until) == [] then Err(Empty)
    else Ok(Replay(from, until, OpenDays(v, from, until)))
  }

  /** The loop over the span. */
  method CollectOpenDays(v: Oracle, from: int, until: int) returns (r: Result<Replay>)
    requires from <= until
    ensures r == RangeAnswer(v, from, until)
  {
    var dates, cursor := [], from;
    while true
      invariant from <= cursor <= until
      invariant dates == OpenDays(v, from, cursor - 1)
      invariant CoveredSpan(v, from, cursor - 1)
      decreases until - cursor
    {
      var verdict := v(cursor);
      if verdict == Uncovered {
        return Err(Unavailable);
      }
      if verdict == Open {
        dates := dates + [cursor];
      }
      assert dates == OpenDays(v, from, cursor);
      if cursor == until {
        break;
      }
      cursor := cursor + 1;
    }
    assert CoveredSpan(v, from, until);
    r := if dates == [] then Err(Empty) else Ok(Replay(from, until, dates));
  }

  /** `resolve_verified_replay_range`. */
  method ResolveRange(a: Option<Authority>, from: int, until: int) returns (r: Result<Replay>)
    ensures r == RangeAnswer(By(a), from, until)
  {
    if from > until {
      return Err(InvalidRange);
    }
    if a.None? {
      assert By(a)(from) == Uncovered;
      return Err(Unavailable);
    }
    r := CollectOpenDays(By(a), from, until);
  }

  ghost predicate Increasing(dates: seq<int>) {
    forall i, j :: 0 <= i < j < |dates| ==> dates[i] < dates[j]
  }

  /** The dates of a replay are the open days of its span, each once, in increasing order. */
  lemma {:induction false} OpenDaysAreExact(v: Oracle, from: int, until: int)
    ensures forall d :: d in OpenDays(v, from, until) <==> from <= d <= until && v(d) == Open
    ensures Increasing(OpenDays(v, from, until))
    decreases until - from + 1
  {
    if from <= until {
      OpenDaysAreExact(v, from, until - 1);
      var shorter := OpenDays(v, from, until - 1);
      forall i | 0 <= i < |shorter| ensures shorter[i] < until {
        assert shorter[i] in shorter;
      }
      assert Increasing(shorter + [until]);
      assert shorter + [] == shorter;
    }
  }

  /** The open days of adjacent spans are those of the joint span. */
  lemma {:induction false} OpenDaysConcatenate(v: Oracle, from: int, middle: int, until: int)
    requires from <= middle + 1 && middle <= until
    ensures OpenDays(v, from, middle) + OpenDays(v, middle + 1, until) == OpenDays(v, from, until)
    decreases until - middle
  {
    if middle == until {
      assert OpenDays(v, middle + 1, until) == [];
    } else {
      OpenDaysConcatenate(v, from, middle, until - 1);
      var last := if v(until) == Open then [until] else [];
      assert OpenDays(v, from, middle) + (OpenDays(v, middle + 1, until - 1) + last) ==
             OpenDays(v, from, middle) + OpenDays(v, middle + 1, until - 1) + last;
    }
  }

  /** Adjacent ranges concatenate: the joint range is answered exactly when both parts are covered and not both
      are empty, with their dates one after the other. */
  lemma RangesConcatenate(v: Oracle, from: int, middle: int, until: int)
    requires from <= middle < until
    ensures var a, b := RangeAnswer(v, from, middle), RangeAnswer(v, middle + 1, until);
      var joint := RangeAnswer(v, from, until);
      && (a.Ok? && b.Ok? ==> joint == Ok(Replay(from, until, a.value.dates + b.value.dates)))
      && (a.Ok? && b == Err(Empty) ==> joint == Ok(Replay(from, until, a.value.dates)))
      && (a == Err(Empty) && b.Ok? ==> joint == Ok(Replay(from, until, b.value.dates)))
      && (joint.Ok? <==> (a.Ok? || b.Ok?) && a != Err(Unavailable) && b != Err(Unavailable))
      && (joint == Err(Unavailable) <==> a == Err(Unavailable) || b == Err(Unavailable))
  {
    OpenDaysConcatenate(v, from, middle, until);
    assert CoveredSpan(v, from, until) <==> CoveredSpan(v, from, middle) && CoveredSpan(v, middle + 1, until);
    var a, b := OpenDays(v, from, middle), OpenDays(v, middle + 1, until);
    assert (b == [] ==> a + b == a) && (a == [] ==> a + b == b);
  }

  // ----- quarters

  /** `verified_replay_quarter_bounds`. */
  function QuarterBounds(year: int, quarter: int): (r: Result<(int, int)>) {
    if quarter < 1 || quarter > 4 then Err(InvalidQuarter)
    else
      var (fromMonth, toMonth, toDay) :=
        if quarter == 1 then (1, 3, 31) else if quarter == 2 then (4, 6, 30)
        else if quarter == 3 then (7, 9, 30) else (10, 12, 31);
      match (FromYmd(year, fromMonth, 1), FromYmd(year, toMonth, toDay))
      case (Some(from), Some(until)) => Ok((from, until))
      case _ => Err(Arithmetic)
  }

  /** The four quarters tile the year, leap or not, for every year chrono can represent. */
  lemma QuartersTileTheYear(year: int)
    requires MIN_YEAR <= year <= MAX_YEAR
    ensures forall q :: 1 <= q <= 4 ==>
      QuarterBounds(year, q).Ok? && QuarterBounds(year, q).value.0 <= QuarterBounds(year, q).value.1
    ensures QuarterBounds(year, 1).value.0 == YearStart(year)
    ensures QuarterBounds(year, 2).value.0 == QuarterBounds(year, 1).value.1 + 1
    ensures QuarterBounds(year, 3).value.0 == QuarterBounds(year, 2).value.1 + 1
    ensures QuarterBounds(year, 4).value.0 == QuarterBounds(year, 3).value.1 + 1
    ensures QuarterBounds(year, 4).value.1 == YearStart(year + 1) - 1
  {
    MonthTable(year);
    YearLength(year);
  }

  lemma MonthTable(y: int)
    ensures var february := DaysInMonth(y, 2);
      && DaysBeforeMonth(y, 1) == 0 && DaysBeforeMonth(y, 3) == 31 + february && DaysBeforeMonth(y, 4) == 62 + february
      && DaysBeforeMonth(y, 6) == 123 + february && DaysBeforeMonth(y, 7) == 153 + february
      && DaysBeforeMonth(y, 9) == 215 + february && DaysBeforeMonth(y, 10) == 245 + february
      && DaysBeforeMonth(y, 12) == 306 + february
  {
    assert DaysBeforeMonth(y, 3) == DaysBeforeMonth(y, 2) + DaysInMonth(y, 2);
    assert DaysBeforeMonth(y, 6) == DaysBeforeMonth(y, 5) + 31 && DaysBeforeMonth(y, 5) == DaysBeforeMonth(y, 4) + 30;
    assert DaysBeforeMonth(y, 9) == DaysBeforeMonth(y, 8) + 31 && DaysBeforeMonth(y, 8) == DaysBeforeMonth(y, 7) + 31;
    assert DaysBeforeMonth(y, 12) == DaysBeforeMonth(y, 11) + 30;
    assert DaysBeforeMonth(y, 11) == DaysBeforeMonth(y, 10) + 31;
  }

  /** The quarters' replays together are the year's. */
  lemma QuartersReplayTheYear(v: Oracle, year: int)
    requires MIN_YEAR <= year <= MAX_YEAR
    ensures forall q :: 1 <= q <= 4 ==> QuarterBounds(year, q).Ok?
    ensures var b := (q: int) requires 1 <= q <= 4 && QuarterBounds(year, q).Ok? => QuarterBounds(year, q).value;
      OpenDays(v, b(1).0, b(1).1) + OpenDays(v, b(2).0, b(2).1) +
      OpenDays(v, b(3).0, b(3).1) + OpenDays(v, b(4).0, b(4).1) ==
      OpenDays(v, YearStart(year), YearStart(year + 1) - 1)
  {
    QuartersTileTheYear(year);
    var (f1, t1) := QuarterBounds(year, 1).value;
    var (f2, t2) := QuarterBounds(year, 2).value;
    var (f3, t3) := QuarterBounds(year, 3).value;
    var (f4, t4) := QuarterBounds(year, 4).value;
    OpenDaysConcatenate(v, f1, t1, t2);
    OpenDaysConcatenate(v, f1, t2, t3);
    OpenDaysConcatenate(v, f1, t3, t4);
  }

  // ----- the latest completed session

  /** Nanoseconds of the day at the 15:00 close. */
  const CLOSE: int := 15 * 3600 * 1_000_000_000
  const SHANGHAI_OFFSET: int := 8 * 60 * 60

  /** The trading day a scheduled replay is about. */
  function Scheduled(v: Oracle, offset: int, date: int, time: int): Result<int> {
    if offset != SHANGHAI_OFFSET then Err(InvalidTimezone)
    else match v(date)
      case Uncovered => Err(Unavailable)
      case Open => if time < CLOSE then Err(SessionIncomplete) else Ok(date)
      case Shut => match WalkDown(v, date - 1) case Found(d) => Ok(d) case _ => Err(Unavailable)
  }

  /** `resolve_verified_scheduled_replay`. */
  method ResolveScheduled(a: Option<Authority>, offset: int, date: int, time: int) returns (r: Result<Replay>)
    requires FIRST_DATE <= date <= LAST_DATE
    ensures match Scheduled(By(a), offset, date, time)
      case Ok(t) => r == Ok(Replay(t, t, [t]))
      case Err(e) => r == Err(e)
  {
    if offset != SHANGHAI_OFFSET {
      return Err(InvalidTimezone);
    }
    var verdict := Verified(a, date);
    assert By(a)(date) == verdict;
    if verdict == Uncovered {
      return Err(Unavailable);
    }
    var target := date;
    if verdict == Open {
      if time < CLOSE {
        return Err(SessionIncomplete);
      }
    } else {
      var previous := VerifiedPrev(a, date);
      if !previous.Found? {
        return Err(Unavailable);
      }
      target := previous.date;
      WalkDownIsNearest(By(a), date - 1, target);
    }
    OneOpenDay(By(a), target);
    r := ResolveRange(a, target, target);
  }

  lemma OneOpenDay(v: Oracle, d: int)
    requires v(d) == Open
    ensures RangeAnswer(v, d, d) == Ok(Replay(d, d, [d]))
  {
    assert OpenDays(v, d, d - 1) == [];
    assert OpenDays(v, d, d) == [d];
    assert CoveredSpan(v, d, d);
  }

  /** The session of `t` is over at the given instant. */
  predicate Completed(v: Oracle, date: int, time: int, t: int) {
    v(t) == Open && (t < date || (t == date && time >= CLOSE))
  }

  /** A scheduled replay targets the greatest trading day whose close is at or before the invocation. */
  lemma ScheduledIsLatestCompleted(v: Oracle, date: int, time: int, t: int)
    requires FIRST_DATE <= date <= LAST_DATE && Scheduled(v, SHANGHAI_OFFSET, date, time) == Ok(t)
    ensures Completed(v, date, time, t)
    ensures forall u :: t < u ==> !Completed(v, date, time, u)
  {
    WalkDownIsNearest(v, date - 1, t);
  }

  /** It only moves forward with time. */
  lemma ScheduledIsMonotone(v: Oracle, date: int, time: int, t: int, date': int, time': int, t': int)
    requires FIRST_DATE <= date <= date' <= LAST_DATE && (date == date' ==> time <= time')
    requires Scheduled(v, SHANGHAI_OFFSET, date, time) == Ok(t) && Scheduled(v, SHANGHAI_OFFSET, date', time') == Ok(t')
    ensures t <= t'
  {
    ScheduledIsLatestCompleted(v, date, time, t);
    ScheduledIsLatestCompleted(v, date', time', t');
    assert Completed(v, date', time', t);
  }

  // ----- the runtime calendar

  /** `is_trading_day`: covered everywhere, with whatever holidays are set. */
  function Runtime(holidays: set<int>): Oracle {
    d => if Weekend(d) || d in holidays then Shut else Open
  }

  /** `latest_completed_trading_day_at`; OutOfRange is chrono's panic. */
  function LatestCompleted(v: Oracle, date: int, time: int): Walk {
    if v(date) == Open && time >= CLOSE then Found(date) else WalkDown(v, date - 1)
  }

  /** With the checked-in closures as holidays, the runtime answer is the verified one wherever there is one. */
  lemma RuntimeAgreesWithVerified(a: Authority, date: int, time: int, t: int)
    requires FIRST_DATE <= date <= LAST_DATE && Scheduled(By(Some(a)), SHANGHAI_OFFSET, date, time) == Ok(t)
    ensures LatestCompleted(Runtime(a.closures), date, time) == Found(t)
  {
    var v, w := By(Some(a)), Runtime(a.closures);
    forall d ensures v(d) != Uncovered ==> w(d) == v(d) {
    }
    AgreementSuffices(v, w, date, time, t);
  }

  lemma AgreementSuffices(v: Oracle, w: Oracle, date: int, time: int, t: int)
    requires FIRST_DATE <= date <= LAST_DATE && Scheduled(v, SHANGHAI_OFFSET, date, time) == Ok(t)
    requires forall d :: v(d) != Uncovered ==> w(d) == v(d)
    ensures LatestCompleted(w, date, time) == Found(t)
  {
    WalkDownIsNearest(v, date - 1, t);
    WalkDownIsNearest(w, date - 1, t);
  }

  /** More holidays can only push the next trading day later and the previous one earlier. */
  lemma MoreHolidaysPushOutward(h: set<int>, more: set<int>, d: int, e: int)
    requires h <= more && FIRST_DATE <= d <= LAST_DATE
    ensures WalkUp(Runtime(more), d) == Found(e) ==> WalkUp(Runtime(h), d).Found? && WalkUp(Runtime(h), d).date <= e
    ensures WalkDown(Runtime(more), d) == Found(e) ==>
      WalkDown(Runtime(h), d).Found? && WalkDown(Runtime(h), d).date >= e
  {
    var v, w := Runtime(h), Runtime(more);
    assert forall x :: w(x) == Open ==> v(x) == Open;
    WalkUpIsNearest(w, d, e);
    WalkDownIsNearest(w, d, e);
    var up, down := WalkUp(v, d), WalkDown(v, d);
    WalkUpIsNearest(v, d, if up.Found? then up.date else e);
    WalkDownIsNearest(v, d, if down.Found? then down.date else e);
  }

  lemma {:induction false} SpacedSize(start: int, n: nat, s: set<int>)
    requires s == set i | 0 <= i < n :: start + 7 * i
    ensures |s| == n
  {
    if n == 0 {
      assert s == {};
    } else {
      var shorter := set i | 0 <= i < n - 1 :: start + 7 * i;
      SpacedSize(start, n - 1, shorter);
      assert s == shorter + {start + 7 * (n - 1)};
    }
  }

  lemma SomeMondayIsOpen(holidays: set<int>, monday: int) returns (e: int)
    requires monday % 7 == 1
    ensures monday <= e <= monday + 7 * |holidays| && Runtime(holidays)(e) == Open
  {
    var mondays := set i | 0 <= i < |holidays| + 1 :: monday + 7 * i;
    SpacedSize(monday, |holidays| + 1, mondays);
    if mondays <= holidays {
      SubsetSize(mondays, holidays);
      assert false;
    }
    e :| e in mondays && e !in holidays;
    var i :| 0 <= i < |holidays| + 1 && e == monday + 7 * i;
    WeekLater(monday, i);
  }

  lemma {:induction false} WeekLater(monday: int, i: nat)
    requires monday % 7 == 1
    ensures (monday + 7 * i) % 7 == 1
  {
    if i > 0 {
      WeekLater(monday, i - 1);
    }
  }

  lemma MondayAfter(from: int) returns (monday: int)
    ensures monday % 7 == 1 && from < monday <= from + 7
  {
    monday := if from % 7 == 0 then from + 1 else 7 * (from / 7 + 1) + 1;
  }

  /** The runtime walk ends for every finite holiday set, within as many weeks as there are holidays
      and one: the Mondays among them cannot all be holidays. */
  lemma RuntimeNextIsNear(holidays: set<int>, from: int)
    requires FIRST_DATE <= from && from + 7 * (|holidays| + 1) <= LAST_DATE
    ensures WalkUp(Runtime(holidays), from + 1).Found?
    ensures WalkUp(Runtime(holidays), from + 1).date <= from + 7 * (|holidays| + 1)
  {
    var monday := MondayAfter(from);
    var e := SomeMondayIsOpen(holidays, monday);
    OpenDayEndsWalk(Runtime(holidays), from + 1, e);
  }

  lemma OpenDayEndsWalk(v: Oracle, d: int, e: int)
    requires FIRST_DATE <= d <= e <= LAST_DATE && v(e) == Open && forall x :: v(x) != Uncovered
    ensures WalkUp(v, d).Found? && WalkUp(v, d).date <= e
  {
    var r := WalkUp(v, d);
    WalkUpIsNearest(v, d, if r.Found? then r.date else e);
  }

  function Reversed(s: seq<int>): (r: seq<int>)
    ensures |r| == |s|
  {
    if s == [] then [] else [s[|s| - 1]] + Reversed(s[..|s| - 1])
  }

  lemma EarlierDay(v: Oracle, found: seq<int>, d: int, from: int)
    requires d <= from && Reversed(found) == OpenDays(v, d + 1, from)
    ensures OpenDays(v, d, from) == Reversed(if v(d) == Open then found + [d] else found)
  {
    OpenDaysConcatenate(v, d, d, from);
    assert OpenDays(v, d, d - 1) == [];
    assert OpenDays(v, d, d) == if v(d) == Open then [d] else [];
    assert (found + [d])[..|found + [d]| - 1] == found;
  }

  /** The mutable holiday set and the queries that read it. */
  class HolidaySet {
    var holidays: set<int>

    constructor (closures: set<int>)
      ensures holidays == closures
    {
      holidays := closures;
    }

    /** `add_holidays`. The verified queries take no holiday set at all. */
    method AddHolidays(dates: seq<int>)
      modifies this
      ensures holidays == old(holidays) + set d | d in dates
    {
      for i := 0 to |dates|
        invariant holidays == old(holidays) + set d | d in dates[..i]
      {
        assert dates[..i + 1] == dates[..i] + [dates[i]];
        holidays := holidays + {dates[i]};
      }
      assert dates[..|dates|] == dates;
    }

    /** `next_trading_day`; OutOfRange is chrono's overflow panic. */
    method NextTradingDay(from: int) returns (r: Walk)
      requires FIRST_DATE <= from <= LAST_DATE
      ensures r == WalkUp(Runtime(holidays), from + 1)
    {
      var d := from + 1;
      while d <= LAST_DATE && (Weekend(d) || d in holidays)
        invariant from < d <= LAST_DATE + 1
        invariant WalkUp(Runtime(holidays), d) == WalkUp(Runtime(holidays), from + 1)
      {
        d := d + 1;
      }
      r := if d > LAST_DATE then OutOfRange else Found(d);
    }

    /** `recent_trading_days`: newest first; None is chrono's underflow panic, which a day counted back
        past the first date also meets. */
    method RecentTradingDays(from: int, n: nat) returns (days: Option<seq<int>>)
      requires FIRST_DATE <= from <= LAST_DATE
      ensures days.Some? ==> |days.value| == n
      ensures days.Some? ==>
        exists low :: FIRST_DATE < low <= from + 1 && Reversed(days.value) == OpenDays(Runtime(holidays), low, from)
      ensures days.None? <==> |OpenDays(Runtime(holidays), FIRST_DATE + 1, from)| < n
    {
      var v := Runtime(holidays);
      var found, d := [], from;
      while |found| < n
        invariant FIRST_DATE <= d <= from && |found| <= n
        invariant Reversed(found) == OpenDays(v, d + 1, from)
        decreases d - FIRST_DATE
      {
        if d == FIRST_DATE {
          return None;
        }
        EarlierDay(v, found, d, from);
        if v(d) == Open {
          found := found + [d];
        }
        d := d - 1;
      }
      if n == 0 {
        return Some([]);
      }
      OpenDaysConcatenate(v, FIRST_DATE + 1, d, from);
      days := Some(found);
    }
  }
}
