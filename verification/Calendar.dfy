/** The trading calendar: date arithmetic by bisection over the sorted trading days. Dates are day numbers. */
module Calendar {
  import opened Outcomes
  import opened Sorting

  predicate NotAfter(a: int, b: int) { a <= b }

  /** The calendar keeps its days in ascending order. */
  datatype TradingCalendar = TradingCalendar(dates: seq<int>) {
    ghost predicate Valid() { Sorted(dates, NotAfter) }

    /** No day was listed twice. */
    ghost predicate DuplicateFree() { Increasing(dates) }
  }

  function Make(tradeDates: seq<int>): TradingCalendar {
    TradingCalendar(Sort(tradeDates, NotAfter))
  }

  /** How many days lie strictly before d. */
  function Before(s: seq<int>, d: int): (k: nat)
    ensures k <= |s|
  {
    if s == [] then 0 else (if s[0] < d then 1 else 0) + Before(s[1..], d)
  }

  /** How many days lie at or before d. */
  function UpTo(s: seq<int>, d: int): nat {
    Before(s, d + 1)
  }

  // ---------------------------------------------------------------- bisection

  /** In a sorted list the days before d come first. */
  lemma {:induction false} BeforeSplits(s: seq<int>, d: int)
    requires Sorted(s, NotAfter)
    ensures forall i :: 0 <= i < |s| ==> (s[i] < d <==> i < Before(s, d))
  {
    if s != [] {
      BeforeSplits(s[1..], d);
      assert Before(s[1..], d) > 0 ==> s[1..][0] < d;
      assert forall i :: 0 < i < |s| ==> NotAfter(s[0], s[i]);
    }
  }

  lemma BeforeUnique(s: seq<int>, d: int, k: nat)
    requires Sorted(s, NotAfter) && k <= |s|
    requires forall i :: 0 <= i < k ==> s[i] < d
    requires forall i :: k <= i < |s| ==> s[i] >= d
    ensures k == Before(s, d)
  {
    BeforeSplits(s, d);
    assert k < |s| ==> s[k] >= d;
    assert k > 0 ==> s[k - 1] < d;
  }

  method BisectLeft(s: seq<int>, d: int) returns (k: nat)
    requires Sorted(s, NotAfter)
    ensures k == Before(s, d)
  {
    var lo, hi := 0, |s|;
    while lo < hi
      invariant 0 <= lo <= hi <= |s|
      invariant forall i :: 0 <= i < lo ==> s[i] < d
      invariant forall i :: hi <= i < |s| ==> s[i] >= d
    {
      var mid := (lo + hi) / 2;
      if s[mid] < d {
        assert forall i :: 0 <= i < mid ==> NotAfter(s[i], s[mid]);
        lo := mid + 1;
      } else {
        assert forall i :: mid < i < |s| ==> NotAfter(s[mid], s[i]);
        hi := mid;
      }
    }
    BeforeUnique(s, d, lo);
    k := lo;
  }

  method BisectRight(s: seq<int>, d: int) returns (k: nat)
    requires Sorted(s, NotAfter)
    ensures k == UpTo(s, d)
  {
    var lo, hi := 0, |s|;
    while lo < hi
      invariant 0 <= lo <= hi <= |s|
      invariant forall i :: 0 <= i < lo ==> s[i] <= d
      invariant forall i :: hi <= i < |s| ==> s[i] > d
    {
      var mid := (lo + hi) / 2;
      if d < s[mid] {
        assert forall i :: mid < i < |s| ==> NotAfter(s[mid], s[i]);
        hi := mid;
      } else {
        assert forall i :: 0 <= i < mid ==> NotAfter(s[i], s[mid]);
        lo := mid + 1;
      }
    }
    BeforeUnique(s, d + 1, lo);
    k := lo;
  }

  // ---------------------------------------------------------------- queries

  /** Indexing as Python does it: negative positions count from the end. */
  function At(s: seq<int>, i: int): Outcome<int> {
    if 0 <= i < |s| then Ok(s[i])
    else if -|s| <= i < 0 then Ok(s[|s| + i])
    else Raised(IndexError)
  }

  /** The n-th trading day before d, d itself not counted. */
  function Prev(cal: TradingCalendar, d: int, n: int): Outcome<int> {
    var target := Before(cal.dates, d) - n;
    if target < 0 then Raised(ValueError) else At(cal.dates, target)
  }

  /** The n-th trading day after d, d itself not counted. */
  function Next(cal: TradingCalendar, d: int, n: int): Outcome<int> {
    var target := UpTo(cal.dates, d) + n - 1;
    if target >= |cal.dates| then Raised(ValueError) else At(cal.dates, target)
  }

  /** The trading days from start to end, both included. */
  function Range(cal: TradingCalendar, start: int, end: int): seq<int> {
    var lo, hi := Before(cal.dates, start), UpTo(cal.dates, end);
    if lo <= hi <= |cal.dates| then cal.dates[lo..hi] else []
  }

  /** n trading days from d (backwards when negative), starting from the last trading day at or before d. */
  function Offset(cal: TradingCalendar, d: int, n: int): Outcome<int> {
    var base := if d in cal.dates then Before(cal.dates, d) else UpTo(cal.dates, d) - 1;
    if base < 0 then Raised(ValueError)
    else if base + n < 0 || base + n >= |cal.dates| then Raised(ValueError)
    else Ok(cal.dates[base + n])
  }

  method GetPrevTradeDate(cal: TradingCalendar, d: int, n: int) returns (r: Outcome<int>)
    requires cal.Valid()
    ensures r == Prev(cal, d, n)
  {
    var idx := BisectLeft(cal.dates, d);
    var target := idx - n;
    if target < 0 {
      return Raised(ValueError);
    }
    r := At(cal.dates, target);
  }

  method GetNextTradeDate(cal: TradingCalendar, d: int, n: int) returns (r: Outcome<int>)
    requires cal.Valid()
    ensures r == Next(cal, d, n)
  {
    var idx := BisectRight(cal.dates, d);
    var target := idx + n - 1;
    if target >= |cal.dates| {
      return Raised(ValueError);
    }
    r := At(cal.dates, target);
  }

  method GetTradeDates(cal: TradingCalendar, start: int, end: int) returns (r: seq<int>)
    requires cal.Valid()
    ensures r == Range(cal, start, end)
  {
    var lo := BisectLeft(cal.dates, start);
    var hi := BisectRight(cal.dates, end);
    r := if lo <= hi then cal.dates[lo..hi] else [];
  }

  method OffsetTradeDate(cal: TradingCalendar, d: int, n: int) returns (r: Outcome<int>)
    requires cal.Valid()
    ensures r == Offset(cal, d, n)
  {
    var base: int;
    if d in cal.dates {
      base := BisectLeft(cal.dates, d);
    } else {
      var idx: int := BisectRight(cal.dates, d);
      base := idx - 1;
      if base < 0 {
        return Raised(ValueError);
      }
    }
    var target := base + n;
    if target < 0 || target >= |cal.dates| {
      return Raised(ValueError);
    }
    r := Ok(cal.dates[target]);
  }

  // ---------------------------------------------------------------- calendar rows

  datatype Row = Row(calDate: int, isOpen: bool)

  function Rows(openDays: set<int>, start: int, end: int): (r: seq<Row>)
    decreases end - start
  {
    if start > end then [] else [Row(start, start in openDays)] + Rows(openDays, start + 1, end)
  }

  method BuildCalendarRows(openDays: seq<int>, start: int, end: int) returns (rows: seq<Row>)
    ensures rows == Rows((set d | d in openDays), start, end)
  {
    var openSet := set d | d in openDays;
    rows := [];
    var d := start;
    while d <= end
      invariant start <= d && (start <= end ==> d <= end + 1)
      invariant rows + Rows(openSet, d, end) == Rows(openSet, start, end)
    {
      rows := rows + [Row(d, d in openSet)];
      d := d + 1;
    }
  }

  /** The open days recorded in a list of rows. */
  function OpenDays(rows: seq<Row>): seq<int> {
    if rows == [] then [] else (if rows[0].isOpen then [rows[0].calDate] else []) + OpenDays(rows[1..])
  }

  function MissingTradingDays(openDays: seq<int>, presentDays: seq<int>): seq<int> {
    Ascending((set d | d in openDays) - (set d | d in presentDays))
  }

  // ---------------------------------------------------------------- main results

  lemma MakeValid(tradeDates: seq<int>)
    ensures Make(tradeDates).Valid()
    ensures multiset(Make(tradeDates).dates) == multiset(tradeDates)
  {
    NotAfterIsOrder();
    SortSorted(tradeDates, NotAfter);
    SortMembers(tradeDates, NotAfter);
  }

  lemma NotAfterIsOrder()
    ensures TotalPreorder(NotAfter)
  {
  }

  lemma Valid(cal: TradingCalendar)
    requires cal.DuplicateFree()
    ensures cal.Valid()
  {
    forall i, j | 0 <= i < j < |cal.dates|
      ensures NotAfter(cal.dates[i], cal.dates[j])
    {
    }
  }

  /** The position of the i-th day, from either side. */
  lemma Positions(cal: TradingCalendar, i: nat)
    requires cal.DuplicateFree() && i < |cal.dates|
    ensures Before(cal.dates, cal.dates[i]) == i && UpTo(cal.dates, cal.dates[i]) == i + 1
  {
    Valid(cal);
    BeforeUnique(cal.dates, cal.dates[i], i);
    BeforeUnique(cal.dates, cal.dates[i] + 1, i + 1);
  }

  /** A day that is not a trading day has the same number of trading days before it as up to it. */
  lemma Gap(cal: TradingCalendar, d: int)
    requires cal.Valid() && d !in cal.dates
    ensures Before(cal.dates, d) == UpTo(cal.dates, d)
  {
    BeforeSplits(cal.dates, d);
    forall i | Before(cal.dates, d) <= i < |cal.dates|
      ensures cal.dates[i] >= d + 1
    {
      assert cal.dates[i] in cal.dates;
    }
    BeforeUnique(cal.dates, d + 1, Before(cal.dates, d));
  }

  lemma NextAt(cal: TradingCalendar, i: nat, n: int)
    requires cal.DuplicateFree() && i < |cal.dates| && n >= 1
    ensures Next(cal, cal.dates[i], n) == if i + n < |cal.dates| then Ok(cal.dates[i + n]) else Raised(ValueError)
  {
    Positions(cal, i);
  }

  lemma PrevAt(cal: TradingCalendar, i: nat, n: int)
    requires cal.DuplicateFree() && i < |cal.dates| && n >= 1
    ensures Prev(cal, cal.dates[i], n) == if i - n >= 0 then Ok(cal.dates[i - n]) else Raised(ValueError)
  {
    Positions(cal, i);
  }

  lemma NextThenPrev(cal: TradingCalendar, i: nat, n: nat)
    requires cal.DuplicateFree() && i < |cal.dates| && n >= 1
    ensures var d := cal.dates[i];
      Next(cal, d, n).Ok? ==> Next(cal, d, n).value in cal.dates && Prev(cal, Next(cal, d, n).value, n) == Ok(d)
  {
    NextAt(cal, i, n);
    if i + n < |cal.dates| {
      PrevAt(cal, i + n, n);
    }
  }

  lemma PrevThenNext(cal: TradingCalendar, i: nat, n: nat)
    requires cal.DuplicateFree() && i < |cal.dates| && n >= 1
    ensures var d := cal.dates[i];
      Prev(cal, d, n).Ok? ==> Prev(cal, d, n).value in cal.dates && Next(cal, Prev(cal, d, n).value, n) == Ok(d)
  {
    PrevAt(cal, i, n);
    if i - n >= 0 {
      NextAt(cal, i - n, n);
    }
  }

  /** On trading days, going n days forward and n days back are inverse, in both orders. */
  lemma NextPrevInverse(cal: TradingCalendar, d: int, n: int)
    requires cal.DuplicateFree() && d in cal.dates && n >= 1
    ensures Next(cal, d, n).Ok? ==> Next(cal, d, n).value in cal.dates && Prev(cal, Next(cal, d, n).value, n) == Ok(d)
    ensures Prev(cal, d, n).Ok? ==> Prev(cal, d, n).value in cal.dates && Next(cal, Prev(cal, d, n).value, n) == Ok(d)
  {
    var i :| 0 <= i < |cal.dates| && cal.dates[i] == d;
    NextThenPrev(cal, i, n);
    PrevThenNext(cal, i, n);
  }

  /** Offsets add up: after a first offset that stays in range, a second one is the sum of both, in range or not. */
  lemma OffsetsCompose(cal: TradingCalendar, d: int, a: int, b: int)
    requires cal.DuplicateFree() && Offset(cal, d, a).Ok?
    ensures Offset(cal, Offset(cal, d, a).value, b) == Offset(cal, d, a + b)
  {
    var base := if d in cal.dates then Before(cal.dates, d) else UpTo(cal.dates, d) - 1;
    Positions(cal, base + a);
    assert cal.dates[base + a] in cal.dates;
  }

  /** A positive offset is the n-th next trading day, wherever some trading day lies at or before d. */
  lemma OffsetForward(cal: TradingCalendar, d: int, n: int)
    requires cal.DuplicateFree() && n >= 1
    ensures Offset(cal, d, n) == if UpTo(cal.dates, d) == 0 then Raised(ValueError) else Next(cal, d, n)
  {
    Valid(cal);
    if d in cal.dates {
      var i :| 0 <= i < |cal.dates| && cal.dates[i] == d;
      Positions(cal, i);
    }
  }

  /** For every day and every n, the next-day query agrees with the offset exactly when the target lies past the last
      day (both raise), or some trading day lies at or before d and the target is not before the first day. Where it is
      before the first day the query's negative position wraps around and counts from the end of the calendar. */
  lemma NextAgreesWithOffsetIff(cal: TradingCalendar, d: int, n: int)
    requires cal.DuplicateFree()
    ensures var dates, target := cal.dates, UpTo(cal.dates, d) + n - 1;
      && (Next(cal, d, n) == Offset(cal, d, n) <==> target >= |dates| || (UpTo(dates, d) > 0 && target >= 0))
      && (-|dates| <= target < 0 ==> Next(cal, d, n) == Ok(dates[|dates| + target]))
  {
    Valid(cal);
    if d in cal.dates {
      var i :| 0 <= i < |cal.dates| && cal.dates[i] == d;
      Positions(cal, i);
    }
  }

  /** Before the first trading day the two differ at once: step 1 is the first trading day for one and an error for the
      other. From a trading day a step back past the first day wraps around for one and is an error for the other. */
  lemma NextAndOffsetDiffer(cal: TradingCalendar)
    requires cal.dates == [10, 11, 12]
    ensures Next(cal, 9, 1) == Ok(10) && Offset(cal, 9, 1) == Raised(ValueError)
    ensures Next(cal, 10, -1) == Ok(12) && Offset(cal, 10, -1) == Raised(ValueError)
  {
    var s := cal.dates;
    BeforeUnique(s, 10, 0);
    BeforeUnique(s, 11, 1);
    assert s[0] == 10;
  }

  /** A negative offset is the n-th previous trading day from a trading day; from any other day it goes one day further
      back, because the offset first moves to the last trading day before d. */
  lemma OffsetBackward(cal: TradingCalendar, d: int, n: int)
    requires cal.DuplicateFree() && n >= 1
    ensures Offset(cal, d, -n) == Prev(cal, d, if d in cal.dates then n else n + 1)
  {
    Valid(cal);
    if d in cal.dates {
      var i :| 0 <= i < |cal.dates| && cal.dates[i] == d;
      Positions(cal, i);
    } else {
      Gap(cal, d);
    }
  }

  /** So the two agree exactly on trading days, and where there is no day to go back to (both raise). */
  lemma OffsetBackwardAgreesIff(cal: TradingCalendar, d: int, n: int)
    requires cal.DuplicateFree() && n >= 1
    ensures Offset(cal, d, -n) == Prev(cal, d, n) <==> d in cal.dates || Prev(cal, d, n).Raised?
  {
    OffsetBackward(cal, d, n);
    Valid(cal);
    if d !in cal.dates {
      Gap(cal, d);
      var t := Before(cal.dates, d) - n;
      assert t > 0 ==> cal.dates[t - 1] < cal.dates[t];
    }
  }

  /** Of three parts only the middle one is selected. */
  lemma MiddlePart(a: seq<int>, b: seq<int>, c: seq<int>, p: int -> bool)
    requires (forall i :: 0 <= i < |a| ==> !p(a[i])) && (forall i :: 0 <= i < |c| ==> !p(c[i]))
    requires forall i :: 0 <= i < |b| ==> p(b[i])
    ensures Filter(a + (b + c), p) == b
  {
    FilterConcat(a, b + c, p);
    FilterConcat(b, c, p);
    FilterNone(a, p);
    FilterAll(b, p);
    FilterNone(c, p);
  }

  lemma MiddleRange(a: seq<int>, b: seq<int>, c: seq<int>, start: int, end: int)
    requires (forall i :: 0 <= i < |a| ==> a[i] < start) && (forall i :: 0 <= i < |c| ==> c[i] > end)
    requires forall i :: 0 <= i < |b| ==> start <= b[i] <= end
    ensures Filter(a + (b + c), (d: int) => start <= d <= end) == b
  {
    MiddlePart(a, b, c, (d: int) => start <= d <= end);
  }

  /** Where the bisection points put the days. */
  lemma SliceBounds(s: seq<int>, start: int, end: int)
    requires Sorted(s, NotAfter) && Before(s, start) <= UpTo(s, end)
    ensures forall i :: 0 <= i < Before(s, start) ==> s[i] < start
    ensures forall i :: Before(s, start) <= i < UpTo(s, end) ==> start <= s[i] <= end
    ensures forall i :: UpTo(s, end) <= i < |s| ==> s[i] > end
  {
    BeforeSplits(s, start);
    BeforeSplits(s, end + 1);
  }

  lemma ThreeParts(s: seq<int>, lo: nat, hi: nat)
    requires lo <= hi <= |s|
    ensures s == s[..lo] + (s[lo..hi] + s[hi..])
  {
  }

  /** The slice between the two bisection points is exactly the days in the range, in order. */
  lemma SliceIsFilter(s: seq<int>, start: int, end: int)
    requires Sorted(s, NotAfter) && Before(s, start) <= UpTo(s, end)
    ensures s[Before(s, start)..UpTo(s, end)] == Filter(s, (d: int) => start <= d <= end)
  {
    var lo, hi := Before(s, start), UpTo(s, end);
    SliceBounds(s, start, end);
    ThreeParts(s, lo, hi);
    MiddleRange(s[..lo], s[lo..hi], s[hi..], start, end);
  }

  lemma NothingInRange(s: seq<int>, start: int, end: int)
    requires Sorted(s, NotAfter) && UpTo(s, end) < Before(s, start)
    ensures Filter(s, (d: int) => start <= d <= end) == []
  {
    BeforeSplits(s, start);
    BeforeSplits(s, end + 1);
    FilterNone(s, (d: int) => start <= d <= end);
  }

  lemma RangeIsFilter(cal: TradingCalendar, start: int, end: int)
    requires cal.Valid()
    ensures Range(cal, start, end) == Filter(cal.dates, (d: int) => start <= d <= end)
  {
    if Before(cal.dates, start) <= UpTo(cal.dates, end) {
      SliceIsFilter(cal.dates, start, end);
    } else {
      NothingInRange(cal.dates, start, end);
    }
  }

  /** From a trading day to its n-th successor there are n + 1 trading days, both ends included. */
  lemma CountToNext(cal: TradingCalendar, d: int, n: int)
    requires cal.DuplicateFree() && d in cal.dates && n >= 1 && Next(cal, d, n).Ok?
    ensures |Range(cal, d, Next(cal, d, n).value)| == n + 1
  {
    var i :| 0 <= i < |cal.dates| && cal.dates[i] == d;
    Positions(cal, i);
    Positions(cal, i + n);
  }

  lemma {:induction false} RowsAre(openDays: set<int>, start: int, end: int)
    ensures Increasing(OpenDays(Rows(openDays, start, end)))
    ensures forall d :: d in OpenDays(Rows(openDays, start, end)) <==> start <= d <= end && d in openDays
    ensures |Rows(openDays, start, end)| == if start <= end then end - start + 1 else 0
    decreases end - start
  {
    if start <= end {
      RowsAre(openDays, start + 1, end);
      var rest := Rows(openDays, start + 1, end);
      assert Rows(openDays, start, end)[1..] == rest;
      Prepend(start, OpenDays(rest));
      if start !in openDays {
        assert OpenDays(Rows(openDays, start, end)) == OpenDays(rest);
      }
    }
  }

  /** Storing a calendar as one row per day and reading the open days back gives exactly the days of the range. */
  lemma RebuiltCalendarAgrees(cal: TradingCalendar, start: int, end: int)
    requires cal.DuplicateFree()
    ensures var openSet := set d | d in cal.dates;
      Make(OpenDays(Rows(openSet, start, end))).dates == Range(cal, start, end)
  {
    var openSet := set d | d in cal.dates;
    Valid(cal);
    RowsAre(openSet, start, end);
    var p := (d: int) => start <= d <= end;
    RangeIsFilter(cal, start, end);
    FilterMembers(cal.dates, p);
    FilterIncreasing(cal.dates, p);
    IncreasingUnique(OpenDays(Rows(openSet, start, end)), Range(cal, start, end));
    SortedIsSorted(OpenDays(Rows(openSet, start, end)));
  }

  lemma {:induction false} SortedIsSorted(s: seq<int>)
    requires Increasing(s)
    ensures Sort(s, NotAfter) == s
  {
    if s != [] {
      SortedIsSorted(s[1..]);
    }
  }

  lemma RangeOfRange(cal: TradingCalendar, start: int, end: int, a: int, b: int)
    requires cal.DuplicateFree() && start <= a && b <= end
    ensures Range(TradingCalendar(Range(cal, start, end)), a, b) == Range(cal, a, b)
  {
    Valid(cal);
    RangeIsFilter(cal, start, end);
    RangeIsFilter(cal, a, b);
    var inner := TradingCalendar(Range(cal, start, end));
    FilterIncreasing(cal.dates, (d: int) => start <= d <= end);
    Valid(inner);
    RangeIsFilter(inner, a, b);
    var wide, narrow := (d: int) => start <= d <= end, (d: int) => a <= d <= b;
    FilterTwice(cal.dates, wide, narrow, narrow);
  }

  /** The rebuilt calendar also steps as the original does, as long as both ends of the step lie in the range. */
  lemma RebuiltStepsAgree(cal: TradingCalendar, start: int, end: int, d: int, n: int)
    requires cal.DuplicateFree() && d in cal.dates && start <= d <= end && n >= 1
    requires Next(cal, d, n).Ok? && Next(cal, d, n).value <= end
    ensures var rebuilt, e := TradingCalendar(Range(cal, start, end)), Next(cal, d, n).value;
      rebuilt.DuplicateFree() && Next(rebuilt, d, n) == Ok(e) && Prev(rebuilt, e, n) == Ok(d)
  {
    var i :| 0 <= i < |cal.dates| && cal.dates[i] == d;
    NextAt(cal, i, n);
    var lo, hi := Before(cal.dates, start), UpTo(cal.dates, end);
    WithinRange(cal, start, end, i);
    WithinRange(cal, start, end, i + n);
    SliceSteps(cal.dates, lo, hi, i, n);
  }

  lemma WithinRange(cal: TradingCalendar, start: int, end: int, i: nat)
    requires cal.DuplicateFree() && i < |cal.dates| && start <= cal.dates[i] <= end
    ensures Before(cal.dates, start) <= i < UpTo(cal.dates, end)
  {
    BeforeSplits(cal.dates, start);
    BeforeSplits(cal.dates, end + 1);
  }

  /** Steps inside a slice of the calendar. */
  lemma SliceSteps(dates: seq<int>, lo: nat, hi: nat, i: nat, n: nat)
    requires Increasing(dates) && lo <= i && n >= 1 && i + n < hi <= |dates|
    ensures var slice := TradingCalendar(dates[lo..hi]);
      slice.DuplicateFree() && Next(slice, dates[i], n) == Ok(dates[i + n]) &&
        Prev(slice, dates[i + n], n) == Ok(dates[i])
  {
    var slice := TradingCalendar(dates[lo..hi]);
    assert slice.dates[i - lo] == dates[i] && slice.dates[i - lo + n] == dates[i + n];
    NextAt(slice, i - lo, n);
    PrevAt(slice, i - lo + n, n);
  }

  /** No trading day is missing exactly when every open day is present; what is missing is in order, open and absent. */
  lemma MissingIs(openDays: seq<int>, presentDays: seq<int>)
    ensures var m := MissingTradingDays(openDays, presentDays);
      Increasing(m) && forall d :: d in m <==> d in openDays && d !in presentDays
  {
    AscendingIs((set d | d in openDays) - (set d | d in presentDays));
  }
}
