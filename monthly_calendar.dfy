/**
 * The month view of the activity calendar: which days the grid shows, which
 * activities each day cell lists, the colour of an activity chip, and the
 * "show three, then +N more" rule.
 *
 * Days are integer day numbers counted from 1970-01-01, which was a Thursday;
 * instants are milliseconds on the same scale. Weekday 0 is Sunday, as for
 * `Date.getDay`.
 */
module MonthlyCalendar {
  import opened Wrappers
  import opened Seqs

  /** The weekday of 1970-01-01 (Thursday). */
  const EpochWeekday := 4

  const MsPerDay := 86_400_000

  /** `Date.getDay` of a day number: 0 is Sunday, 6 is Saturday. */
  function Weekday(d: int): (w: int)
    ensures 0 <= w < 7
  {
    (d + EpochWeekday) % 7
  }

  /** Counting `i` days on from a Sunday lands on weekday `i % 7`. */
  lemma WeekdayFromSunday(sunday: int, i: int)
    requires Weekday(sunday) == 0
    ensures Weekday(sunday + i) == i % 7
  {
    var k := (sunday + EpochWeekday) / 7;
    assert sunday + EpochWeekday == 7 * k;
    assert sunday + i + EpochWeekday == 7 * k + i;
  }

  /** The first grid day: the month start moved back by its weekday. */
  function GridStart(monthStart: int): (d: int)
    ensures Weekday(d) == 0
    ensures d <= monthStart <= d + 6
  {
    var w := Weekday(monthStart);
    var k := (monthStart + EpochWeekday) / 7;
    assert monthStart - w + EpochWeekday == 7 * k;
    monthStart - w
  }

  /** The last grid day: the month end moved forward by 6 minus its weekday. */
  function GridEnd(monthEnd: int): (d: int)
    ensures Weekday(d) == 6
    ensures monthEnd <= d <= monthEnd + 6
  {
    var w := Weekday(monthEnd);
    var k := (monthEnd + EpochWeekday) / 7;
    assert monthEnd + (6 - w) + EpochWeekday == 7 * k + 6;
    monthEnd + (6 - w)
  }

  /** `eachDayOfInterval({start: lo, end: hi})`: every day from `lo` to `hi`, in order. */
  function EachDay(lo: int, hi: int): (days: seq<int>)
    requires lo <= hi
    ensures |days| == hi - lo + 1
    ensures forall i :: 0 <= i < |days| ==> days[i] == lo + i
  {
    seq(hi - lo + 1, i => lo + i)
  }

  /**
   * The days the month grid shows, padded to whole Sunday-to-Saturday weeks:
   * the grid begins on a Sunday and ends on a Saturday, column `i % 7` of the
   * seven-column grid holds weekday `i % 7`, every day of the month is there,
   * and there are at most six padding days on either side.
   */
  function GridDays(monthStart: int, monthEnd: int): (days: seq<int>)
    requires monthStart <= monthEnd
    ensures |days| % 7 == 0 && |days| >= 7
    ensures Weekday(days[0]) == 0 && Weekday(days[|days| - 1]) == 6
    ensures forall i :: 0 <= i < |days| ==> days[i] == days[0] + i && Weekday(days[i]) == i % 7
    ensures forall d :: monthStart <= d <= monthEnd ==> d in days
    ensures monthStart - days[0] == Weekday(monthStart) <= 6
    ensures days[|days| - 1] - monthEnd == 6 - Weekday(monthEnd) <= 6
  {
    var lo, hi := GridStart(monthStart), GridEnd(monthEnd);
    var days := EachDay(lo, hi);
    assert forall i :: 0 <= i < |days| ==> Weekday(days[i]) == i % 7 by {
      forall i | 0 <= i < |days| ensures Weekday(days[i]) == i % 7 {
        WeekdayFromSunday(lo, i);
      }
    }
    WeekdayFromSunday(lo, hi - lo);
    forall d | monthStart <= d <= monthEnd ensures d in days {
      assert days[d - lo] == d;
    }
    days
  }

  /** A month of 28 to 31 days fills four to six whole weeks: 28 to 42 grid cells. */
  lemma GridSize(monthStart: int, monthEnd: int)
    requires 28 <= monthEnd - monthStart + 1 <= 31
    ensures var n := |GridDays(monthStart, monthEnd)|; 28 <= n <= 42 && n / 7 in {4, 5, 6}
  {
    var n := |GridDays(monthStart, monthEnd)|;
    assert monthEnd - monthStart + 1 <= n <= monthEnd - monthStart + 13;
  }

  /** A parsed timestamp; `Invalid` is the Invalid Date that `parseISO` gives for a malformed string. */
  datatype Instant = Invalid | At(ms: int)

  /** The Date comparison `a <= b`; any comparison with an Invalid Date is false. */
  predicate AtMost(a: Instant, b: Instant) {
    a.At? && b.At? && a.ms <= b.ms
  }

  /** `startOfDay(day)`: the midnight that opens `day`. */
  function DayStart(day: int): (s: Instant)
    ensures s.At? && s.ms % MsPerDay == 0 && s.ms / MsPerDay == day
  {
    At(day * MsPerDay)
  }

  /** `endOfDay(day)`: the last millisecond before the next day starts. */
  function DayEnd(day: int): (e: Instant)
    ensures e.At? && DayStart(day).ms < e.ms && e.ms + 1 == DayStart(day + 1).ms
  {
    At(day * MsPerDay + MsPerDay - 1)
  }

  /** The day an instant falls on. */
  function DayOf(ms: int): (day: int)
    ensures AtMost(DayStart(day), At(ms)) && AtMost(At(ms), DayEnd(day))
  {
    ms / MsPerDay
  }

  datatype Activity = Activity(
    id: string,
    nama: string,
    waktuMulai: Instant,
    waktuSelesai: Instant,
    jenisGiat: string,
    tempat: string,
    penyelenggara: string)

  /**
   * The test that lists activity `a` in the cell of `day`. A valid start or
   * a valid end on that day is enough; with neither timestamp valid, the
   * activity is listed nowhere.
   */
  predicate OccursOn(a: Activity, day: int)
    ensures a.waktuMulai.At? && DayOf(a.waktuMulai.ms) == day ==> OccursOn(a, day)
    ensures a.waktuSelesai.At? && DayOf(a.waktuSelesai.ms) == day ==> OccursOn(a, day)
    ensures a.waktuMulai.Invalid? && a.waktuSelesai.Invalid? ==> !OccursOn(a, day)
  {
    || (AtMost(DayStart(day), a.waktuMulai) && AtMost(a.waktuMulai, DayEnd(day)))
    || (AtMost(DayStart(day), a.waktuSelesai) && AtMost(a.waktuSelesai, DayEnd(day)))
    || (AtMost(a.waktuMulai, DayStart(day)) && AtMost(DayEnd(day), a.waktuSelesai))
  }

  function ListedOn(day: int): Activity -> bool {
    a => OccursOn(a, day)
  }

  /** `getActivitiesForDay`. */
  function ActivitiesForDay(activities: seq<Activity>, day: int): (r: seq<Activity>)
    ensures |r| <= |activities|
    ensures forall i :: 0 <= i < |r| ==> OccursOn(r[i], day)
  {
    Filter(activities, ListedOn(day))
  }

  /** An activity is listed for a day exactly when it is one of the activities and occurs on that day. */
  lemma ActivitiesForDayMembership(activities: seq<Activity>, day: int, a: Activity)
    ensures a in ActivitiesForDay(activities, day) <==> a in activities && OccursOn(a, day)
  {
    FilterMembership(activities, ListedOn(day), a);
  }

  /** The listed activities keep the order they have in `activities`. */
  lemma ActivitiesForDayInOrder(activities: seq<Activity>, day: int)
    ensures IsSubsequence(ActivitiesForDay(activities, day), activities)
  {
    FilterIsSubsequence(activities, ListedOn(day));
  }

  /** For a well-formed activity the three-case test is plain interval overlap. */
  lemma OccursOnIffOverlap(a: Activity, day: int)
    requires a.waktuMulai.At? && a.waktuSelesai.At? && a.waktuMulai.ms <= a.waktuSelesai.ms
    ensures OccursOn(a, day) <==>
      a.waktuMulai.ms <= DayEnd(day).ms && a.waktuSelesai.ms >= DayStart(day).ms
  {
  }

  /**
   * A well-formed activity is listed on exactly the days from the day it
   * starts to the day it ends, both included.
   */
  lemma OccursOnIffWithinDays(a: Activity, day: int)
    requires a.waktuMulai.At? && a.waktuSelesai.At? && a.waktuMulai.ms <= a.waktuSelesai.ms
    ensures OccursOn(a, day) <==> DayOf(a.waktuMulai.ms) <= day <= DayOf(a.waktuSelesai.ms)
  {
    OccursOnIffOverlap(a, day);
    var first, last := DayOf(a.waktuMulai.ms), DayOf(a.waktuSelesai.ms);
    assert first * MsPerDay <= a.waktuMulai.ms < first * MsPerDay + MsPerDay;
    assert last * MsPerDay <= a.waktuSelesai.ms < last * MsPerDay + MsPerDay;
  }

  /**
   * A well-formed activity appears in the cell of every day from its start
   * day to its end day, and in no other.
   */
  lemma ListedExactlyOnItsDays(activities: seq<Activity>, a: Activity, day: int)
    requires a in activities
    requires a.waktuMulai.At? && a.waktuSelesai.At? && a.waktuMulai.ms <= a.waktuSelesai.ms
    ensures a in ActivitiesForDay(activities, day) <==>
      DayOf(a.waktuMulai.ms) <= day <= DayOf(a.waktuSelesai.ms)
  {
    ActivitiesForDayMembership(activities, day, a);
    OccursOnIffWithinDays(a, day);
  }

  /** An activity whose start did not parse can only be listed through its end. */
  lemma InvalidStartListedByEnd(a: Activity, day: int)
    requires a.waktuMulai.Invalid?
    ensures OccursOn(a, day) <==> a.waktuSelesai.At? && DayOf(a.waktuSelesai.ms) == day
  {
    if a.waktuSelesai.At? {
      var ms := a.waktuSelesai.ms;
      assert DayOf(ms) * MsPerDay <= ms < DayOf(ms) * MsPerDay + MsPerDay;
    }
  }

  const ActivityColors: seq<string> := [
    "bg-red-500", "bg-blue-500", "bg-purple-500", "bg-orange-500",
    "bg-green-500", "bg-pink-500", "bg-cyan-500", "bg-amber-500"
  ]

  /** The sum of the character codes of `s`: never negative, and at least each single code. */
  function CodeSum(s: string): (r: nat)
    ensures forall i :: 0 <= i < |s| ==> s[i] as nat <= r
  {
    if s == [] then 0 else s[0] as nat + CodeSum(s[1..])
  }

  lemma {:induction false} CodeSumConcat(a: string, b: string)
    ensures CodeSum(a + b) == CodeSum(a) + CodeSum(b)
  {
    if a == [] {
      assert a + b == b;
    } else {
      assert (a + b)[1..] == a[1..] + b;
      CodeSumConcat(a[1..], b);
    }
  }

  /** Taking out the character at `k` takes its code out of the sum. */
  lemma CodeSumRemove(b: string, k: int)
    requires 0 <= k < |b|
    ensures CodeSum(b) == b[k] as nat + CodeSum(b[..k] + b[k + 1..])
  {
    assert b == b[..k] + b[k..];
    assert b[k..][1..] == b[k + 1..];
    CodeSumConcat(b[..k], b[k..]);
    CodeSumConcat(b[..k], b[k + 1..]);
  }

  lemma MultisetRemove(b: string, k: int)
    requires 0 <= k < |b|
    ensures multiset(b[..k] + b[k + 1..]) == multiset(b) - multiset{b[k]}
  {
    assert b == b[..k] + [b[k]] + b[k + 1..];
    assert multiset(b) == multiset(b[..k]) + multiset{b[k]} + multiset(b[k + 1..]);
  }

  /** The code sum depends only on which characters occur, and how often. */
  lemma {:induction false} CodeSumOfPermutation(a: string, b: string)
    requires multiset(a) == multiset(b)
    ensures CodeSum(a) == CodeSum(b)
    decreases |a|
  {
    if a == [] {
      assert |b| == |multiset(b)| == 0;
    } else {
      var k := MatchFirst(a, b);
      CodeSumOfPermutation(a[1..], b[..k] + b[k + 1..]);
      CodeSumRemove(b, k);
    }
  }

  /** The first character of `a` sits somewhere in its permutation `b`, and the rests are permutations too. */
  lemma MatchFirst(a: string, b: string) returns (k: int)
    requires a != [] && multiset(a) == multiset(b)
    ensures 0 <= k < |b| && b[k] == a[0]
    ensures multiset(a[1..]) == multiset(b[..k] + b[k + 1..])
  {
    k := IndexIn(a[0], b);
    MultisetRemove(b, k);
    MultisetRemove(a, 0);
    assert a[..0] + a[1..] == a[1..];
  }

  lemma IndexIn(c: char, b: string) returns (k: int)
    requires c in multiset(b)
    ensures 0 <= k < |b| && b[k] == c
  {
    assert c in b;
    k :| 0 <= k < |b| && b[k] == c;
  }

  /** `getActivityColor`: the palette entry at the code sum of the id, modulo the palette size. */
  function ActivityColor(activityId: string): (c: string)
    ensures c in ActivityColors
    ensures c == ActivityColors[CodeSum(activityId) % 8]
  {
    ActivityColors[CodeSum(activityId) % |ActivityColors|]
  }

  /** Ids made of the same characters, in any order, get the same colour. */
  lemma SameCharactersSameColor(id1: string, id2: string)
    requires multiset(id1) == multiset(id2)
    ensures ActivityColor(id1) == ActivityColor(id2)
  {
    CodeSumOfPermutation(id1, id2);
  }

  /** A cell lists at most this many activities before the "+N more" line. */
  const MaxShown := 3

  /** One cell of the grid, as rendered. */
  datatype Cell = Cell(
    day: int,
    inMonth: bool,
    isToday: bool,
    shown: seq<Activity>,
    more: Option<nat>)

  /**
   * The cell of `day`: the first three listed activities and, when more are
   * listed, the count of the rest.
   */
  function CellFor(activities: seq<Activity>, day: int, monthStart: int, monthEnd: int, today: int): (c: Cell)
    ensures c.day == day
    ensures c.inMonth <==> monthStart <= day <= monthEnd
    ensures c.isToday <==> day == today
    ensures var listed := ActivitiesForDay(activities, day);
      && c.shown <= listed
      && |c.shown| == Min(|listed|, MaxShown)
      && (c.more.Some? <==> |listed| > MaxShown)
      && |c.shown| + c.more.GetOr(0) == |listed|
  {
    var listed := ActivitiesForDay(activities, day);
    Cell(
      day,
      monthStart <= day <= monthEnd,
      day == today,
      Take(listed, MaxShown),
      if |listed| > MaxShown then Some(|listed| - MaxShown) else None)
  }

  /**
   * The whole month view: one cell per grid day, in order, so that the cell
   * in column `i % 7` is always a day of weekday `i % 7` under the
   * Sun..Sat header.
   */
  function MonthView(activities: seq<Activity>, monthStart: int, monthEnd: int, today: int): (cells: seq<Cell>)
    requires monthStart <= monthEnd
    ensures |cells| == |GridDays(monthStart, monthEnd)|
    ensures forall i :: 0 <= i < |cells| ==>
      cells[i].day == GridDays(monthStart, monthEnd)[i] && Weekday(cells[i].day) == i % 7
    ensures forall i :: 0 <= i < |cells| ==>
      (cells[i].inMonth <==> monthStart <= cells[i].day <= monthEnd)
    ensures forall i :: 0 <= i < |cells| ==> (cells[i].isToday <==> cells[i].day == today)
    ensures forall i :: 0 <= i < |cells| ==>
      var listed := ActivitiesForDay(activities, cells[i].day);
      && cells[i].shown <= listed
      && |cells[i].shown| == Min(|listed|, MaxShown)
      && (cells[i].more.Some? <==> |listed| > MaxShown)
      && |cells[i].shown| + cells[i].more.GetOr(0) == |listed|
  {
    var days := GridDays(monthStart, monthEnd);
    seq(|days|, i requires 0 <= i < |days| => CellFor(activities, days[i], monthStart, monthEnd, today))
  }
}
