/**
 Five-field cron in UTC: field values, the day rule, and the next firing minute.

 Times are counted in minutes since the epoch; the civil calendar is a parameter that gives
 month, day and weekday of each day number.
 */
module Cron {
  import opened Wrappers

  const MINUTE_MS := 60000
  const MINUTES_PER_DAY := 1440
  const MAX_DAYS := 366 * 4 + 2

  datatype FieldName = MinuteField | HourField | DayField | MonthField | WeekdayField

  function Lowest(f: FieldName): int {
    match f case DayField => 1 case MonthField => 1 case _ => 0
  }

  function Highest(f: FieldName): int {
    match f case MinuteField => 59 case HourField => 23 case DayField => 31 case MonthField => 12 case WeekdayField => 7
  }

  // ----- fields -----

  datatype Range = Star | Span(low: int, high: int) | Single(v: int)

  /** One comma-separated part of a field: its range and the step after the slash, if any. */
  datatype Part = Part(range: Range, given: Option<int>)

  function From(p: Part, f: FieldName): int {
    match p.range case Star => Lowest(f) case Span(a, _) => a case Single(v) => v
  }

  function To(p: Part, f: FieldName): int {
    match p.range case Star => Highest(f) case Span(_, b) => b case Single(v) => v
  }

  function StepOf(p: Part): int {
    if p.given.Some? then p.given.value else 1
  }

  /** The field is literally `*`; `*` with a step is not a wildcard. */
  const Wildcard := [Part(Star, None)]

  predicate PartOk(p: Part, f: FieldName) {
    StepOf(p) >= 1 && Lowest(f) <= From(p, f) <= To(p, f) <= Highest(f)
  }

  /** Sunday is written 0 or 7. */
  function Fold(v: int, f: FieldName): int {
    if f.WeekdayField? && v == 7 then 0 else v
  }

  /** `v` is one of the values the part walks over: every `step`-th of its range. */
  predicate Walks(p: Part, f: FieldName, v: int)
    requires StepOf(p) >= 1
  {
    From(p, f) <= v <= To(p, f) && OnGrid(p, f, v)
  }

  predicate OnGrid(p: Part, f: FieldName, v: int)
    requires StepOf(p) >= 1
  {
    (v - From(p, f)) % StepOf(p) == 0
  }

  /** What the part contributes below `bound`. */
  function WalkBelow(p: Part, f: FieldName, bound: int): set<int>
    requires StepOf(p) >= 1
  {
    set v | From(p, f) <= v < bound && Walks(p, f, v) :: Fold(v, f)
  }

  function Walk(p: Part, f: FieldName): set<int>
    requires StepOf(p) >= 1
  {
    WalkBelow(p, f, To(p, f) + 1)
  }

  predicate PartsOk(parts: seq<Part>, f: FieldName) {
    forall i :: 0 <= i < |parts| ==> PartOk(parts[i], f)
  }

  /** The union of what the parts contribute. */
  function FieldValues(parts: seq<Part>, f: FieldName): set<int>
    requires PartsOk(parts, f)
  {
    if parts == [] then {}
    else FieldValues(parts[..|parts| - 1], f) + Walk(parts[|parts| - 1], f)
  }

  datatype CronField = CronField(values: set<int>, wildcard: bool)

  /** The values of a field, or `None` for a bad step or range. */
  method ParseField(parts: seq<Part>, f: FieldName) returns (r: Option<CronField>)
    ensures r.Some? <==> PartsOk(parts, f)
    ensures r.Some? ==> r.value == CronField(FieldValues(parts, f), parts == Wildcard)
  {
    var values: set<int> := {};
    for i := 0 to |parts|
      invariant PartsOk(parts[..i], f) && values == FieldValues(parts[..i], f)
    {
      var p := parts[i];
      if !PartOk(p, f) { return None; }
      assert parts[..i + 1][..i] == parts[..i];
      var added := WalkPart(p, f);
      values := values + added;
    }
    assert parts[..|parts|] == parts;
    r := Some(CronField(values, parts == Wildcard));
  }

  /** The loop `for (v = from; v <= to; v += step)`. */
  method WalkPart(p: Part, f: FieldName) returns (values: set<int>)
    requires PartOk(p, f)
    ensures values == Walk(p, f)
  {
    var from, to := From(p, f), To(p, f);
    values := {};
    var v := from;
    assert WalkBelow(p, f, from) == {};
    while v <= to
      invariant from <= v && OnGrid(p, f, v)
      invariant values == WalkBelow(p, f, v)
    {
      WalkStep(p, f, v);
      values := values + {Fold(v, f)};
      v := v + StepOf(p);
    }
    assert WalkBelow(p, f, v) == Walk(p, f);
  }

  /** One step along the grid meets no other value of the grid. */
  lemma WalkStep(p: Part, f: FieldName, v: int)
    requires StepOf(p) >= 1 && Walks(p, f, v)
    ensures OnGrid(p, f, v + StepOf(p))
    ensures WalkBelow(p, f, v + StepOf(p)) == WalkBelow(p, f, v) + {Fold(v, f)}
  {
    GridStep(v - From(p, f), StepOf(p));
    forall w | v <= w < v + StepOf(p) && Walks(p, f, w) ensures w == v {
      NoneBetween(v - From(p, f), w - From(p, f), StepOf(p));
    }
    var below, next := WalkBelow(p, f, v), WalkBelow(p, f, v + StepOf(p));
    forall x | x in next ensures x in below || x == Fold(v, f) {
      var w :| From(p, f) <= w < v + StepOf(p) && Walks(p, f, w) && x == Fold(w, f);
    }
  }

  lemma GridStep(a: int, step: int)
    requires step >= 1 && a % step == 0
    ensures (a + step) % step == 0
  {
    var n := a / step;
    assert a + step == (n + 1) * step + 0;
    ModOfMultiple(n + 1, step, 0);
  }

  lemma NoneBetween(a: int, b: int, step: int)
    requires step >= 1 && a % step == 0 && b % step == 0 && a <= b < a + step
    ensures a == b
  {
    var n := a / step;
    assert b == n * step + (b - a);
    ModOfMultiple(n, step, b - a);
  }

  lemma ProductBound(d: int, step: int)
    requires step >= 1
    ensures d >= 1 ==> d * step >= step
    ensures d <= -1 ==> d * step <= -step
  {
  }

  lemma {:induction false} ModOfMultiple(n: int, step: int, r: int)
    requires step >= 1 && 0 <= r < step
    ensures (n * step + r) % step == r
  {
    var x := n * step + r;
    assert x == (x / step) * step + x % step;
    var d := x / step - n;
    assert d * step == r - x % step;
    ProductBound(d, step);
  }

  /** A field written `*` holds every value of its range. */
  lemma WildcardIsFull(f: FieldName, x: int)
    requires Lowest(f) <= x <= Highest(f)
    ensures PartsOk(Wildcard, f) && Fold(x, f) in FieldValues(Wildcard, f)
  {
    var parts := Wildcard;
    assert parts[..0] == [];
    assert Walks(Part(Star, None), f, x);
    assert Fold(x, f) in Walk(Part(Star, None), f);
  }

  lemma DaysAreFull(parts: seq<Part>)
    requires PartsOk(parts, DayField)
    ensures parts == Wildcard ==> forall x :: 1 <= x <= 31 ==> x in FieldValues(parts, DayField)
  {
    forall x | parts == Wildcard && 1 <= x <= 31 ensures x in FieldValues(parts, DayField) {
      WildcardIsFull(DayField, x);
    }
  }

  lemma WeekdaysAreFull(parts: seq<Part>)
    requires PartsOk(parts, WeekdayField)
    ensures parts == Wildcard ==> forall x :: 0 <= x <= 6 ==> x in FieldValues(parts, WeekdayField)
  {
    forall x | parts == Wildcard && 0 <= x <= 6 ensures x in FieldValues(parts, WeekdayField) {
      WildcardIsFull(WeekdayField, x);
    }
  }

  /** Parsed values lie in their range; the seven of Sunday has become zero. */
  lemma {:induction false} ValuesInRange(parts: seq<Part>, f: FieldName)
    requires PartsOk(parts, f)
    ensures forall x :: x in FieldValues(parts, f) ==> Lowest(f) <= x <= Highest(f) && (f.WeekdayField? ==> x <= 6)
  {
    if parts != [] {
      ValuesInRange(parts[..|parts| - 1], f);
    }
  }

  // ----- matching -----

  datatype Date = Date(month: int, day: int, weekday: int)

  /** The civil date of a day number. */
  type Calendar = int -> Date

  predicate InRange(d: Date) {
    1 <= d.month <= 12 && 1 <= d.day <= 31 && 0 <= d.weekday <= 6
  }

  datatype ParsedCron = ParsedCron(minute: CronField, hour: CronField, day: CronField, month: CronField, weekday: CronField)

  /** What parsing guarantees: values in range, and full where the field is a wildcard. */
  ghost predicate WellFormed(c: ParsedCron) {
    && (forall v :: v in c.minute.values ==> 0 <= v <= 59)
    && (forall v :: v in c.hour.values ==> 0 <= v <= 23)
    && (c.day.wildcard ==> forall v :: 1 <= v <= 31 ==> v in c.day.values)
    && (c.weekday.wildcard ==> forall v :: 0 <= v <= 6 ==> v in c.weekday.values)
  }

  /** `parseCron`: exactly five fields, each of them valid. */
  method ParseCron(fields: seq<seq<Part>>) returns (r: Option<ParsedCron>)
    ensures r.Some? <==> |fields| == 5 && PartsOk(fields[0], MinuteField) && PartsOk(fields[1], HourField)
                         && PartsOk(fields[2], DayField) && PartsOk(fields[3], MonthField) && PartsOk(fields[4], WeekdayField)
    ensures r.Some? ==> r.value.minute.values == FieldValues(fields[0], MinuteField)
    ensures r.Some? ==> r.value.hour.values == FieldValues(fields[1], HourField)
    ensures r.Some? ==> r.value.day == CronField(FieldValues(fields[2], DayField), fields[2] == Wildcard)
    ensures r.Some? ==> r.value.month.values == FieldValues(fields[3], MonthField)
    ensures r.Some? ==> r.value.weekday == CronField(FieldValues(fields[4], WeekdayField), fields[4] == Wildcard)
    ensures r.Some? ==> WellFormed(r.value)
  {
    if |fields| != 5 { return None; }
    var minute := ParseField(fields[0], MinuteField);
    var hour := ParseField(fields[1], HourField);
    var day := ParseField(fields[2], DayField);
    var month := ParseField(fields[3], MonthField);
    var weekday := ParseField(fields[4], WeekdayField);
    if minute.None? || hour.None? || day.None? || month.None? || weekday.None? { return None; }
    ValuesInRange(fields[0], MinuteField);
    ValuesInRange(fields[1], HourField);
    DaysAreFull(fields[2]);
    WeekdaysAreFull(fields[4]);
    r := Some(ParsedCron(minute.value, hour.value, day.value, month.value, weekday.value));
  }

  /** The code's cascade. */
  predicate DayMatches(c: ParsedCron, d: Date) {
    if d.month !in c.month.values then false
    else
      var domRestricted, dowRestricted := !c.day.wildcard, !c.weekday.wildcard;
      var domHit, dowHit := d.day in c.day.values, d.weekday in c.weekday.values;
      if domRestricted && dowRestricted then domHit || dowHit
      else if domRestricted then domHit
      else if dowRestricted then dowHit
      else true
  }

  /** The POSIX rule: two restricted day fields are alternatives, otherwise both must hold. */
  predicate PosixDay(c: ParsedCron, d: Date) {
    && d.month in c.month.values
    && (if !c.day.wildcard && !c.weekday.wildcard then d.day in c.day.values || d.weekday in c.weekday.values
        else d.day in c.day.values && d.weekday in c.weekday.values)
  }

  lemma DayRuleIsPosix(c: ParsedCron, d: Date)
    requires WellFormed(c) && InRange(d)
    ensures DayMatches(c, d) <==> PosixDay(c, d)
  {
    if c.day.wildcard { assert d.day in c.day.values; }
    if c.weekday.wildcard { assert d.weekday in c.weekday.values; }
  }

  function DayOf(t: int): int { t / MINUTES_PER_DAY }
  function MinuteOfDay(t: int): int { t % MINUTES_PER_DAY }

  /** The expression fires in minute `t`. */
  predicate Fires(c: ParsedCron, cal: Calendar, t: int) {
    PosixDay(c, cal(DayOf(t))) && FiresAt(c, MinuteOfDay(t))
  }

  predicate FiresAt(c: ParsedCron, x: int) {
    x / 60 in c.hour.values && x % 60 in c.minute.values
  }

  // ----- the next tick -----

  /** `[...values].sort()` for values within `0..high`. */
  method SortedValues(values: set<int>, high: nat) returns (s: seq<int>)
    requires forall v :: v in values ==> 0 <= v <= high
    ensures forall v :: v in s <==> v in values
    ensures forall i, j :: 0 <= i < j < |s| ==> s[i] < s[j]
  {
    s := [];
    for v := 0 to high + 1
      invariant forall x :: x in s <==> x in values && x < v
      invariant forall i, j :: 0 <= i < j < |s| ==> s[i] < s[j]
    {
      if v in values {
        assert forall i :: 0 <= i < |s| ==> s[i] in s;
        s := s + [v];
      }
    }
  }

  /** `x` is the least firing minute of a matching day at or after `lower`. */
  ghost predicate IsFirstAt(c: ParsedCron, lower: int, x: int) {
    lower <= x < MINUTES_PER_DAY && FiresAt(c, x) && forall y :: lower <= y < x ==> !FiresAt(c, y)
  }

  ghost predicate NoneFrom(c: ParsedCron, lower: int) {
    forall y :: lower <= y < MINUTES_PER_DAY ==> !FiresAt(c, y)
  }

  /** The two inner loops: hours, then minutes, skipping what lies before the lower bound. */
  method FirstInDay(c: ParsedCron, hours: seq<int>, minutes: seq<int>, lowerHour: int, lowerMinute: int) returns (r: Option<int>)
    requires WellFormed(c) && 0 <= lowerHour <= 23 && 0 <= lowerMinute <= 59
    requires (forall v :: v in hours <==> v in c.hour.values) && (forall v :: v in minutes <==> v in c.minute.values)
    requires forall i, j :: 0 <= i < j < |hours| ==> hours[i] < hours[j]
    requires forall i, j :: 0 <= i < j < |minutes| ==> minutes[i] < minutes[j]
    ensures r.Some? ==> IsFirstAt(c, lowerHour * 60 + lowerMinute, r.value)
    ensures r.None? ==> NoneFrom(c, lowerHour * 60 + lowerMinute)
  {
    ghost var lower := lowerHour * 60 + lowerMinute;
    r := None;
    for i := 0 to |hours|
      invariant forall y :: lower <= y < MINUTES_PER_DAY && FiresAt(c, y) ==> y / 60 !in hours[..i]
    {
      var h := hours[i];
      assert h in hours;
      assert hours[..i + 1] == hours[..i] + [h];
      if h < lowerHour { continue; }
      for j := 0 to |minutes|
        invariant forall y :: lower <= y < MINUTES_PER_DAY && FiresAt(c, y) && y / 60 == h ==> y % 60 !in minutes[..j]
      {
        var m := minutes[j];
        assert m in minutes;
        assert minutes[..j + 1] == minutes[..j] + [m];
        if h == lowerHour && m < lowerMinute { continue; }
        var x := h * 60 + m;
        assert x / 60 == h && x % 60 == m;
        forall y | lower <= y < x ensures !FiresAt(c, y) {
          if FiresAt(c, y) {
            AtOrAfter(hours, i, y / 60);
            AtOrAfter(minutes, j, y % 60);
          }
        }
        return Some(x);
      }
      assert minutes[..|minutes|] == minutes;
    }
    assert hours[..|hours|] == hours;
  }

  /** In an ascending sequence, what is not before position `j` is at least its element. */
  lemma AtOrAfter(s: seq<int>, j: nat, v: int)
    requires j < |s| && v in s
    requires forall a, b :: 0 <= a < b < |s| ==> s[a] < s[b]
    ensures v in s[..j] || v >= s[j]
  {
    var k :| 0 <= k < |s| && s[k] == v;
    assert k < j ==> s[..j][k] == v;
  }

  /** Nothing fires in `[start, bound)`. */
  ghost predicate Silent(c: ParsedCron, cal: Calendar, start: int, bound: int) {
    forall t :: start <= t < bound ==> !Fires(c, cal, t)
  }

  lemma DaySplit(day: int, x: int)
    requires 0 <= x < MINUTES_PER_DAY
    ensures DayOf(day * MINUTES_PER_DAY + x) == day && MinuteOfDay(day * MINUTES_PER_DAY + x) == x
  {
  }

  /** A whole day, or its rest from `lower` on, without a firing. */
  lemma SilentDay(c: ParsedCron, cal: Calendar, start: int, day: int, lower: int)
    requires WellFormed(c) && InRange(cal(day)) && 0 <= lower < MINUTES_PER_DAY
    requires Silent(c, cal, start, day * MINUTES_PER_DAY + lower)
    requires !DayMatches(c, cal(day)) || NoneFrom(c, lower)
    ensures Silent(c, cal, start, (day + 1) * MINUTES_PER_DAY)
  {
    DayRuleIsPosix(c, cal(day));
    forall t | start <= t < (day + 1) * MINUTES_PER_DAY ensures !Fires(c, cal, t) {
      if t >= day * MINUTES_PER_DAY + lower {
        DaySplit(day, t - day * MINUTES_PER_DAY);
      }
    }
  }

  /** The minute found in a matching day is the first firing since `start`. */
  lemma FirstFiring(c: ParsedCron, cal: Calendar, start: int, day: int, lower: int, x: int)
    requires WellFormed(c) && InRange(cal(day)) && 0 <= lower < MINUTES_PER_DAY
    requires Silent(c, cal, start, day * MINUTES_PER_DAY + lower)
    requires DayMatches(c, cal(day)) && IsFirstAt(c, lower, x)
    ensures Fires(c, cal, day * MINUTES_PER_DAY + x) && Silent(c, cal, start, day * MINUTES_PER_DAY + x)
  {
    DayRuleIsPosix(c, cal(day));
    DaySplit(day, x);
    forall t | start <= t < day * MINUTES_PER_DAY + x ensures !Fires(c, cal, t) {
      if t >= day * MINUTES_PER_DAY + lower {
        DaySplit(day, t - day * MINUTES_PER_DAY);
      }
    }
  }

  /**
   The least minute strictly after the minute of `from` in which the expression fires, in
   milliseconds, or -1 exactly when none of the scanned days has one.
   */
  method NextCronTick(c: ParsedCron, cal: Calendar, from: int) returns (r: int)
    requires WellFormed(c) && forall d :: InRange(cal(d))
    ensures var start := from / MINUTE_MS + 1; var last := (DayOf(start) + MAX_DAYS) * MINUTES_PER_DAY;
            && (r == -1 <==> Silent(c, cal, start, last))
            && (r != -1 ==> exists t :: start <= t < last && r == t * MINUTE_MS && Fires(c, cal, t) && Silent(c, cal, start, t))
  {
    var hours := SortedValues(c.hour.values, 23);
    var minutes := SortedValues(c.minute.values, 59);
    var start := from / MINUTE_MS + 1;
    var day := DayOf(start);
    var lowerHour, lowerMinute := MinuteOfDay(start) / 60, MinuteOfDay(start) % 60;
    assert start == day * MINUTES_PER_DAY + (lowerHour * 60 + lowerMinute);
    for d := 0 to MAX_DAYS
      invariant day == DayOf(start) + d
      invariant 0 <= lowerHour <= 23 && 0 <= lowerMinute <= 59
      invariant Silent(c, cal, start, day * MINUTES_PER_DAY + (lowerHour * 60 + lowerMinute))
      invariant start <= day * MINUTES_PER_DAY + (lowerHour * 60 + lowerMinute)
      invariant d == MAX_DAYS ==> lowerHour == 0 && lowerMinute == 0
    {
      ghost var lower := lowerHour * 60 + lowerMinute;
      if DayMatches(c, cal(day)) {
        var x := FirstInDay(c, hours, minutes, lowerHour, lowerMinute);
        if x.Some? {
          FirstFiring(c, cal, start, day, lower, x.value);
          var t := day * MINUTES_PER_DAY + x.value;
          assert Fires(c, cal, t) && Silent(c, cal, start, t);
          return t * MINUTE_MS;
        }
      }
      SilentDay(c, cal, start, day, lower);
      day := day + 1;
      lowerHour, lowerMinute := 0, 0;
    }
    r := -1;
  }
}
