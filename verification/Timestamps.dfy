/** UTC millisecond timestamps, which the record validators compare as strings, and the instants they name. */
module Timestamps {
  import opened Wrappers
  import opened Sorting

  /** Code units. */
  type Text = seq<int>

  predicate IsDigit(c: int) { 0x30 <= c <= 0x39 }

  predicate AllDigits(t: Text) { forall i :: 0 <= i < |t| ==> IsDigit(t[i]) }

  /** Number of a run of digits. */
  function NumberOf(t: Text): int {
    if t == [] then 0 else 10 * NumberOf(t[..|t| - 1]) + (t[|t| - 1] - 0x30)
  }

  /** Where the seven fields stand: YYYY-MM-DDTHH:MM:SS.mmmZ. */
  predicate HasShape(t: Text) {
    |t| == 24
    && AllDigits(t[0..4]) && t[4] == 0x2d && AllDigits(t[5..7]) && t[7] == 0x2d && AllDigits(t[8..10]) && t[10] == 0x54
    && AllDigits(t[11..13]) && t[13] == 0x3a && AllDigits(t[14..16]) && t[16] == 0x3a && AllDigits(t[17..19])
    && t[19] == 0x2e && AllDigits(t[20..23]) && t[23] == 0x5a
  }

  datatype Time = Time(year: int, month: int, day: int, hour: int, minute: int, second: int, millisecond: int)

  function Read(t: Text): Time
    requires HasShape(t)
  {
    Time(NumberOf(t[0..4]), NumberOf(t[5..7]), NumberOf(t[8..10]), NumberOf(t[11..13]), NumberOf(t[14..16]),
         NumberOf(t[17..19]), NumberOf(t[20..23]))
  }

  predicate IsLeapYear(year: int) { year % 4 == 0 && (year % 100 != 0 || year % 400 == 0) }

  function DaysInMonth(year: int, month: int): int {
    if month == 2 then (if IsLeapYear(year) then 29 else 28)
    else if month == 4 || month == 6 || month == 9 || month == 11 then 30
    else 31
  }

  /** assertUtcMillisecondTimestamp passes. */
  predicate IsTimestamp(t: Text) {
    HasShape(t) && IsReal(Read(t))
  }

  predicate IsReal(w: Time) {
    !(w.month < 1 || w.month > 12 || w.day < 1 || w.day > DaysInMonth(w.year, w.month) || w.hour > 23 || w.minute > 59 || w.second > 59)
  }

  // ---------------------------------------------------------------- instants

  function DaysBeforeMonth(year: int, month: int): int
    decreases month
  {
    if month <= 1 then 0 else DaysBeforeMonth(year, month - 1) + DaysInMonth(year, month - 1)
  }

  function DaysInYear(year: int): int { if IsLeapYear(year) then 366 else 365 }

  function DaysBeforeYear(year: int): int
    decreases year
  {
    if year <= 0 then 0 else DaysBeforeYear(year - 1) + DaysInYear(year - 1)
  }

  function DayNumber(w: Time): int { DaysBeforeYear(w.year) + DaysBeforeMonth(w.year, w.month) + (w.day - 1) }

  /** Milliseconds since the start of year 0 of the Gregorian calendar. */
  function Instant(w: Time): int {
    (((DayNumber(w) * 24 + w.hour) * 60 + w.minute) * 60 + w.second) * 1000 + w.millisecond
  }

  // ---------------------------------------------------------------- order of texts

  lemma {:induction false} LessConcat(a: Key, b: Key, c: Key, d: Key)
    requires |a| == |c|
    ensures Less(a + b, c + d) <==> Less(a, c) || (a == c && Less(b, d))
  {
    if a == [] {
      assert a + b == b && c + d == d;
    } else {
      assert (a + b)[1..] == a[1..] + b && (c + d)[1..] == c[1..] + d;
      assert a == [a[0]] + a[1..] && c == [c[0]] + c[1..];
      LessConcat(a[1..], b, c[1..], d);
    }
  }

  lemma LessOne(x: int, y: int)
    ensures Less([x], [y]) <==> x < y
  {
    assert [x][1..] == [] && [y][1..] == [];
    LessIrreflexive([]);
  }

  /** Digits of one length compare as their numbers. */
  lemma {:induction false} LessDigits(a: Text, b: Text)
    requires |a| == |b| && AllDigits(a) && AllDigits(b)
    ensures Less(a, b) <==> NumberOf(a) < NumberOf(b)
    ensures a == b <==> NumberOf(a) == NumberOf(b)
  {
    if a == [] {
      LessIrreflexive(a);
    } else {
      var n := |a| - 1;
      LessDigits(a[..n], b[..n]);
      assert a == a[..n] + [a[n]] && b == b[..n] + [b[n]];
      LessConcat(a[..n], [a[n]], b[..n], [b[n]]);
      LessOne(a[n], b[n]);
    }
  }

  lemma {:induction false} NumberBound(a: Text)
    requires AllDigits(a)
    ensures 0 <= NumberOf(a)
    ensures |a| == 2 ==> NumberOf(a) < 100
    ensures |a| == 3 ==> NumberOf(a) < 1000
  {
    if a != [] {
      NumberBound(a[..|a| - 1]);
      if |a| == 2 || |a| == 3 { assert a[..|a| - 1][..0] == []; }
    }
  }

  /** One field and the separator after it, in front of the rest. */
  lemma FieldThenRest(a: Text, b: Text, x: Text, y: Text, r: Text, s: Text, separator: int)
    requires a == x + ([separator] + r) && b == y + ([separator] + s)
    requires |x| == |y| && AllDigits(x) && AllDigits(y)
    ensures Less(a, b) <==> NumberOf(x) < NumberOf(y) || (NumberOf(x) == NumberOf(y) && Less(r, s))
  {
    LessConcat(x, [separator] + r, y, [separator] + s);
    LessConcat([separator], r, [separator], s);
    LessIrreflexive([separator]);
    LessDigits(x, y);
  }

  lemma Split(t: Text, i: nat, j: nat)
    requires i <= j < |t|
    ensures t[i..] == t[i..j] + ([t[j]] + t[j + 1..])
  {
  }

  lemma SplitBoth(a: Text, b: Text, i: nat, j: nat)
    requires |a| == |b| && i <= j < |a| && a[j] == b[j] && AllDigits(a[i..j]) && AllDigits(b[i..j])
    ensures Less(a[i..], b[i..]) <==>
            NumberOf(a[i..j]) < NumberOf(b[i..j]) || (NumberOf(a[i..j]) == NumberOf(b[i..j]) && Less(a[j + 1..], b[j + 1..]))
  {
    Split(a, i, j);
    Split(b, i, j);
    FieldThenRest(a[i..], b[i..], a[i..j], b[i..j], a[j + 1..], b[j + 1..], a[j]);
  }

  predicate EarlierDay(v: Time, w: Time) {
    v.year < w.year || (v.year == w.year && (v.month < w.month || (v.month == w.month && v.day < w.day)))
  }

  predicate SameDay(v: Time, w: Time) { v.year == w.year && v.month == w.month && v.day == w.day }

  predicate EarlierInDay(v: Time, w: Time) {
    v.hour < w.hour || (v.hour == w.hour && (v.minute < w.minute || (v.minute == w.minute
    && (v.second < w.second || (v.second == w.second && v.millisecond < w.millisecond)))))
  }

  /** Earlier in the fields, the most significant first. */
  predicate Earlier(v: Time, w: Time) { EarlierDay(v, w) || (SameDay(v, w) && EarlierInDay(v, w)) }

  lemma LessInDay(a: Text, b: Text)
    requires HasShape(a) && HasShape(b)
    ensures Less(a[11..], b[11..]) <==> EarlierInDay(Read(a), Read(b))
  {
    SplitBoth(a, b, 11, 13);
    SplitBoth(a, b, 14, 16);
    SplitBoth(a, b, 17, 19);
    SplitBoth(a, b, 20, 23);
    LessIrreflexive([]);
    assert a[24..] == [] && b[24..] == [];
  }

  lemma LessIsEarlier(a: Text, b: Text)
    requires HasShape(a) && HasShape(b)
    ensures Less(a, b) <==> Earlier(Read(a), Read(b))
  {
    assert a == a[0..] && b == b[0..];
    LessInDay(a, b);
    SplitBoth(a, b, 0, 4);
    SplitBoth(a, b, 5, 7);
    SplitBoth(a, b, 8, 10);
  }

  // ---------------------------------------------------------------- order of instants

  lemma {:induction false} MonthsOrder(year: int, m: int, n: int)
    requires 1 <= m < n <= 12
    ensures DaysBeforeMonth(year, m) + DaysInMonth(year, m) <= DaysBeforeMonth(year, n)
    decreases n
  {
    if m < n - 1 { MonthsOrder(year, m, n - 1); }
  }

  lemma MonthsFill(year: int)
    ensures DaysBeforeMonth(year, 12) + DaysInMonth(year, 12) == DaysInYear(year)
  {
    assert DaysBeforeMonth(year, 3) == 31 + DaysInMonth(year, 2);
    assert DaysBeforeMonth(year, 6) == DaysBeforeMonth(year, 3) + 92;
    assert DaysBeforeMonth(year, 9) == DaysBeforeMonth(year, 6) + 92;
    assert DaysBeforeMonth(year, 12) == DaysBeforeMonth(year, 9) + 91;
  }

  lemma {:induction false} MonthNotNegative(year: int, month: int)
    ensures 0 <= DaysBeforeMonth(year, month)
    decreases month
  {
    if month > 1 { MonthNotNegative(year, month - 1); }
  }

  lemma WithinYear(w: Time)
    requires 1 <= w.month <= 12 && 1 <= w.day <= DaysInMonth(w.year, w.month)
    ensures 0 <= DaysBeforeMonth(w.year, w.month) + (w.day - 1) < DaysInYear(w.year)
  {
    MonthsFill(w.year);
    MonthNotNegative(w.year, w.month);
    if w.month < 12 { MonthsOrder(w.year, w.month, 12); }
  }

  lemma {:induction false} YearsOrder(y: int, z: int)
    requires 0 <= y < z
    ensures DaysBeforeYear(y) + DaysInYear(y) <= DaysBeforeYear(z)
    decreases z
  {
    if y < z - 1 { YearsOrder(y, z - 1); }
  }

  predicate InRange(w: Time) {
    IsReal(w) && 0 <= w.year && 0 <= w.hour && 0 <= w.minute && 0 <= w.second && 0 <= w.millisecond < 1000
  }

  lemma DaysOrder(v: Time, w: Time)
    requires InRange(v) && InRange(w) && EarlierDay(v, w)
    ensures DayNumber(v) < DayNumber(w)
  {
    WithinYear(v);
    WithinYear(w);
    if v.year < w.year {
      YearsOrder(v.year, w.year);
    } else if v.month < w.month {
      MonthsOrder(v.year, v.month, w.month);
    }
  }

  /** The part of an instant after its day. */
  function Within(w: Time): int { ((w.hour * 60 + w.minute) * 60 + w.second) * 1000 + w.millisecond }

  lemma InstantOf(w: Time)
    requires InRange(w)
    ensures Instant(w) == DayNumber(w) * 86400000 + Within(w) && 0 <= Within(w) < 86400000
  {
  }

  lemma EarlierInstant(v: Time, w: Time)
    requires InRange(v) && InRange(w) && Earlier(v, w)
    ensures Instant(v) < Instant(w)
  {
    InstantOf(v);
    InstantOf(w);
    if EarlierDay(v, w) {
      DaysOrder(v, w);
    } else {
      assert SameDay(v, w) && Within(v) < Within(w);
    }
  }

  lemma ReadInRange(t: Text)
    requires IsTimestamp(t)
    ensures InRange(Read(t))
  {
    NumberBound(t[0..4]);
    NumberBound(t[11..13]);
    NumberBound(t[14..16]);
    NumberBound(t[17..19]);
    NumberBound(t[20..23]);
  }

  /** Comparing accepted timestamps as strings is comparing the instants they name, each of which has one text. */
  lemma StringOrderIsTime(a: Text, b: Text)
    requires IsTimestamp(a) && IsTimestamp(b)
    ensures Less(a, b) <==> Instant(Read(a)) < Instant(Read(b))
    ensures a == b <==> Instant(Read(a)) == Instant(Read(b))
  {
    ReadInRange(a);
    ReadInRange(b);
    LessIsEarlier(a, b);
    LessIsEarlier(b, a);
    LessTotal(a, b);
    if Less(a, b) {
      EarlierInstant(Read(a), Read(b));
    } else if Less(b, a) {
      EarlierInstant(Read(b), Read(a));
    }
  }

  // ---------------------------------------------------------------- meeting times

  /** The four instants a meeting may carry. */
  datatype MeetingTime = MeetingTime(
    scheduledStart: Option<Text>, scheduledEnd: Option<Text>, actualStart: Option<Text>, actualEnd: Option<Text>)

  predicate Optional(t: Option<Text>) { t.Some? ==> IsTimestamp(t.value) }

  predicate AllOptional(m: MeetingTime) {
    Optional(m.scheduledStart) && Optional(m.scheduledEnd) && Optional(m.actualStart) && Optional(m.actualEnd)
  }

  /** The string comparison of an end with its start fails the meeting. */
  predicate EndsBefore(start: Option<Text>, end: Option<Text>) {
    start.Some? && end.Some? && Less(end.value, start.value)
  }

  /** assertMeetingTime. */
  predicate IsMeetingTime(m: MeetingTime) {
    AllOptional(m) && !EndsBefore(m.scheduledStart, m.scheduledEnd) && !EndsBefore(m.actualStart, m.actualEnd)
  }

  predicate InOrder(start: Option<Text>, end: Option<Text>)
    requires Optional(start) && Optional(end)
  {
    start.Some? && end.Some? ==> Instant(Read(start.value)) <= Instant(Read(end.value))
  }

  lemma EndsInOrder(start: Option<Text>, end: Option<Text>)
    requires Optional(start) && Optional(end)
    ensures !EndsBefore(start, end) <==> InOrder(start, end)
  {
    if start.Some? && end.Some? { StringOrderIsTime(end.value, start.value); }
  }

  /** Exactly the meetings that end no earlier than they start, as instants, are accepted. */
  lemma MeetingsEndAfterTheyStart(m: MeetingTime)
    requires AllOptional(m)
    ensures IsMeetingTime(m) <==> InOrder(m.scheduledStart, m.scheduledEnd) && InOrder(m.actualStart, m.actualEnd)
  {
    EndsInOrder(m.scheduledStart, m.scheduledEnd);
    EndsInOrder(m.actualStart, m.actualEnd);
  }
}
