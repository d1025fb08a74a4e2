/**
  The quiet-hours evaluator: `isAllowedToSendNotification` and its private
  time helpers (Novelty/ViewModel/UserProfileManager.swift). For one instant
  it decides whether the profile's enabled quiet periods let a notification
  through.

  Besides the code-shaped definition, this module gives an independent
  reading of a period: for each listed weekday it occupies one half-open span
  of the week's 10080 minutes, starting on that day at the start time and
  running to the end time on the same day, or across midnight to the end time
  on the next day when end <= start. `PeriodBlocksIffCoveredBySpan` proves the
  two agree, Saturday-to-Sunday wrap included.
*/
module QuietHours {
  import opened Wrappers
  import opened Clock
  import opened QuietPeriods
  import opened Profiles

  // ---------------------------------------------------------------------------
  // Time helpers over optional hour/minute components
  // ---------------------------------------------------------------------------

  /** `timeInMinutes(from:)`: minutes since midnight, or nothing when hour or minute is missing. */
  function TimeInMinutes(c: TimeComponents): (r: Option<int>)
    ensures r.Some? <==> c.hour.Some? && c.minute.Some?
    ensures r.Some? ==> r.value == c.hour.value * 60 + c.minute.value
  {
    if c.hour.Some? && c.minute.Some? then Some(c.hour.value * 60 + c.minute.value) else None
  }

  /** `isTime(_:between:and:)`: start inclusive, end exclusive; false if any value is missing. */
  function IsTimeBetween(current: TimeComponents, start: TimeComponents, end: TimeComponents): (r: bool)
    ensures r <==> && TimeInMinutes(current).Some? && TimeInMinutes(start).Some? && TimeInMinutes(end).Some?
                   && TimeInMinutes(start).value <= TimeInMinutes(current).value < TimeInMinutes(end).value
  {
    match (TimeInMinutes(current), TimeInMinutes(start), TimeInMinutes(end))
    case (Some(c), Some(s), Some(e)) => s <= c < e
    case _ => false
  }

  /** `isTime(_:atOrAfter:)`; false if either value is missing. */
  function IsTimeAtOrAfter(current: TimeComponents, start: TimeComponents): (r: bool)
    ensures r <==> && TimeInMinutes(current).Some? && TimeInMinutes(start).Some?
                   && TimeInMinutes(current).value >= TimeInMinutes(start).value
  {
    match (TimeInMinutes(current), TimeInMinutes(start))
    case (Some(c), Some(s)) => c >= s
    case _ => false
  }

  /** `isTime(_:before:)`; false if either value is missing. */
  function IsTimeBefore(current: TimeComponents, end: TimeComponents): (r: bool)
    ensures r <==> && TimeInMinutes(current).Some? && TimeInMinutes(end).Some?
                   && TimeInMinutes(current).value < TimeInMinutes(end).value
  {
    match (TimeInMinutes(current), TimeInMinutes(end))
    case (Some(c), Some(e)) => c < e
    case _ => false
  }

  /** `isOvernight(start:end:)`: start at or after end. Equal times count as overnight. */
  function IsOvernight(start: TimeComponents, end: TimeComponents): (r: bool)
    ensures r <==> && TimeInMinutes(start).Some? && TimeInMinutes(end).Some?
                   && TimeInMinutes(start).value >= TimeInMinutes(end).value
  {
    match (TimeInMinutes(start), TimeInMinutes(end))
    case (Some(s), Some(e)) => s >= e
    case _ => false
  }

  // ---------------------------------------------------------------------------
  // One window, one period
  // ---------------------------------------------------------------------------

  /**
    The loop body of `isAllowedToSendNotification` for one window: whether it
    blocks at `now`. Same-day windows block on a listed day from start
    (inclusive) to end (exclusive). Overnight windows block on a listed day
    from start on, and on the day after a listed day before end.
  */
  function WindowBlocks(start: TimeComponents, end: TimeComponents, days: set<int>, now: Instant): bool {
    var current := ComponentsOf(now);
    var today := Weekday(now.day);
    if !IsOvernight(start, end) then
      today in days && IsTimeBetween(current, start, end)
    else
      || (today in days && IsTimeAtOrAfter(current, start))
      || (Weekday(now.day - 1) in days && IsTimeBefore(current, end))
  }

  /** A window whose start or end lacks an hour or a minute never blocks. */
  lemma MalformedWindowNeverBlocks(start: TimeComponents, end: TimeComponents, days: set<int>, now: Instant)
    requires TimeInMinutes(start).None? || TimeInMinutes(end).None?
    ensures !WindowBlocks(start, end, days, now)
  {
  }

  /** Whether the period's window blocks at `now`, regardless of `isEnabled`. */
  function PeriodBlocks(p: QuietPeriod, now: Instant): bool {
    WindowBlocks(StartComponents(p), EndComponents(p), p.daysOfWeek, now)
  }

  /** Whether the period, enabled and blocking, mutes notifications at `now`. */
  predicate ActivelyBlocks(p: QuietPeriod, now: Instant) {
    p.isEnabled && PeriodBlocks(p, now)
  }

  function StartMinute(p: QuietPeriod): MinuteOfDay { p.startTime.minuteOfDay }
  function EndMinute(p: QuietPeriod): MinuteOfDay { p.endTime.minuteOfDay }

  /** A same-day period blocks exactly on its listed days, from start (inclusive) to end (exclusive). */
  lemma SameDayPeriod(p: QuietPeriod, now: Instant)
    requires StartMinute(p) < EndMinute(p)
    ensures PeriodBlocks(p, now)
        <==> Weekday(now.day) in p.daysOfWeek && StartMinute(p) <= now.minuteOfDay < EndMinute(p)
  {
  }

  /**
    An overnight period (start >= end) blocks on a listed day from start on,
    and on the day after a listed day before end; the day before Sunday is
    Saturday.
  */
  lemma OvernightPeriod(p: QuietPeriod, now: Instant)
    requires StartMinute(p) >= EndMinute(p)
    ensures PeriodBlocks(p, now)
        <==> || (Weekday(now.day) in p.daysOfWeek && now.minuteOfDay >= StartMinute(p))
             || (YesterdayOf(Weekday(now.day)) in p.daysOfWeek && now.minuteOfDay < EndMinute(p))
  {
    WeekdayOfPreviousDay(now.day);
  }

  /** Only the hour and minute of start and end matter: periods differing in the dates block alike. */
  lemma PeriodIgnoresDates(p: QuietPeriod, q: QuietPeriod, now: Instant)
    requires StartMinute(p) == StartMinute(q) && EndMinute(p) == EndMinute(q)
    requires p.daysOfWeek == q.daysOfWeek
    ensures PeriodBlocks(p, now) == PeriodBlocks(q, now)
  {
    ComponentsIgnoreDate(p, q);
  }

  // ---------------------------------------------------------------------------
  // Independent reading: spans of the week
  // ---------------------------------------------------------------------------

  const MinutesPerWeek: int := 10080

  /** Minutes since Sunday 00:00 of minute `m` on weekday `w`. */
  function MinuteOfWeek(w: int, m: int): int {
    (w - 1) * MinutesPerDay + m
  }

  /** Length of the span from `s` to `e`: the same day when s < e, else across midnight. */
  function SpanLength(s: int, e: int): int {
    if s < e then e - s else MinutesPerDay - s + e
  }

  /** Whether the span starting on weekday `d` at minute `s` and ending at `e` covers minute-of-week `w`, the week being circular. */
  predicate SpanCovers(d: int, s: int, e: int, w: int) {
    var b := MinuteOfWeek(d, s);
    (b <= w < b + SpanLength(s, e)) || (b <= w + MinutesPerWeek < b + SpanLength(s, e))
  }

  /** Whether some listed weekday's span covers `now`. */
  predicate CoveredBySpan(days: set<int>, s: int, e: int, now: Instant) {
    exists d :: d in days && 1 <= d <= 7 && SpanCovers(d, s, e, MinuteOfWeek(Weekday(now.day), now.minuteOfDay))
  }

  lemma SpanCoversOnStartDay(d: int, s: MinuteOfDay, e: MinuteOfDay, m: MinuteOfDay)
    requires 1 <= d <= 7
    ensures SpanCovers(d, s, e, MinuteOfWeek(d, m)) <==> s <= m < s + SpanLength(s, e)
  {
  }

  lemma SpanCoversOnNextDay(d: int, s: MinuteOfDay, e: MinuteOfDay, m: MinuteOfDay)
    requires 1 <= d <= 7
    ensures SpanCovers(d, s, e, MinuteOfWeek(if d == 7 then 1 else d + 1, m))
        <==> s >= e && m < e
  {
  }

  /** A span reaches at most into the next day. */
  lemma SpanCoversOnlyTwoDays(d: int, t: int, s: MinuteOfDay, e: MinuteOfDay, m: MinuteOfDay)
    requires 1 <= d <= 7 && 1 <= t <= 7
    requires SpanCovers(d, s, e, MinuteOfWeek(t, m))
    ensures t == d || t == (if d == 7 then 1 else d + 1)
  {
  }

  /**
    The evaluator's per-period rule is exactly coverage by a weekly span of
    the period. Days outside 1..7 can never match.
  */
  lemma {:induction false} PeriodBlocksIffCoveredBySpan(p: QuietPeriod, now: Instant)
    ensures PeriodBlocks(p, now) <==> CoveredBySpan(p.daysOfWeek, StartMinute(p), EndMinute(p), now)
  {
    var s, e := StartMinute(p), EndMinute(p);
    var t := Weekday(now.day);
    var m := now.minuteOfDay;
    var y := YesterdayOf(t);
    var w := MinuteOfWeek(t, m);
    assert t == (if y == 7 then 1 else y + 1);
    if s < e {
      SameDayPeriod(p, now);
    } else {
      OvernightPeriod(p, now);
    }
    if PeriodBlocks(p, now) {
      if t in p.daysOfWeek && s <= m && (s >= e || m < e) {
        SpanCoversOnStartDay(t, s, e, m);
        assert SpanCovers(t, s, e, w);
      } else {
        SpanCoversOnNextDay(y, s, e, m);
        assert SpanCovers(y, s, e, w);
      }
    }
    if CoveredBySpan(p.daysOfWeek, s, e, now) {
      var d :| d in p.daysOfWeek && 1 <= d <= 7 && SpanCovers(d, s, e, w);
      SpanCoversOnlyTwoDays(d, t, s, e, m);
      if t == d {
        SpanCoversOnStartDay(d, s, e, m);
      } else {
        SpanCoversOnNextDay(d, s, e, m);
        assert d == y;
      }
    }
  }

  /**
    A period with start == end is overnight, and its span is a full 24 hours:
    listed on all seven days it blocks every minute of the week. It is not an
    inert, zero-length window.
  */
  lemma {:induction false} EqualStartEndBlocksAllDay(p: QuietPeriod, now: Instant)
    requires StartMinute(p) == EndMinute(p)
    requires forall d :: 1 <= d <= 7 ==> d in p.daysOfWeek
    ensures PeriodBlocks(p, now)
  {
    OvernightPeriod(p, now);
  }

  /** With start == end, a single listed day is blocked from start until start the next day. */
  lemma {:induction false} EqualStartEndSpansOneDay(p: QuietPeriod, now: Instant)
    requires StartMinute(p) == EndMinute(p)
    ensures PeriodBlocks(p, now)
        <==> || (Weekday(now.day) in p.daysOfWeek && now.minuteOfDay >= StartMinute(p))
             || (Weekday(now.day - 1) in p.daysOfWeek && now.minuteOfDay < StartMinute(p))
  {
    OvernightPeriod(p, now);
    WeekdayOfPreviousDay(now.day);
  }

  // ---------------------------------------------------------------------------
  // The evaluator
  // ---------------------------------------------------------------------------

  /** The `for period in quietPeriods where period.isEnabled` loop: true unless some enabled period blocks. */
  function AllowedBy(periods: seq<QuietPeriod>, now: Instant): (r: bool)
    ensures r <==> forall i :: 0 <= i < |periods| ==> !ActivelyBlocks(periods[i], now)
  {
    if |periods| == 0 then true
    else if ActivelyBlocks(periods[0], now) then false
    else AllowedBy(periods[1..], now)
  }

  /**
    `isAllowedToSendNotification(currentDate:)`. With DND globally off every
    instant is allowed; otherwise the answer is false exactly when some
    enabled period blocks.
  */
  function IsAllowedToSendNotification(profile: UserProfile, now: Instant): (r: bool)
    ensures !profile.dndGloballyEnabled ==> r
    ensures profile.dndGloballyEnabled ==>
              (!r <==> exists i :: 0 <= i < |profile.quietPeriods| && ActivelyBlocks(profile.quietPeriods[i], now))
  {
    !profile.dndGloballyEnabled || AllowedBy(profile.quietPeriods, now)
  }

  /** Two lists holding the same blocking periods give the same answer. */
  lemma AllowedBySameBlockers(a: seq<QuietPeriod>, b: seq<QuietPeriod>, now: Instant)
    requires forall p :: p in a && ActivelyBlocks(p, now) ==> p in b
    requires forall p :: p in b && ActivelyBlocks(p, now) ==> p in a
    ensures AllowedBy(a, now) == AllowedBy(b, now)
  {
    if !AllowedBy(a, now) {
      BlockerCarriesOver(a, b, now);
    }
    if !AllowedBy(b, now) {
      BlockerCarriesOver(b, a, now);
    }
  }

  lemma BlockerCarriesOver(a: seq<QuietPeriod>, b: seq<QuietPeriod>, now: Instant)
    requires !AllowedBy(a, now)
    requires forall p :: p in a && ActivelyBlocks(p, now) ==> p in b
    ensures !AllowedBy(b, now)
  {
    var i :| 0 <= i < |a| && ActivelyBlocks(a[i], now);
    assert a[i] in a;
    var j :| 0 <= j < |b| && b[j] == a[i];
    assert ActivelyBlocks(b[j], now);
  }

  /** The result is order-independent: any permutation of the periods gives the same answer. */
  lemma AllowedIgnoresOrder(profile: UserProfile, periods: seq<QuietPeriod>, now: Instant)
    requires multiset(periods) == multiset(profile.quietPeriods)
    ensures IsAllowedToSendNotification(profile.(quietPeriods := periods), now)
         == IsAllowedToSendNotification(profile, now)
  {
    forall p ensures p in periods <==> p in profile.quietPeriods {
      assert p in periods <==> p in multiset(periods);
      assert p in profile.quietPeriods <==> p in multiset(profile.quietPeriods);
    }
    AllowedBySameBlockers(periods, profile.quietPeriods, now);
  }

  /** The enabled periods, in order. */
  function EnabledOnly(periods: seq<QuietPeriod>): (r: seq<QuietPeriod>)
    ensures forall i :: 0 <= i < |r| ==> r[i].isEnabled
    ensures forall p :: p in r <==> p in periods && p.isEnabled
  {
    if |periods| == 0 then []
    else if periods[0].isEnabled then [periods[0]] + EnabledOnly(periods[1..])
    else EnabledOnly(periods[1..])
  }

  /** Disabled periods never affect the result: dropping them all changes nothing. */
  lemma DisabledPeriodsAreIgnored(profile: UserProfile, now: Instant)
    ensures IsAllowedToSendNotification(profile.(quietPeriods := EnabledOnly(profile.quietPeriods)), now)
         == IsAllowedToSendNotification(profile, now)
  {
    AllowedBySameBlockers(EnabledOnly(profile.quietPeriods), profile.quietPeriods, now);
  }

  /** A period that blocks on its own blocks the whole profile, whatever else the list holds. */
  lemma {:induction false} OneBlockingPeriodSuffices(profile: UserProfile, i: int, now: Instant)
    requires profile.dndGloballyEnabled
    requires 0 <= i < |profile.quietPeriods| && ActivelyBlocks(profile.quietPeriods[i], now)
    ensures !IsAllowedToSendNotification(profile, now)
  {
  }

  // ---------------------------------------------------------------------------
  // The preview fixture
  // ---------------------------------------------------------------------------

  /** Day numbers of one concrete week, 1970-01-04 (Sunday) to 1970-01-10 (Saturday). */
  const SundayJan4: int := 3
  const MondayJan5: int := 4
  const TuesdayJan6: int := 5
  const WednesdayJan7: int := 6
  const SaturdayJan10: int := 9

  /** `UserProfileManager.preview`: "Sleep", 22:30 to 07:00 on Monday..Friday, DND on. */
  function PreviewProfile(id: Uuid, periodId: Uuid): (p: UserProfile)
    ensures p.dndGloballyEnabled && |p.quietPeriods| == 1
  {
    NewUserProfile(
      id,
      age := Some(30),
      profession := Some("Illustrator"),
      hobbies := Some(["Sketching", "Reading"]),
      quietPeriods := [
        NewQuietPeriod(periodId, Instant(0, 22 * 60 + 30, 0), Instant(0, 7 * 60, 0),
                       {2, 3, 4, 5, 6}, name := Some("Sleep"), isEnabled := true)
      ],
      dndGloballyEnabled := true)
  }

  function At(day: int, hour: int, minute: int): Instant
    requires 0 <= hour < 24 && 0 <= minute < 60
  {
    Instant(day, hour * 60 + minute, 0)
  }

  /**
    The preview profile mutes from 22:30 on Monday to Friday until 07:00 the
    next morning, so Saturday morning is muted by Friday's night.
  */
  lemma PreviewFixtureBlocks(id: Uuid, periodId: Uuid)
    ensures Weekday(TuesdayJan6) == 3 && Weekday(SaturdayJan10) == 7
    ensures !IsAllowedToSendNotification(PreviewProfile(id, periodId), At(TuesdayJan6, 23, 0))
    ensures !IsAllowedToSendNotification(PreviewProfile(id, periodId), At(WednesdayJan7, 6, 30))
    ensures !IsAllowedToSendNotification(PreviewProfile(id, periodId), At(SaturdayJan10, 6, 30))
  {
  }

  /** Outside those nights, and with DND off, the preview profile allows notifications. */
  lemma PreviewFixtureAllows(id: Uuid, periodId: Uuid)
    ensures Weekday(SundayJan4) == 1
    ensures IsAllowedToSendNotification(PreviewProfile(id, periodId), At(WednesdayJan7, 7, 0))
    ensures IsAllowedToSendNotification(PreviewProfile(id, periodId), At(SaturdayJan10, 23, 0))
    ensures IsAllowedToSendNotification(PreviewProfile(id, periodId), At(MondayJan5, 6, 30))
    ensures IsAllowedToSendNotification(PreviewProfile(id, periodId).(dndGloballyEnabled := false), At(TuesdayJan6, 23, 0))
  {
  }
}
