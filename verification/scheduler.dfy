/**
  The single-slot novelty scheduler (`NotificationScheduler` in
  Novelty/Services/NotificationManager.swift). The notification center is a
  map from request identifier to pending request; `nextNoveltyTime` is the
  value stored under the "NextNoveltyTime" key. Whether the center accepts an
  added request is not known in advance, so every operation takes the
  outcome as a parameter.
*/
module Scheduler {
  import opened Wrappers
  import opened Clock
  import opened QuietPeriods
  import opened Profiles
  import QuietHours

  /** The identifier both scheduling paths use for the one novelty slot. */
  const NoveltyId: string := "dailyNovelty"
  /** The identifier the alerts-disabled path cancels. */
  const AlertsOffCancelId: string := "dailyNoveltyNotification"
  /** Default hour of `scheduleNoveltyNotificationOnce(at:)`. */
  const DefaultHour: int := 11
  /** Default interval of `delayNotification(bySeconds:)`. */
  const DefaultDelaySeconds: int := 60

  /** Date components as passed to a calendar trigger; they are not normalised. */
  datatype DateParts = DateParts(day: int, hour: int, minute: int, second: int)

  datatype Trigger =
    | CalendarTrigger(dateMatching: DateParts)
    | IntervalTrigger(timeInterval: int)

  datatype Request = Request(identifier: string, trigger: Trigger, repeats: bool)

  datatype SchedulerState = SchedulerState(
    pending: map<string, Request>,
    nextNoveltyTime: Option<Instant>)

  /** Every pending request is filed under its own identifier. */
  predicate WellKeyed(pending: map<string, Request>) {
    forall id :: id in pending ==> pending[id].identifier == id
  }

  /** `a` and `b` agree on every identifier other than `id`. */
  ghost predicate SameExcept(a: map<string, Request>, b: map<string, Request>, id: string) {
    forall k :: k != id ==> (k in a <==> k in b) && (k in a ==> a[k] == b[k])
  }

  /** `UNAuthorizationStatus`, with `@unknown default` as `UnknownStatus`. */
  datatype AuthorizationStatus =
    | NotDetermined | Denied | Authorized | Provisional | Ephemeral | UnknownStatus

  /** The parts of `UNNotificationSettings` the scheduler reads. */
  datatype NotificationSettings = NotificationSettings(
    authorizationStatus: AuthorizationStatus,
    alertEnabled: bool)

  // ---------------------------------------------------------------------------
  // Fire time
  // ---------------------------------------------------------------------------

  /**
    The components `scheduleNoveltyNotificationOnce` builds: today's date,
    the requested hour, the current minute plus one (which may be 60) and
    the current second.
  */
  function FireParts(now: Instant, hour: int): (p: DateParts)
    ensures p.day == now.day && p.hour == hour && p.second == now.second
    ensures 1 <= p.minute <= 60 && p.minute == now.Minute() + 1
  {
    DateParts(now.day, hour, now.Minute() + 1, now.second)
  }

  /**
    `Calendar.date(from:)` on those components: minute 60 carries into the
    next hour and hour 24 into the next day. The result is today at `hour`
    plus the current minute plus one minute, whether or not that lies after
    `now`.
  */
  function FireTime(now: Instant, hour: int): (fire: Instant)
    requires 0 <= hour < 24
    ensures ToSeconds(fire) == now.day * SecondsPerDay + hour * 3600 + (now.Minute() + 1) * 60 + now.second
    ensures fire.second == now.second
  {
    var parts := FireParts(now, hour);
    var (h, m) := if parts.minute == 60 then (parts.hour + 1, 0) else (parts.hour, parts.minute);
    var (d, h') := if h == 24 then (parts.day + 1, 0) else (parts.day, h);
    Instant(d, h' * 60 + m, parts.second)
  }

  /** At minute 59 of any hour, asking for hour 23 rolls over to midnight of the next day. */
  lemma FireTimeDayCarry(now: Instant)
    requires now.Minute() == 59
    ensures FireTime(now, 23) == Instant(now.day + 1, 0, now.second)
  {
    ToSecondsInjective(FireTime(now, 23), Instant(now.day + 1, 0, now.second));
  }

  /** Nothing forces the fire time after `now`: at 15:00 the 11-o'clock slot is already past. */
  lemma FireTimeMayPrecedeNow()
    ensures var now := Instant(0, 15 * 60, 0);
            ToSeconds(FireTime(now, DefaultHour)) < ToSeconds(now)
  {
  }

  /** The fire time ignores the current hour: it depends only on the day, minute and second of `now`. */
  lemma FireTimeIgnoresCurrentHour(a: Instant, b: Instant, hour: int)
    requires 0 <= hour < 24
    requires a.day == b.day && a.Minute() == b.Minute() && a.second == b.second
    ensures FireTime(a, hour) == FireTime(b, hour)
  {
    ToSecondsInjective(FireTime(a, hour), FireTime(b, hour));
  }

  /** At minute 59 the trigger is handed minute 60, which no clock reading has, while the stored time is normalised. */
  lemma TriggerMinuteNotNormalised(now: Instant, hour: int)
    requires 0 <= hour < 24 && now.Minute() == 59
    ensures FireParts(now, hour).minute == 60
    ensures FireTime(now, hour).Minute() == 0
  {
    var fire := FireTime(now, hour);
    assert fire.minuteOfDay % 60 == 0;
  }

  /**
    Whether a clock reading shows exactly the given components: the moment a
    non-repeating calendar trigger built from them fires.
  */
  predicate TriggerMatches(p: DateParts, t: Instant) {
    p.day == t.day && p.hour == t.Hour() && p.minute == t.Minute() && p.second == t.second
  }

  /** A clock reading is determined by its day, hour, minute and second. */
  lemma SamePartsSameInstant(a: Instant, b: Instant)
    requires a.day == b.day && a.Hour() == b.Hour() && a.Minute() == b.Minute() && a.second == b.second
    ensures a == b
  {
    assert a.minuteOfDay == a.Hour() * 60 + a.Minute();
    assert b.minuteOfDay == b.Hour() * 60 + b.Minute();
  }

  /**
    The trigger as submitted. Before minute 59 it fires exactly at the fire
    time. At minute 59 its components name minute 60, which no clock reading
    shows, so it never fires although the slot reports the normalised time.
  */
  lemma SubmittedTriggerMatches(now: Instant, hour: int, t: Instant)
    requires 0 <= hour < 24
    ensures now.Minute() < 59 ==> (TriggerMatches(FireParts(now, hour), t) <==> t == FireTime(now, hour))
    ensures now.Minute() == 59 ==> !TriggerMatches(FireParts(now, hour), t)
  {
    if now.Minute() < 59 {
      var fire := FireTime(now, hour);
      assert fire.minuteOfDay == hour * 60 + now.Minute() + 1;
      assert fire.Hour() == hour && fire.Minute() == now.Minute() + 1;
      if TriggerMatches(FireParts(now, hour), t) {
        SamePartsSameInstant(t, fire);
      }
    }
  }

  /** The components of the normalised fire time: what the trigger is evidently meant to receive. */
  function NormalisedFireParts(now: Instant, hour: int): (p: DateParts)
    requires 0 <= hour < 24
    ensures 0 <= p.hour < 24 && 0 <= p.minute < 60 && 0 <= p.second < 60
    ensures now.Minute() < 59 ==> p == FireParts(now, hour)
  {
    var fire := FireTime(now, hour);
    assert now.Minute() < 59 ==> fire.minuteOfDay == hour * 60 + now.Minute() + 1;
    DateParts(fire.day, fire.Hour(), fire.Minute(), fire.second)
  }

  /** The normalised trigger fires exactly at the stored fire time, at every minute. */
  lemma NormalisedTriggerMatchesFireTime(now: Instant, hour: int, t: Instant)
    requires 0 <= hour < 24
    ensures TriggerMatches(NormalisedFireParts(now, hour), t) <==> t == FireTime(now, hour)
  {
    if TriggerMatches(NormalisedFireParts(now, hour), t) {
      SamePartsSameInstant(t, FireTime(now, hour));
    }
  }

  // ---------------------------------------------------------------------------
  // Replacing the slot
  // ---------------------------------------------------------------------------

  /**
    `removePendingNotificationRequests` for the slot followed by `add`. The
    removal happens first and unconditionally, so a failed add leaves the
    slot empty. `nextNoveltyTime` moves to `fire` only when the add
    succeeds. Other identifiers are untouched.
  */
  function ReplaceNoveltySlot(st: SchedulerState, req: Request, fire: Instant, addSucceeds: bool): (r: SchedulerState)
    requires req.identifier == NoveltyId
    ensures NoveltyId in r.pending <==> addSucceeds
    ensures addSucceeds ==> r.pending[NoveltyId] == req && r.nextNoveltyTime == Some(fire)
    ensures !addSucceeds ==> r.nextNoveltyTime == st.nextNoveltyTime
    ensures SameExcept(st.pending, r.pending, NoveltyId)
    ensures WellKeyed(st.pending) ==> WellKeyed(r.pending)
  {
    var cleared := st.pending - {NoveltyId};
    if addSucceeds then SchedulerState(cleared[NoveltyId := req], Some(fire))
    else SchedulerState(cleared, st.nextNoveltyTime)
  }

  /** The one-shot calendar request `scheduleNoveltyNotificationOnce` submits. */
  function CalendarRequest(now: Instant, hour: int): (req: Request)
    ensures req.identifier == NoveltyId && !req.repeats
  {
    Request(NoveltyId, CalendarTrigger(FireParts(now, hour)), false)
  }

  /**
    `scheduleNoveltyNotificationOnce(at:)`. The quiet-hours check is made at
    the computed fire time, not at `now`. When blocked nothing changes;
    when allowed the slot is replaced by the calendar request, and
    `nextNoveltyTime` becomes the fire time only if the add succeeds.
  */
  function ScheduleNoveltyNotificationOnce(
    st: SchedulerState, profile: UserProfile, now: Instant, hour: int, addSucceeds: bool): (r: SchedulerState)
    requires 0 <= hour < 24
    ensures !QuietHours.IsAllowedToSendNotification(profile, FireTime(now, hour)) ==> r == st
    ensures QuietHours.IsAllowedToSendNotification(profile, FireTime(now, hour)) ==>
              && (NoveltyId in r.pending <==> addSucceeds)
              && (addSucceeds ==> r.pending[NoveltyId] == CalendarRequest(now, hour)
                                  && r.nextNoveltyTime == Some(FireTime(now, hour)))
              && (!addSucceeds ==> r.nextNoveltyTime == st.nextNoveltyTime)
    ensures SameExcept(st.pending, r.pending, NoveltyId)
    ensures WellKeyed(st.pending) ==> WellKeyed(r.pending)
  {
    var fire := FireTime(now, hour);
    if QuietHours.IsAllowedToSendNotification(profile, fire) then
      ReplaceNoveltySlot(st, CalendarRequest(now, hour), fire, addSucceeds)
    else st
  }

  /** The one-shot interval request `delayNotification` submits. */
  function IntervalRequest(interval: int): (req: Request)
    ensures req.identifier == NoveltyId && !req.repeats
  {
    Request(NoveltyId, IntervalTrigger(interval), false)
  }

  /**
    `delayNotification(bySeconds:)`. Only the single instant `now +
    interval` is checked. When blocked nothing changes; when allowed the
    slot is replaced, and `nextNoveltyTime` becomes that instant only if the
    add succeeds. The interval must be positive, as the interval trigger
    demands.
  */
  function DelayNotification(
    st: SchedulerState, profile: UserProfile, now: Instant, interval: int, addSucceeds: bool): (r: SchedulerState)
    requires interval > 0
    ensures var fire := AddSeconds(now, interval);
            && (!QuietHours.IsAllowedToSendNotification(profile, fire) ==> r == st)
            && (QuietHours.IsAllowedToSendNotification(profile, fire) ==>
                  && (NoveltyId in r.pending <==> addSucceeds)
                  && (addSucceeds ==> r.pending[NoveltyId] == IntervalRequest(interval)
                                      && r.nextNoveltyTime == Some(fire)
                                      && ToSeconds(r.nextNoveltyTime.value) == ToSeconds(now) + interval)
                  && (!addSucceeds ==> r.nextNoveltyTime == st.nextNoveltyTime))
    ensures SameExcept(st.pending, r.pending, NoveltyId)
    ensures WellKeyed(st.pending) ==> WellKeyed(r.pending)
  {
    var fire := AddSeconds(now, interval);
    if QuietHours.IsAllowedToSendNotification(profile, fire) then
      ReplaceNoveltySlot(st, IntervalRequest(interval), fire, addSucceeds)
    else st
  }

  /**
    `setupTodaysNoveltyNotification` after the settings arrive. Anything but
    `.authorized` does nothing (provisional and ephemeral included). With
    alerts enabled it schedules at the default hour. With alerts disabled it
    cancels the identifier "dailyNoveltyNotification", which is not the
    slot's identifier.
  */
  function SetupTodaysNoveltyNotification(
    st: SchedulerState, profile: UserProfile, now: Instant,
    settings: NotificationSettings, addSucceeds: bool): (r: SchedulerState)
    ensures settings.authorizationStatus != Authorized ==> r == st
    ensures settings.authorizationStatus == Authorized && settings.alertEnabled ==>
              r == ScheduleNoveltyNotificationOnce(st, profile, now, DefaultHour, addSucceeds)
    ensures settings.authorizationStatus == Authorized && !settings.alertEnabled ==>
              r.nextNoveltyTime == st.nextNoveltyTime && AlertsOffCancelId !in r.pending
              && SameExcept(st.pending, r.pending, AlertsOffCancelId)
  {
    if settings.authorizationStatus != Authorized then st
    else if settings.alertEnabled then
      ScheduleNoveltyNotificationOnce(st, profile, now, DefaultHour, addSucceeds)
    else
      st.(pending := st.pending - {AlertsOffCancelId})
  }

  /**
    The alerts-disabled path as its comment describes it: clear the novelty
    slot itself.
  */
  function SetupTodaysNoveltyNotificationCorrected(
    st: SchedulerState, profile: UserProfile, now: Instant,
    settings: NotificationSettings, addSucceeds: bool): (r: SchedulerState)
    ensures settings.authorizationStatus != Authorized ==> r == st
    ensures settings.authorizationStatus == Authorized && settings.alertEnabled ==>
              r == ScheduleNoveltyNotificationOnce(st, profile, now, DefaultHour, addSucceeds)
    ensures settings.authorizationStatus == Authorized && !settings.alertEnabled ==>
              r.nextNoveltyTime == st.nextNoveltyTime && NoveltyId !in r.pending
              && SameExcept(st.pending, r.pending, NoveltyId)
  {
    if settings.authorizationStatus != Authorized then st
    else if settings.alertEnabled then
      ScheduleNoveltyNotificationOnce(st, profile, now, DefaultHour, addSucceeds)
    else
      st.(pending := st.pending - {NoveltyId})
  }

  // ---------------------------------------------------------------------------
  // Properties of the slot
  // ---------------------------------------------------------------------------

  /**
    Two allowed, successful schedules in a row leave exactly one novelty
    request, the second call's, and the second fire time; no other
    identifier appears or disappears.
  */
  lemma ScheduleTwiceLeavesOneSlot(
    st: SchedulerState, profile: UserProfile, now1: Instant, now2: Instant, hour: int)
    requires 0 <= hour < 24
    requires QuietHours.IsAllowedToSendNotification(profile, FireTime(now1, hour))
    requires QuietHours.IsAllowedToSendNotification(profile, FireTime(now2, hour))
    ensures var r := ScheduleNoveltyNotificationOnce(
                       ScheduleNoveltyNotificationOnce(st, profile, now1, hour, true), profile, now2, hour, true);
            && r.pending.Keys == st.pending.Keys + {NoveltyId}
            && r.pending[NoveltyId] == CalendarRequest(now2, hour)
            && r.nextNoveltyTime == Some(FireTime(now2, hour))
  {
    var mid := ScheduleNoveltyNotificationOnce(st, profile, now1, hour, true);
    var r := ScheduleNoveltyNotificationOnce(mid, profile, now2, hour, true);
    assert SameExcept(st.pending, r.pending, NoveltyId);
    assert r.pending.Keys == st.pending.Keys + {NoveltyId};
  }

  /**
    A failed add still empties the slot: the previous novelty request is
    gone, and `nextNoveltyTime` keeps pointing at its fire time.
  */
  lemma FailedAddClearsSlot(st: SchedulerState, profile: UserProfile, now: Instant, hour: int)
    requires 0 <= hour < 24
    requires NoveltyId in st.pending
    requires QuietHours.IsAllowedToSendNotification(profile, FireTime(now, hour))
    ensures var r := ScheduleNoveltyNotificationOnce(st, profile, now, hour, false);
            && NoveltyId !in r.pending
            && r.nextNoveltyTime == st.nextNoveltyTime
  {
  }

  /** The same holds for the delay path. */
  lemma FailedDelayClearsSlot(st: SchedulerState, profile: UserProfile, now: Instant, interval: int)
    requires interval > 0
    requires NoveltyId in st.pending
    requires QuietHours.IsAllowedToSendNotification(profile, AddSeconds(now, interval))
    ensures var r := DelayNotification(st, profile, now, interval, false);
            && NoveltyId !in r.pending
            && r.nextNoveltyTime == st.nextNoveltyTime
  {
  }

  /**
    With alerts disabled the cancel misses the slot: a pending novelty
    request survives unchanged.
  */
  lemma AlertsOffKeepsNoveltySlot(
    st: SchedulerState, profile: UserProfile, now: Instant, addSucceeds: bool)
    requires NoveltyId in st.pending
    ensures var r := SetupTodaysNoveltyNotification(
                       st, profile, now, NotificationSettings(Authorized, false), addSucceeds);
            NoveltyId in r.pending && r.pending[NoveltyId] == st.pending[NoveltyId]
  {
  }

  /** Every operation keeps each request filed under its own identifier. */
  lemma OperationsKeepWellKeyed(
    st: SchedulerState, profile: UserProfile, now: Instant,
    settings: NotificationSettings, hour: int, interval: int, addSucceeds: bool)
    requires WellKeyed(st.pending)
    requires 0 <= hour < 24 && interval > 0
    ensures WellKeyed(ScheduleNoveltyNotificationOnce(st, profile, now, hour, addSucceeds).pending)
    ensures WellKeyed(DelayNotification(st, profile, now, interval, addSucceeds).pending)
    ensures WellKeyed(SetupTodaysNoveltyNotification(st, profile, now, settings, addSucceeds).pending)
  {
  }

  // ---------------------------------------------------------------------------
  // Concrete scenarios
  // ---------------------------------------------------------------------------

  /** A profile muting 14:00 to 15:00 on every day of the week. */
  function AfternoonQuiet(id: Uuid): UserProfile {
    NewUserProfile(id, quietPeriods := [
      NewQuietPeriod(0, Instant(0, 14 * 60, 0), Instant(0, 15 * 60, 0), {1, 2, 3, 4, 5, 6, 7})])
  }

  /**
    The check is made at the fire time, not now: at 14:30, inside the quiet
    period, the 11:31 slot is still scheduled.
  */
  lemma QuietNowDoesNotBlockSchedule(id: Uuid)
    ensures var now := Instant(0, 14 * 60 + 30, 0);
            && !QuietHours.IsAllowedToSendNotification(AfternoonQuiet(id), now)
            && NoveltyId in ScheduleNoveltyNotificationOnce(
                 SchedulerState(map[], None), AfternoonQuiet(id), now, DefaultHour, true).pending
  {
  }

  /**
    Only the end of a delay is checked: from 13:59:30 a 120-second delay
    ends at 14:01:30, inside the quiet period, and is refused; a delay that
    waits through the period entirely (from 13:59:30 to 15:00:30) is
    accepted although 14:30 lies inside it.
  */
  lemma DelayChecksOnlyTheEnd(id: Uuid)
    ensures var now := Instant(0, 13 * 60 + 59, 30);
            && DelayNotification(SchedulerState(map[], None), AfternoonQuiet(id), now, 120, true)
               == SchedulerState(map[], None)
            && !QuietHours.IsAllowedToSendNotification(AfternoonQuiet(id), Instant(0, 14 * 60 + 30, 0))
            && NoveltyId in DelayNotification(SchedulerState(map[], None), AfternoonQuiet(id), now, 3660, true).pending
  {
    var now := Instant(0, 13 * 60 + 59, 30);
    FromSecondsRoundTrip(Instant(0, 14 * 60 + 1, 0));
    assert AddSeconds(now, 120) == Instant(0, 14 * 60 + 1, 30) by {
      ToSecondsInjective(AddSeconds(now, 120), Instant(0, 14 * 60 + 1, 30));
    }
    assert AddSeconds(now, 3660) == Instant(0, 15 * 60, 30) by {
      ToSecondsInjective(AddSeconds(now, 3660), Instant(0, 15 * 60, 30));
    }
  }
}
