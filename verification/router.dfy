/**
  The screen choice of `RootRouterView` (Novelty/Views/RootRouterView.swift)
  and the setup trigger it fires when it appears.
*/
module Router {
  import opened Wrappers
  import opened Clock
  import opened Profiles
  import QuietHours
  import Scheduler

  datatype Screen = OnboardingScreen | NoveltyScreen | LoadingScreen | MainScreen

  /**
    Whether `currentTime >= Date(timeIntervalSince1970: nextNoveltyTime)`.
    A missing value reads as the default +infinity, which is never reached.
  */
  predicate NoveltyDue(now: Instant, nextNoveltyTime: Option<Instant>) {
    nextNoveltyTime.Some? && ToSeconds(now) >= ToSeconds(nextNoveltyTime.value)
  }

  /**
    The `body` of the router. Exactly one screen is chosen: onboarding until
    it is completed; afterwards the main view until the next novelty is due,
    then the novelty if today's one is loaded, else the loading view.
  */
  function RootScreen(
    hasCompletedOnboarding: bool, now: Instant, nextNoveltyTime: Option<Instant>,
    todayNoveltyLoaded: bool): (s: Screen)
    ensures s == OnboardingScreen <==> !hasCompletedOnboarding
    ensures s == MainScreen <==> hasCompletedOnboarding && !NoveltyDue(now, nextNoveltyTime)
    ensures s == NoveltyScreen <==>
              hasCompletedOnboarding && NoveltyDue(now, nextNoveltyTime) && todayNoveltyLoaded
    ensures s == LoadingScreen <==>
              hasCompletedOnboarding && NoveltyDue(now, nextNoveltyTime) && !todayNoveltyLoaded
  {
    if hasCompletedOnboarding then
      if NoveltyDue(now, nextNoveltyTime) then
        if todayNoveltyLoaded then NoveltyScreen else LoadingScreen
      else MainScreen
    else OnboardingScreen
  }

  /**
    `onAppear`: the scheduler state once the view has appeared. The setup
    runs only for a user who has completed onboarding; the settings and the
    outcome of the add are what the notification centre reports.
  */
  function OnAppear(
    st: Scheduler.SchedulerState, profile: UserProfile, now: Instant, hasCompletedOnboarding: bool,
    settings: Scheduler.NotificationSettings, addSucceeds: bool): (r: Scheduler.SchedulerState)
    ensures !hasCompletedOnboarding ==> r == st
    ensures hasCompletedOnboarding ==>
              r == Scheduler.SetupTodaysNoveltyNotification(st, profile, now, settings, addSucceeds)
  {
    if hasCompletedOnboarding then
      Scheduler.SetupTodaysNoveltyNotification(st, profile, now, settings, addSucceeds)
    else st
  }

  /**
    Appearing before onboarding leaves the slot and the next novelty time
    alone, whatever the settings. Appearing after it, with alerts authorised
    and the default hour allowed, books the slot and routes to the main view
    until the default hour arrives.
  */
  lemma OnAppearSchedulesOnlyAfterOnboarding(
    st: Scheduler.SchedulerState, profile: UserProfile, now: Instant,
    settings: Scheduler.NotificationSettings, addSucceeds: bool, loaded: bool)
    requires QuietHours.IsAllowedToSendNotification(profile, Scheduler.FireTime(now, Scheduler.DefaultHour))
    ensures OnAppear(st, profile, now, false, settings, addSucceeds) == st
    ensures var r := OnAppear(st, profile, now, true, Scheduler.NotificationSettings(Scheduler.Authorized, true), true);
            var fire := Scheduler.FireTime(now, Scheduler.DefaultHour);
            && Scheduler.NoveltyId in r.pending
            && r.nextNoveltyTime == Some(fire)
            && (ToSeconds(now) < ToSeconds(fire) ==> RootScreen(true, now, r.nextNoveltyTime, loaded) == MainScreen)
  {
  }

  /** With nothing stored, an onboarded user always sees the main view. */
  lemma NothingStoredShowsMain(now: Instant, todayNoveltyLoaded: bool)
    ensures RootScreen(true, now, None, todayNoveltyLoaded) == MainScreen
  {
  }

  /**
    Once a schedule succeeds, the main view is shown at every instant before
    the fire time, and the novelty or loading view from the fire time on.
  */
  lemma ScheduledSlotDrivesRouting(
    st: Scheduler.SchedulerState, profile: UserProfile, now: Instant, hour: int,
    later: Instant, loaded: bool)
    requires 0 <= hour < 24
    requires QuietHours.IsAllowedToSendNotification(profile, Scheduler.FireTime(now, hour))
    ensures var r := Scheduler.ScheduleNoveltyNotificationOnce(st, profile, now, hour, true);
            var fire := Scheduler.FireTime(now, hour);
            && (ToSeconds(later) < ToSeconds(fire) ==> RootScreen(true, later, r.nextNoveltyTime, loaded) == MainScreen)
            && (ToSeconds(later) >= ToSeconds(fire) ==> RootScreen(true, later, r.nextNoveltyTime, loaded) != MainScreen)
  {
  }
}
