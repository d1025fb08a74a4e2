# Novelty quiet hours and notification slot, in Dafny

Novelty is an iOS app that sends one "novelty" notification a day. This
project models its notification logic:

- **Quiet-hours evaluator.** `isAllowedToSendNotification` decides whether a
  notification may fire at an instant. It reads the user's weekly quiet
  periods, each a start and end time of day plus a set of weekdays, and a
  global Do-Not-Disturb switch.
- **Data types.** The `QuietPeriod` and `UserProfile` records, with the
  profile manager's edits: the quiet-period list, hobbies, age and the DND
  switch.
- **Scheduler.** It keeps a single pending request under the identifier
  `"dailyNovelty"`, plus the stored `nextNoveltyTime`.
  `scheduleNoveltyNotificationOnce`, `delayNotification` and
  `setupTodaysNoveltyNotification` are state transitions on that pair.
- **View decisions.** The screen the root router picks, the onboarding step
  machine and its input parsing, the quiet-hours step (days label, row icon,
  list height, swipe-to-delete), and the notification-permission step's
  state.

Time is integer arithmetic:

- An instant is `(day, minuteOfDay, second)`. Day 0 is 1970-01-01, a
  Thursday.
- The weekday is `(day + 4) % 7 + 1`, with 1 = Sunday and 7 = Saturday.
- The weekday before `w` is `(w + 5) % 7 + 1`, proved equal to the weekday of
  the previous day.

Three behaviours of the code are stated as lemmas:

- A period whose start equals its end falls in the overnight branch and blocks
  a full 24 hours. Such a period is not inert; it blocks for 24 hours
  (`QuietHours.EqualStartEndBlocksAllDay`, `QuietHours.EqualStartEndSpansOneDay`).
- The scheduler removes the pending request before adding the new one. A
  failed add therefore leaves no request, while `nextNoveltyTime` keeps its
  old value (`Scheduler.FailedAddClearsSlot`).
- With alerts disabled, setup cancels `"dailyNoveltyNotification"`. That is
  not the slot's identifier, so a pending novelty survives. This is the first
  item under "Findings"; the second is the trigger built for minute 60.

Modules, one per source concern:

- `Wrappers`: `Option`.
- `Clock`: instants, weekdays and epoch seconds.
- `Text`: whitespace trimming, comma splitting, `Int(String)` parsing and
  case folding.
- `QuietPeriods` and `Profiles`: the two records.
- `QuietHours`: the evaluator, plus a weekly-span reading of a period proved
  equivalent to it.
- `ProfileManager`: the profile edits.
- `Scheduler`: the slot state machine.
- `Router`, `Onboarding`, `QuietHoursStep` and `Permission`: the view
  decisions.

Everything outside the program is a parameter. That covers the clock, fresh
UUIDs (natural numbers), whether the notification centre accepts an add, the
system's authorization status and alert setting, the user's answer to the
permission prompt, and whether today's novelty has been loaded.

## Model

| member | source | states |
|---|---|---|
| Clock.Weekday | Novelty/ViewModel/UserProfileManager.swift:79 | the weekday number lies in 1..7, Sunday = 1, and 1970-01-01 is a Thursday (5) |
| Clock.WeekdayOfPreviousDay | Novelty/ViewModel/UserProfileManager.swift:104-105 | the weekday of the day before is the weekday's predecessor, and Sunday's predecessor is Saturday |
| Clock.ComponentsOf | Novelty/ViewModel/UserProfileManager.swift:78 | the hour/minute components of an instant are both present, lie in 0..23 and 0..59, and recompose to its minute of the day |
| Clock.FromSeconds | Novelty/Services/NotificationManager.swift:90 | converting epoch seconds to an instant is a right inverse of converting back, so dates built from seconds land exactly |
| Clock.AddSeconds | Novelty/Services/NotificationManager.swift:90 | `addingTimeInterval` shifts the epoch-seconds value by exactly the interval |
| QuietPeriods.NewQuietPeriod | Novelty/Models/QuietPeriod.swift:48-62 | the initializer stores every argument in its own field |
| QuietPeriods.InitializerDefaults | Novelty/Models/QuietPeriod.swift:49-54 | omitting name and isEnabled gives no name and an enabled period, with the given id |
| QuietPeriods.Disabled | Novelty/Models/QuietPeriod.swift:41-43 | disabling a period changes only its flag; id, times, days and name are kept |
| QuietPeriods.ComponentsIgnoreDate | Novelty/Models/QuietPeriod.swift:66-74 | start/end components depend only on the time of day, not on the date |
| Profiles.NewUserProfile | Novelty/Models/UserProfile.swift:66-80 | the initializer stores every argument in its own field |
| Profiles.Empty | Novelty/Models/UserProfile.swift:85-87 | the empty profile has no quiet periods, DND enabled, and no age, profession or hobbies |
| Profiles.LoadProfile | Novelty/ViewModel/UserProfileManager.swift:34-49 | a decoded stored profile is used as is; missing or undecodable data gives the empty profile |
| QuietHours.TimeInMinutes | Novelty/ViewModel/UserProfileManager.swift:122-125 | minutes since midnight exist exactly when hour and minute both do, and equal hour·60 + minute |
| QuietHours.IsTimeBetween | Novelty/ViewModel/UserProfileManager.swift:127-132 | true exactly when all three times exist and start ≤ current < end |
| QuietHours.IsTimeAtOrAfter | Novelty/ViewModel/UserProfileManager.swift:134-138 | true exactly when both times exist and current ≥ start |
| QuietHours.IsTimeBefore | Novelty/ViewModel/UserProfileManager.swift:140-144 | true exactly when both times exist and current < end |
| QuietHours.IsOvernight | Novelty/ViewModel/UserProfileManager.swift:146-150 | true exactly when both times exist and start ≥ end, so equal times count as overnight |
| QuietHours.MalformedWindowNeverBlocks | Novelty/ViewModel/UserProfileManager.swift:122-150 | a window whose start or end lacks an hour or minute never blocks |
| QuietHours.SameDayPeriod | Novelty/ViewModel/UserProfileManager.swift:86-93 | a period with start < end blocks iff today is listed and start ≤ minute < end |
| QuietHours.OvernightPeriod | Novelty/ViewModel/UserProfileManager.swift:94-111 | a period with start ≥ end blocks iff (today listed and minute ≥ start) or (yesterday listed and minute < end), with Saturday before Sunday |
| QuietHours.PeriodIgnoresDates | Novelty/Models/QuietPeriod.swift:23-30 | periods with the same start and end times of day and the same days block at the same instants |
| QuietHours.PeriodBlocksIffCoveredBySpan | Novelty/ViewModel/UserProfileManager.swift:86-111 | the two-branch test equals an independent reading: each listed day opens a span of the week starting at start and lasting (end − start) mod a day, or a whole day when they are equal |
| QuietHours.EqualStartEndBlocksAllDay | Novelty/ViewModel/UserProfileManager.swift:146-150 | with start = end and all seven days listed, the period blocks every instant |
| QuietHours.EqualStartEndSpansOneDay | Novelty/ViewModel/UserProfileManager.swift:146-150 | with start = end the period blocks for exactly 24 hours from each listed day's start time |
| QuietHours.AllowedBy | Novelty/ViewModel/UserProfileManager.swift:82-117 | going through the periods gives true iff no enabled period blocks |
| QuietHours.IsAllowedToSendNotification | Novelty/ViewModel/UserProfileManager.swift:70-118 | with DND off everything is allowed; with DND on the result is false iff some enabled period blocks |
| QuietHours.AllowedIgnoresOrder | Novelty/ViewModel/UserProfileManager.swift:82-117 | any reordering of the quiet periods gives the same decision |
| QuietHours.DisabledPeriodsAreIgnored | Novelty/ViewModel/UserProfileManager.swift:82 | dropping all disabled periods gives the same decision |
| QuietHours.AllowedBySameBlockers | Novelty/ViewModel/UserProfileManager.swift:82-117 | two period lists holding the same blocking periods give the same decision |
| QuietHours.OneBlockingPeriodSuffices | Novelty/ViewModel/UserProfileManager.swift:82-113 | with DND on, any single enabled blocking period forbids the notification, wherever it is in the list |
| QuietHours.PreviewFixtureBlocks | Novelty/ViewModel/UserProfileManager.swift:209-222 | the preview profile (22:30–07:00, Mon–Fri) blocks Tue 23:00, Wed 06:30 and Sat 06:30 |
| QuietHours.PreviewFixtureAllows | Novelty/ViewModel/UserProfileManager.swift:209-222 | the preview profile allows Wed 07:00, Sat 23:00 and Mon 06:30, and allows everything with DND off |
| ProfileManager.AddQuietPeriod | Novelty/ViewModel/UserProfileManager.swift:181-184 | the period is appended at the end and nothing else changes |
| ProfileManager.WithoutId | Novelty/ViewModel/UserProfileManager.swift:187 | every entry with that id goes, and nothing changes when the id is absent |
| ProfileManager.WithoutIdCounts | Novelty/ViewModel/UserProfileManager.swift:187 | every entry with another id keeps its multiplicity |
| ProfileManager.RemoveQuietPeriod | Novelty/ViewModel/UserProfileManager.swift:186-189 | removal deletes exactly the entries with that id and touches no other field |
| ProfileManager.AddThenRemoveQuietPeriod | Novelty/ViewModel/UserProfileManager.swift:181-189 | removing a freshly added period whose id was not in use restores the profile |
| ProfileManager.RemoveQuietPeriodIdempotent | Novelty/ViewModel/UserProfileManager.swift:186-189 | removing the same id twice is the same as once |
| ProfileManager.FirstIndexOf | Novelty/ViewModel/UserProfileManager.swift:192 | finds the first position holding the id, or reports that no position does |
| ProfileManager.UpdateQuietPeriod | Novelty/ViewModel/UserProfileManager.swift:191-196 | only the first entry with a matching id is replaced; ids are preserved; no match means no change |
| ProfileManager.DisableKeepsPeriodButMutesIt | Novelty/Models/QuietPeriod.swift:41-43 | updating a period to its disabled copy keeps the list length and the period's place, and that period no longer blocks |
| ProfileManager.ToggleGlobalDND | Novelty/ViewModel/UserProfileManager.swift:198-201 | only the DND flag changes |
| ProfileManager.DndOffAllowsEverything | Novelty/ViewModel/UserProfileManager.swift:72-75 | after switching DND off every instant is allowed |
| ProfileManager.UpdateUserAge | Novelty/ViewModel/UserProfileManager.swift:154-157 | only the age changes |
| ProfileManager.UpdateUserAgeKeepsDecision | Novelty/ViewModel/UserProfileManager.swift:154-157 | updating the age never changes whether a notification is allowed at any instant |
| ProfileManager.AddHobby | Novelty/ViewModel/UserProfileManager.swift:159-171 | hobbies become non-nil; the trimmed hobby is appended iff it is non-empty and matches no existing hobby ignoring case, otherwise the list (or [] for nil) is kept |
| ProfileManager.AddHobbyKeepsDistinct | Novelty/ViewModel/UserProfileManager.swift:164-170 | adding keeps the hobbies pairwise distinct ignoring case |
| ProfileManager.WithoutMatches | Novelty/ViewModel/UserProfileManager.swift:174 | exactly the hobbies not matching ignoring case remain |
| ProfileManager.WithoutMatchesCounts | Novelty/ViewModel/UserProfileManager.swift:174 | every matching hobby goes and every other hobby keeps its multiplicity |
| ProfileManager.WithoutMatchesAppend | Novelty/ViewModel/UserProfileManager.swift:174 | the filter distributes over concatenation, so the kept hobbies stay in their order |
| ProfileManager.WithoutMatchesSingle | Novelty/ViewModel/UserProfileManager.swift:174 | a single hobby is kept iff it does not match |
| ProfileManager.RemoveHobby | Novelty/ViewModel/UserProfileManager.swift:173-179 | all case-insensitive matches go, every other hobby keeps its place and multiplicity, an emptied list becomes nil, nil stays nil, and no other field changes |
| ProfileManager.AddThenRemoveHobby | Novelty/ViewModel/UserProfileManager.swift:159-179 | removing a trimmed hobby just added restores the previous hobbies, with [] becoming nil |
| ProfileManager.PaddedRemoveMissesAddedHobby | Novelty/ViewModel/UserProfileManager.swift:165-174 | add trims " Chess" to "Chess" but remove does not trim, so removing " Chess" leaves "Chess" in place |
| Text.Trim | Novelty/ViewModel/UserProfileManager.swift:165 | the result is the input with leading and trailing whitespace and newlines removed: a trimmed slice surrounded only by whitespace |
| Text.TrimIdempotent | Novelty/ViewModel/UserProfileManager.swift:165 | trimming twice is trimming once |
| Text.TrimEmptyIffAllWhitespace | Novelty/Views/OnboardingView/OnboardingView.swift:148 | trimming yields "" iff the input is all whitespace |
| Text.Split | Novelty/Views/OnboardingView/OnboardingView.swift:153 | splitting on "," yields non-empty, comma-free pieces |
| Text.SplitRun | Novelty/Views/OnboardingView/OnboardingView.swift:153 | a non-empty comma-free string splits into itself alone |
| Text.SplitAtComma | Novelty/Views/OnboardingView/OnboardingView.swift:153 | splitting s + "," + t is splitting s followed by splitting t; with the two rows around it this fixes the split of every string |
| Text.SplitJoinRoundTrip | Novelty/Views/OnboardingView/OnboardingView.swift:153 | splitting the comma-join of non-empty comma-free pieces gives the pieces back |
| Text.ParseInt | Novelty/Views/OnboardingView/OnboardingView.swift:142 | `Int(String)` gives a value iff the input is an optional sign followed by one or more ASCII digits whose value lies in the 64-bit range, and the value is the one the digits denote |
| Text.ParseIntSigns | Novelty/Views/OnboardingView/OnboardingView.swift:142 | a "+" before the digits changes nothing and a "-" negates the value |
| Text.ParseIntLeadingZero | Novelty/Views/OnboardingView/OnboardingView.swift:142 | a leading zero does not change the result |
| Text.ParseIntRejects | Novelty/Views/OnboardingView/OnboardingView.swift:142 | " 30", "3O" and "1.5" give nothing |
| Text.ParseIntAcceptsZeroAndPlus | Novelty/Views/OnboardingView/OnboardingView.swift:142 | "030" and "+30" both give 30 |
| Text.ParseShowNat | Novelty/Views/OnboardingView/OnboardingView.swift:142 | parsing the decimal digits of any number in range gives that number back |
| Scheduler.FireParts | Novelty/Services/NotificationManager.swift:31-35 | the trigger components are today's date, the requested hour, the current minute plus one (1..60) and the current second |
| Scheduler.FireTime | Novelty/Services/NotificationManager.swift:28-38 | the fire instant is today at `hour`, plus current minute + 1, plus current second, with carries into the hour and day |
| Scheduler.FireTimeDayCarry | Novelty/Services/NotificationManager.swift:36 | at minute 59 with hour 23 the fire time is midnight of the next day |
| Scheduler.FireTimeMayPrecedeNow | Novelty/Services/NotificationManager.swift:28-38 | at 15:00 the default 11-o'clock fire time is already in the past |
| Scheduler.FireTimeIgnoresCurrentHour | Novelty/Services/NotificationManager.swift:31-35 | two instants on the same day with the same minute and second give the same fire time |
| Scheduler.TriggerMinuteNotNormalised | Novelty/Services/NotificationManager.swift:35-53 | at minute 59 the trigger is handed minute 60, while the stored fire time is normalised to minute 0 |
| Scheduler.SubmittedTriggerMatches | Novelty/Services/NotificationManager.swift:31-53 | before minute 59 the submitted trigger matches exactly the stored fire time; at minute 59 it matches no clock reading |
| Scheduler.NormalisedFireParts | Novelty/Services/NotificationManager.swift:36-53 | the components of the normalised fire time are in range and equal the submitted ones whenever the minute is below 59 |
| Scheduler.NormalisedTriggerMatchesFireTime | Novelty/Services/NotificationManager.swift:36-53 | a trigger built from the normalised components matches exactly the stored fire time, at every minute |
| Scheduler.ReplaceNoveltySlot | Novelty/Services/NotificationManager.swift:59-76 | after remove-then-add, the slot is filled iff the add succeeds; the fire time is stored only then; other identifiers are untouched |
| Scheduler.CalendarRequest | Novelty/Services/NotificationManager.swift:51-65 | the calendar request uses the slot identifier and does not repeat |
| Scheduler.ScheduleNoveltyNotificationOnce | Novelty/Services/NotificationManager.swift:28-82 | the quiet-hours check is made at the fire time; blocked means no change; allowed means the slot is replaced and the time is stored only on success |
| Scheduler.IntervalRequest | Novelty/Services/NotificationManager.swift:99-109 | the interval request uses the slot identifier and does not repeat |
| Scheduler.DelayNotification | Novelty/Services/NotificationManager.swift:89-125 | only now + interval is checked; blocked means no change; allowed means the slot is replaced, and on success the stored time is interval seconds after now |
| Scheduler.SetupTodaysNoveltyNotification | Novelty/Services/NotificationManager.swift:150-172 | anything but authorized does nothing; authorized with alerts schedules at hour 11; authorized without alerts removes only "dailyNoveltyNotification" |
| Scheduler.SetupTodaysNoveltyNotificationCorrected | Novelty/Services/NotificationManager.swift:164-168 | as setup, but with alerts disabled the novelty slot itself is cleared and nothing else changes |
| Scheduler.ScheduleTwiceLeavesOneSlot | Novelty/Services/NotificationManager.swift:55-65 | two allowed, successful schedules leave one slot entry holding the second request and the second fire time, with no other key added or lost |
| Scheduler.FailedAddClearsSlot | Novelty/Services/NotificationManager.swift:59-67 | when the add fails, the earlier request is gone and the stored time is unchanged |
| Scheduler.FailedDelayClearsSlot | Novelty/Services/NotificationManager.swift:103-111 | the same holds for a failed delayed add |
| Scheduler.AlertsOffKeepsNoveltySlot | Novelty/Services/NotificationManager.swift:164-168 | with alerts disabled, a pending novelty request survives setup unchanged |
| Scheduler.OperationsKeepWellKeyed | Novelty/Services/NotificationManager.swift:55-65 | every operation keeps each pending request filed under its own identifier |
| Scheduler.QuietNowDoesNotBlockSchedule | Novelty/Services/NotificationManager.swift:43-44 | being inside a quiet period now does not stop scheduling for an allowed fire time |
| Scheduler.DelayChecksOnlyTheEnd | Novelty/Services/NotificationManager.swift:90-93 | a delay ending inside a quiet period is refused, but one that spans a whole quiet period is accepted |
| Router.RootScreen | Novelty/Views/RootRouterView.swift:22-50 | exactly one screen: onboarding iff not onboarded; main iff onboarded and the novelty is not due; novelty or loading when due, depending on whether it is loaded |
| Router.OnAppear | Novelty/Views/RootRouterView.swift:51-55 | before onboarding the scheduler state is left as it is; afterwards it is the result of the notification setup |
| Router.OnAppearSchedulesOnlyAfterOnboarding | Novelty/Views/RootRouterView.swift:51-55 | appearing before onboarding changes nothing whatever the settings; appearing after it with alerts authorised and the default hour allowed books the slot for the default fire time and shows the main view until then |
| Router.NothingStoredShowsMain | Novelty/Views/RootRouterView.swift:20-25 | with no stored time (+∞) an onboarded user always sees the main view |
| Router.ScheduledSlotDrivesRouting | Novelty/Views/RootRouterView.swift:20-41 | after a successful schedule the main view shows before the fire time, and the novelty or loading view shows from the fire time on |
| Onboarding.RawValue | Novelty/Views/OnboardingView/OnboardingView.swift:14-22 | each step's raw value is its position among the seven cases |
| Onboarding.StepFromRawValue | Novelty/Views/OnboardingView/OnboardingView.swift:14-22 | a step exists exactly for raw values 0..6, and it has that raw value |
| Onboarding.RawValueRoundTrip | Novelty/Views/OnboardingView/OnboardingView.swift:14-22 | a step rebuilt from its raw value is itself |
| Onboarding.CompletionIsLast | Novelty/Views/OnboardingView/OnboardingView.swift:14-22 | completion is the only step with the last raw value |
| Onboarding.Progress | Novelty/Views/OnboardingView/OnboardingView.swift:59 | progress is a step count out of 7, between 1 and 7, and it is full only on completion |
| Onboarding.ProgressAdvancesWithNext | Novelty/Views/OnboardingView/OnboardingView.swift:59 | progress starts at 1 of 7 on the welcome step and Next raises it by exactly one |
| Onboarding.NextStep | Novelty/Views/OnboardingView/OnboardingView.swift:136-137 | Next moves to the step whose raw value is one higher |
| Onboarding.NextGuardHoldsBeforeCompletion | Novelty/Views/OnboardingView/OnboardingView.swift:136 | the bound check holds on every step but completion, so Next never goes past it |
| Onboarding.HandleNextButton | Novelty/Views/OnboardingView/OnboardingView.swift:132-139 | on completion the profile is saved and completion signalled with the step kept; otherwise the step advances by one and nothing else changes |
| Onboarding.SixNextsReachCompletion | Novelty/Views/OnboardingView/OnboardingView.swift:132-139 | six presses from the start reach completion without saving or signalling |
| Onboarding.BackStep | Novelty/Views/OnboardingView/OnboardingView.swift:92-94 | Back decrements the raw value by one after the first step |
| Onboarding.HandleBackButton | Novelty/Views/OnboardingView/OnboardingView.swift:89-96 | the Back button exists only after the first step and before completion; it moves one step back and changes nothing else |
| Onboarding.BackUndoesNext | Novelty/Views/OnboardingView/OnboardingView.swift:89-96 | Back after Next returns to the starting step |
| Onboarding.NextUndoesBack | Novelty/Views/OnboardingView/OnboardingView.swift:89-96 | Next after Back returns to the starting step |
| Onboarding.SavedAge | Novelty/Views/OnboardingView/OnboardingView.swift:142-146 | a parsed positive age is stored, empty input clears the age, and any other input keeps the previous age |
| Onboarding.SavedAgeOfTypedNumber | Novelty/Views/OnboardingView/OnboardingView.swift:142-143 | typing the digits of any positive number in range stores exactly that number |
| Onboarding.SavedAgeRejects | Novelty/Views/OnboardingView/OnboardingView.swift:142-146 | "0" and "abc" keep the previous age |
| Onboarding.SavedProfession | Novelty/Views/OnboardingView/OnboardingView.swift:148 | the profession is nil iff the raw input is empty, otherwise the trimmed input |
| Onboarding.WhitespaceProfessionIsEmptyString | Novelty/Views/OnboardingView/OnboardingView.swift:148 | a whitespace-only profession becomes "" rather than nil |
| Onboarding.TrimAll | Novelty/Views/OnboardingView/OnboardingView.swift:154 | each piece is trimmed and the order is kept |
| Onboarding.NonEmpty | Novelty/Views/OnboardingView/OnboardingView.swift:155 | exactly the non-empty pieces remain, and a list without empties is unchanged |
| Onboarding.NonEmptyAppend | Novelty/Views/OnboardingView/OnboardingView.swift:155 | the filter distributes over concatenation, so the kept pieces keep their order and their repeats |
| Onboarding.NonEmptySingle | Novelty/Views/OnboardingView/OnboardingView.swift:155 | a single piece is kept iff it is non-empty |
| Onboarding.NonEmptyIsEmptyIff | Novelty/Views/OnboardingView/OnboardingView.swift:155 | nothing remains iff every piece is empty |
| Onboarding.CleanedPiecesWellFormed | Novelty/Views/OnboardingView/OnboardingView.swift:153-155 | trimmed, non-empty pieces of a comma split are non-empty, trimmed and comma-free |
| Onboarding.ParseHobbies | Novelty/Views/OnboardingView/OnboardingView.swift:150-157 | the result is nil iff the input is empty or every comma-separated piece is whitespace only; otherwise it is the non-blank trimmed pieces in input order, each trimmed, non-empty and comma-free |
| Onboarding.ParseHobbiesPaddedRoundTrip | Novelty/Views/OnboardingView/OnboardingView.swift:150-157 | comma-joined pieces with any whitespace padding parse to the trimmed pieces, in order and with repeats |
| Onboarding.ParseHobbiesRoundTrip | Novelty/Views/OnboardingView/OnboardingView.swift:150-157 | parsing the comma-join of well-formed hobbies gives exactly those hobbies |
| Onboarding.BlankHobbiesAreMissing | Novelty/Views/OnboardingView/OnboardingView.swift:150-157 | input of only commas and spaces stores nil |
| Onboarding.SaveProfileData | Novelty/Views/OnboardingView/OnboardingView.swift:141-161 | age, profession and hobbies come from the parsed inputs; the quiet periods become the wizard's list; id and DND switch are kept |
| Onboarding.AppendFromSheet | Novelty/Views/OnboardingView/OnboardingView.swift:120-124 | the sheet appends the new period at the end and changes nothing else |
| Onboarding.SheetPeriodIsSavedLast | Novelty/Views/OnboardingView/OnboardingView.swift:120-159 | a period added from the sheet is carried along by Next and, on completion, saved as the last of the profile's quiet periods |
| QuietHoursStep.DaysFrom | Novelty/Views/OnboardingView/QuietHoursStepView.swift:128 | the listed days from k to 7, strictly ascending |
| QuietHoursStep.SortedDays | Novelty/Views/OnboardingView/QuietHoursStepView.swift:128 | sorting gives a strictly ascending list holding exactly the set's days |
| QuietHoursStep.SortedListIsUnique | Novelty/Views/OnboardingView/QuietHoursStepView.swift:128 | two strictly ascending lists with the same elements are equal, so the sorted order is determined |
| QuietHoursStep.Symbols | Novelty/Views/OnboardingView/QuietHoursStepView.swift:129-135 | each day d is mapped to symbol d − 1, in order |
| QuietHoursStep.DaysDisplay | Novelty/Views/OnboardingView/QuietHoursStepView.swift:123-136 | "Not set" for no days; "Every Day" for any seven; "Weekends" for {1,7}; "Weekdays" for {2..6}; otherwise the short names of the sorted days, joined with ", " |
| QuietHoursStep.DaysDisplayListsAscending | Novelty/Views/OnboardingView/QuietHoursStepView.swift:128-135 | outside the named sets, the label is the names of any ascending listing of the days: the order of the set never matters |
| QuietHoursStep.DaysDisplayListsDaysInOrder | Novelty/Views/OnboardingView/QuietHoursStepView.swift:128-135 | {6, 2} is shown as "Mon, Fri" |
| QuietHoursStep.RowIcon | Novelty/Views/OnboardingView/QuietHoursStepView.swift:104-110 | the icon is the blue struck-through bell iff the period is enabled, otherwise the gray plain bell |
| QuietHoursStep.GrayRowNeverBlocks | Novelty/Views/OnboardingView/QuietHoursStepView.swift:107-110 | a period shown with the gray bell never blocks a notification |
| QuietHoursStep.ListHeight | Novelty/Views/OnboardingView/QuietHoursStepView.swift:56 | the height is count·70 + 40 up to three rows and 300 from four on, never above 300 |
| QuietHoursStep.ListHeightMonotone | Novelty/Views/OnboardingView/QuietHoursStepView.swift:56 | more rows never make the list shorter |
| QuietHoursStep.KeepFromKeeps | Novelty/Views/OnboardingView/QuietHoursStepView.swift:82-84 | keeps exactly the elements at positions not deleted, with length reduced by the deleted positions |
| QuietHoursStep.KeepFromPosition | Novelty/Views/OnboardingView/QuietHoursStepView.swift:82-84 | a kept element lands at its position less the number of deleted offsets before it |
| QuietHoursStep.DeleteOffsets | Novelty/Views/OnboardingView/QuietHoursStepView.swift:82-84 | exactly the elements at the given offsets go: the length drops by their count and every other element moves up by the number of deleted offsets before it, so the survivors keep their order |
| QuietHoursStep.DeleteOneOffset | Novelty/Views/OnboardingView/QuietHoursStepView.swift:82-84 | deleting one offset removes that element and keeps the others in order |
| QuietHoursStep.DeleteNoOffsets | Novelty/Views/OnboardingView/QuietHoursStepView.swift:82-84 | deleting no offsets changes nothing |
| Permission.StateForStatus | Novelty/Views/OnboardingView/notificationsPermission.swift:120-142 | authorized, provisional and ephemeral read as granted; denied as refused; not-determined and unknown as undecided; requested is set exactly when a decision is known |
| Permission.ChecksStatusOnAppear | Novelty/Views/OnboardingView/notificationsPermission.swift:108-114 | the status is consulted on appear only from the initial state |
| Permission.AfterAuthorizationRequest | Novelty/Views/OnboardingView/notificationsPermission.swift:145-158 | the answer is recorded as requested, and setup runs iff permission was granted |
| Permission.FeedbackPanel | Novelty/Views/OnboardingView/notificationsPermission.swift:58-102 | the button shows iff nothing was requested; afterwards exactly one of the enabled, disabled or checking messages shows |
| Permission.IconName | Novelty/Views/OnboardingView/notificationsPermission.swift:171-176 | plain bell iff nothing was requested or decided; otherwise waves iff granted, else struck bell |
| Permission.IconColorOf | Novelty/Views/OnboardingView/notificationsPermission.swift:179-184 | accent, green or orange by the same conditions |
| Permission.IconAndColorAgree | Novelty/Views/OnboardingView/notificationsPermission.swift:170-184 | icon and colour always pick the same one of the three cases |
| Permission.ReachableStatesAreConsistent | Novelty/Views/OnboardingView/notificationsPermission.swift:120-152 | the initial state, every status mapping and every callback result have a decision exactly when requested |
| Permission.ConsistentStatesMatchIconAndPanel | Novelty/Views/OnboardingView/notificationsPermission.swift:58-102 | in a reachable state the checking message never appears and icon and panel agree |
| Permission.StatusDecidesButton | Novelty/Views/OnboardingView/notificationsPermission.swift:123-139 | after the status check the enable button shows exactly for not-determined and unknown statuses |
| Permission.ProvisionalShowsGrantedButSchedulesNothing | Novelty/Views/OnboardingView/notificationsPermission.swift:133-135 | provisional permission shows the enabled message, yet setup under it, as written and as corrected, changes nothing |

## Left out

- `UNUserNotificationCenter`: adding, removing, querying settings and the permission prompt. These are operations on the slot map. Their outcomes (add success, authorization status, alert setting, the user's answer) are parameters. Completion handlers and `DispatchQueue.main.async` are not modelled: every transition is taken as atomic.
- `requestNotificationAuthorization` (NotificationManager.swift:131-146) only forwards the system answer. The answer is the `granted` parameter of `Permission.AfterAuthorizationRequest`.
- `UserDefaults`, JSON coding and `@AppStorage`: saving after each edit is not modelled. Loading is `Profiles.LoadProfile` over an abstract stored value. `nextNoveltyTime` is a field of the scheduler state, not a stored `Double`.
- `Calendar.current`, time zones and daylight saving time. Days are uniform 86 400-second UTC days in the Gregorian week. `Date` as a floating-point number is not modelled.
- Scheduler.FireTime: requires hour 0..23, the documented range. `Calendar.date(from:)` normalisation of other hours is not modelled, and the default hour 11 is inside the range.
- The `guard let fireDate` failure branch (NotificationManager.swift:38-41) is not modelled. Components built from a valid date with hour 0..23 and minute 1..60 always give a date.
- Scheduler.DelayNotification: requires a positive interval. A time-interval trigger refuses a non-positive interval at run time, and the default is 60.
- Text.FoldString: case-insensitive comparison folds ASCII letters only. Foundation's full Unicode case folding is not modelled.
- Strings are sequences of Unicode scalars, not grapheme clusters. Whitespace is the Unicode White_Space set, which `.whitespacesAndNewlines` contains.
- QuietHoursStep.ListHeight: uses unbounded integers. The overflow trap of `count * 70 + 40` for astronomically long lists is not modelled.
- QuietHoursStep.DaysDisplay: uses English short weekday names. Other locales' symbols are not modelled.
- The clock is read once per operation. `scheduleNoveltyNotificationOnce` reads `Date()` twice (NotificationManager.swift:31 and 34), so a call straddling a minute boundary would take its date and second from one reading and its minute from the next; the model takes all of them from one instant.
- QuietHoursStep.DaysDisplay: requires every listed day to be in 1..7 (unless there are none or seven). For another day the symbol lookup at QuietHoursStepView.swift:135 traps, which is not modelled.
- QuietHoursStep.DeleteOffsets: requires every offset to be a position of the list, because `remove(atOffsets:)` at QuietHoursStepView.swift:82 traps otherwise; the trap is not modelled.
- `DateFormatter` and `formatted(...)` output, `print` logging, `openAppSettings`, the onboarding step titles, and all SwiftUI layout and animation.
- Purely presentational views: WelcomeStepView, HowItWorksStepView, AboutYouStepView, HobbiesStepView and CompletionStepView.
- NoveltyApp.swift object wiring.
- `NoveltyManager`, `TimeManager`, `NoveltyStatus` and `AddQuietPeriodView` are not part of this model. Today's novelty is a boolean "loaded" input, the current time is a parameter, and the sheet's output is a given period.
- The DEBUG preview initializer of the permission step. It can start from any state, which is why the "checking" message exists; the live view never reaches it (`Permission.ConsistentStatesMatchIconAndPanel`).

## Findings

| source | as written | input that shows it | evidently intended | confidence | as-written member | corrected member |
|---|---|---|---|---|---|---|
| Novelty/Services/NotificationManager.swift:167 | with alerts disabled, setup cancels the identifier "dailyNoveltyNotification", but requests are filed under "dailyNovelty" | status authorized, alerts disabled, a "dailyNovelty" request pending: it is still pending afterwards | cancel "dailyNovelty", clearing any previously scheduled novelty as the comment at line 166 says | high; not executed | Scheduler.SetupTodaysNoveltyNotification, Scheduler.AlertsOffKeepsNoveltySlot | Scheduler.SetupTodaysNoveltyNotificationCorrected |
| Novelty/Services/NotificationManager.swift:35-53 | the calendar trigger receives the raw components, whose minute is the current minute plus one; only the stored fire date is normalised | scheduling at 10:59:20 for hour 11: the trigger asks for minute 60, which no clock reading shows, while the stored time is 12:00:20 | hand the trigger the components of the normalised fire date, as the comment at line 36 expects | medium; not executed | Scheduler.FireParts, Scheduler.SubmittedTriggerMatches | Scheduler.NormalisedFireParts, Scheduler.NormalisedTriggerMatchesFireTime |
