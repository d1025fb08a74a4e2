/**
  The notification-permission step of onboarding
  (Novelty/Views/OnboardingView/notificationsPermission.swift): its two state
  variables, how the system's authorization status and the request callback
  set them, and what the view shows for each state.
*/
module Permission {
  import opened Wrappers
  import opened Clock
  import opened Profiles
  import opened Scheduler

  /** `permissionRequested` and `permissionGranted` (nil while undetermined). */
  datatype PermissionState = PermissionState(requested: bool, granted: Option<bool>)

  /** The state the main initializer starts from. */
  const Initial: PermissionState := PermissionState(false, None)

  /** A state the live view can reach: a decision is known exactly when a request was made. */
  predicate Consistent(st: PermissionState) {
    st.granted.Some? <==> st.requested
  }

  /** Statuses under which the system has answered with some form of permission. */
  predicate ReadsAsGranted(status: AuthorizationStatus) {
    status == Authorized || status == Provisional || status == Ephemeral
  }

  /** `checkInitialNotificationStatus`: the state set from the current authorization status. */
  function StateForStatus(status: AuthorizationStatus): (st: PermissionState)
    ensures st.granted == Some(true) <==> ReadsAsGranted(status)
    ensures st.granted == Some(false) <==> status == Denied
    ensures st.granted == None <==> status == NotDetermined || status == UnknownStatus
    ensures Consistent(st)
  {
    match status
    case Authorized => PermissionState(true, Some(true))
    case Denied => PermissionState(true, Some(false))
    case NotDetermined => PermissionState(false, None)
    case Provisional => PermissionState(true, Some(true))
    case Ephemeral => PermissionState(true, Some(true))
    case UnknownStatus => PermissionState(false, None)
  }

  /** `onAppear` consults the system only from the initial state. */
  function ChecksStatusOnAppear(st: PermissionState): (checks: bool)
    ensures checks <==> st == Initial
  {
    st.granted == None && !st.requested
  }

  /** The result of the authorization request's callback. */
  datatype RequestOutcome = RequestOutcome(state: PermissionState, runsSetup: bool)

  /**
    `requestNotificationPermission`'s callback: the answer is recorded as
    requested, and today's notification is set up only when granted.
  */
  function AfterAuthorizationRequest(st: PermissionState, granted: bool): (r: RequestOutcome)
    ensures r.state.requested && r.state.granted == Some(granted)
    ensures r.runsSetup <==> granted
    ensures Consistent(r.state)
  {
    RequestOutcome(PermissionState(true, Some(granted)), granted)
  }

  datatype Panel = EnableButton | EnabledMessage | DisabledMessage | CheckingMessage

  /** The part under the description: the button, or feedback once a request was made. */
  function FeedbackPanel(st: PermissionState): (p: Panel)
    ensures p == EnableButton <==> !st.requested
    ensures p == EnabledMessage <==> st.requested && st.granted == Some(true)
    ensures p == DisabledMessage <==> st.requested && st.granted == Some(false)
    ensures p == CheckingMessage <==> st.requested && st.granted == None
  {
    if !st.requested then EnableButton
    else match st.granted
      case Some(true) => EnabledMessage
      case Some(false) => DisabledMessage
      case None => CheckingMessage
  }

  datatype IconColor = AccentColor | Green | Orange

  /** The big icon's name. */
  function IconName(st: PermissionState): (name: string)
    ensures name == "bell.square.fill" <==> !st.requested && st.granted == None
    ensures name == "bell.and.waves.left.and.right.fill" <==>
              (st.requested || st.granted != None) && st.granted == Some(true)
    ensures name == "bell.slash.circle.fill" <==>
              (st.requested || st.granted != None) && st.granted != Some(true)
  {
    if !st.requested && st.granted == None then "bell.square.fill"
    else if st.granted == Some(true) then "bell.and.waves.left.and.right.fill"
    else "bell.slash.circle.fill"
  }

  /** The big icon's colour. */
  function IconColorOf(st: PermissionState): (c: IconColor)
    ensures c == AccentColor <==> !st.requested && st.granted == None
    ensures c == Green <==> (st.requested || st.granted != None) && st.granted == Some(true)
    ensures c == Orange <==> (st.requested || st.granted != None) && st.granted != Some(true)
  {
    if !st.requested && st.granted == None then AccentColor
    else if st.granted == Some(true) then Green
    else Orange
  }

  /** Icon and colour are chosen by the same three-way split. */
  lemma IconAndColorAgree(st: PermissionState)
    ensures IconName(st) == "bell.square.fill" <==> IconColorOf(st) == AccentColor
    ensures IconName(st) == "bell.and.waves.left.and.right.fill" <==> IconColorOf(st) == Green
    ensures IconName(st) == "bell.slash.circle.fill" <==> IconColorOf(st) == Orange
  {
  }

  /** Every state the live view reaches is consistent. */
  lemma ReachableStatesAreConsistent(status: AuthorizationStatus, st: PermissionState, granted: bool)
    ensures Consistent(Initial)
    ensures Consistent(StateForStatus(status))
    ensures Consistent(AfterAuthorizationRequest(st, granted).state)
  {
  }

  /**
    In a consistent state the icon and the panel agree: the plain bell goes
    with the button, the waves with the enabled message, the struck bell with
    the disabled message, and the "checking" message never appears.
  */
  lemma ConsistentStatesMatchIconAndPanel(st: PermissionState)
    requires Consistent(st)
    ensures FeedbackPanel(st) != CheckingMessage
    ensures IconColorOf(st) == AccentColor <==> FeedbackPanel(st) == EnableButton
    ensures IconColorOf(st) == Green <==> FeedbackPanel(st) == EnabledMessage
    ensures IconColorOf(st) == Orange <==> FeedbackPanel(st) == DisabledMessage
  {
  }

  /** After the status check the button is shown exactly for an undecided status. */
  lemma StatusDecidesButton(status: AuthorizationStatus)
    ensures FeedbackPanel(StateForStatus(status)) == EnableButton <==>
              status == NotDetermined || status == UnknownStatus
  {
  }

  /**
    Provisional permission shows as granted here, yet the scheduler only
    acts on full authorization, so setup under it leaves the pending
    requests and stored fire time untouched.
  */
  lemma ProvisionalShowsGrantedButSchedulesNothing(
    st: SchedulerState, profile: UserProfile, now: Instant, alertEnabled: bool, addSucceeds: bool)
    ensures FeedbackPanel(StateForStatus(Provisional)) == EnabledMessage
    ensures SetupTodaysNoveltyNotification(
              st, profile, now, NotificationSettings(Provisional, alertEnabled), addSucceeds) == st
    ensures SetupTodaysNoveltyNotificationCorrected(
              st, profile, now, NotificationSettings(Provisional, alertEnabled), addSucceeds) == st
  {
  }
}
