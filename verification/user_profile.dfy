/**
  The user's personal data and Do-Not-Disturb preferences
  (`UserProfile` in Novelty/Models/UserProfile.swift).
*/
module Profiles {
  import opened Wrappers
  import opened QuietPeriods

  /**
    Age, profession and hobbies are optional and have nothing to do with the
    DND fields. When `dndGloballyEnabled` is false the quiet periods are
    ignored by the evaluator. `id` is never reassigned.
  */
  datatype UserProfile = UserProfile(
    id: Uuid,
    age: Option<int>,
    profession: Option<string>,
    hobbies: Option<seq<string>>,
    quietPeriods: seq<QuietPeriod>,
    dndGloballyEnabled: bool)

  /** The memberwise initializer with its defaults. */
  function NewUserProfile(
    id: Uuid,
    age: Option<int> := None,
    profession: Option<string> := None,
    hobbies: Option<seq<string>> := None,
    quietPeriods: seq<QuietPeriod> := [],
    dndGloballyEnabled: bool := true): (p: UserProfile)
    ensures p.id == id && p.age == age && p.profession == profession && p.hobbies == hobbies
    ensures p.quietPeriods == quietPeriods && p.dndGloballyEnabled == dndGloballyEnabled
  {
    UserProfile(id, age, profession, hobbies, quietPeriods, dndGloballyEnabled)
  }

  /** `UserProfile.empty`: the default initializer with a fresh id. */
  function Empty(freshId: Uuid): (p: UserProfile)
    ensures p.id == freshId
    ensures p.quietPeriods == [] && p.dndGloballyEnabled
    ensures p.age.None? && p.profession.None? && p.hobbies.None?
  {
    NewUserProfile(freshId)
  }

  /** What the persistent store holds under the profile key. */
  datatype StoredProfile = Missing | Undecodable | Decoded(profile: UserProfile)

  /** The manager's initializer: the decoded profile, else the empty profile. */
  function LoadProfile(stored: StoredProfile, freshId: Uuid): (p: UserProfile)
    ensures stored.Decoded? ==> p == stored.profile
    ensures !stored.Decoded? ==> p == Empty(freshId)
  {
    match stored
    case Decoded(profile) => profile
    case _ => Empty(freshId)
  }
}
