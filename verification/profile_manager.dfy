/**
  The profile-mutation operations of `UserProfileManager`
  (Novelty/ViewModel/UserProfileManager.swift). Each takes the current
  profile and returns the updated one; saving to `UserDefaults` after each
  change is not modelled.
*/
module ProfileManager {
  import opened Wrappers
  import opened Text
  import opened QuietPeriods
  import opened Profiles
  import opened Clock
  import QuietHours

  // ---------------------------------------------------------------------------
  // Quiet periods
  // ---------------------------------------------------------------------------

  function Ids(periods: seq<QuietPeriod>): (ids: seq<Uuid>)
    ensures |ids| == |periods|
    ensures forall i :: 0 <= i < |periods| ==> ids[i] == periods[i].id
  {
    seq(|periods|, i requires 0 <= i < |periods| => periods[i].id)
  }

  /** `addQuietPeriod`: appends at the end; nothing else changes. */
  function AddQuietPeriod(profile: UserProfile, period: QuietPeriod): (r: UserProfile)
    ensures |r.quietPeriods| == |profile.quietPeriods| + 1
    ensures r.quietPeriods[..|profile.quietPeriods|] == profile.quietPeriods
    ensures r.quietPeriods[|profile.quietPeriods|] == period
    ensures r.(quietPeriods := profile.quietPeriods) == profile
  {
    profile.(quietPeriods := profile.quietPeriods + [period])
  }

  /** The periods whose id differs from `id`, in order. */
  function WithoutId(periods: seq<QuietPeriod>, id: Uuid): (r: seq<QuietPeriod>)
    ensures forall i :: 0 <= i < |r| ==> r[i].id != id
    ensures (forall i :: 0 <= i < |periods| ==> periods[i].id != id) ==> r == periods
  {
    if |periods| == 0 then []
    else
      var rest := WithoutId(periods[1..], id);
      assert periods == [periods[0]] + periods[1..];
      if periods[0].id == id then rest else [periods[0]] + rest
  }

  /** Every period with the id goes; every other period keeps its multiplicity. */
  lemma {:induction false} WithoutIdCounts(periods: seq<QuietPeriod>, id: Uuid)
    ensures forall q :: multiset(WithoutId(periods, id))[q] == if q.id == id then 0 else multiset(periods)[q]
  {
    if |periods| > 0 {
      WithoutIdCounts(periods[1..], id);
      assert multiset(periods) == multiset{periods[0]} + multiset(periods[1..]) by {
        assert periods == [periods[0]] + periods[1..];
      }
    }
  }

  /** `removeQuietPeriod(withID:)`: removes every period with that id and nothing else. */
  function RemoveQuietPeriod(profile: UserProfile, id: Uuid): (r: UserProfile)
    ensures forall i :: 0 <= i < |r.quietPeriods| ==> r.quietPeriods[i].id != id
    ensures forall q :: multiset(r.quietPeriods)[q]
                        == if q.id == id then 0 else multiset(profile.quietPeriods)[q]
    ensures r.(quietPeriods := profile.quietPeriods) == profile
  {
    WithoutIdCounts(profile.quietPeriods, id);
    profile.(quietPeriods := WithoutId(profile.quietPeriods, id))
  }

  /** `firstIndex(where: { $0.id == id })`. */
  function FirstIndexOf(periods: seq<QuietPeriod>, id: Uuid): (r: Option<nat>)
    ensures r.Some? ==> r.value < |periods| && periods[r.value].id == id
    ensures r.Some? ==> forall j :: 0 <= j < r.value ==> periods[j].id != id
    ensures r.None? ==> forall j :: 0 <= j < |periods| ==> periods[j].id != id
  {
    if |periods| == 0 then None
    else if periods[0].id == id then Some(0)
    else match FirstIndexOf(periods[1..], id)
      case Some(k) => Some(k + 1)
      case None => None
  }

  /**
    `updateQuietPeriod`: replaces the first period with the same id and
    leaves the rest alone; a no-op when no id matches. Ids never change.
  */
  function UpdateQuietPeriod(profile: UserProfile, period: QuietPeriod): (r: UserProfile)
    ensures (forall i :: 0 <= i < |profile.quietPeriods| ==> profile.quietPeriods[i].id != period.id)
            ==> r == profile
    ensures Ids(r.quietPeriods) == Ids(profile.quietPeriods)
    ensures forall i :: 0 <= i < |r.quietPeriods| ==>
              r.quietPeriods[i] == (if profile.quietPeriods[i].id == period.id
                                     && (forall j :: 0 <= j < i ==> profile.quietPeriods[j].id != period.id)
                                    then period else profile.quietPeriods[i])
    ensures r.(quietPeriods := profile.quietPeriods) == profile
  {
    match FirstIndexOf(profile.quietPeriods, period.id)
    case Some(k) => profile.(quietPeriods := profile.quietPeriods[k := period])
    case None => profile
  }

  /** `toggleGlobalDND(isEnabled:)`: only the master switch changes. */
  function ToggleGlobalDND(profile: UserProfile, isEnabled: bool): (r: UserProfile)
    ensures r.dndGloballyEnabled == isEnabled
    ensures r.(dndGloballyEnabled := profile.dndGloballyEnabled) == profile
  {
    profile.(dndGloballyEnabled := isEnabled)
  }

  /** `updateUserAge`: only the age changes. */
  function UpdateUserAge(profile: UserProfile, age: Option<int>): (r: UserProfile)
    ensures r.age == age
    ensures r.(age := profile.age) == profile
  {
    profile.(age := age)
  }

  /** The age plays no part in the quiet-hours decision, so updating it never changes one. */
  lemma UpdateUserAgeKeepsDecision(profile: UserProfile, age: Option<int>, now: Instant)
    ensures QuietHours.IsAllowedToSendNotification(UpdateUserAge(profile, age), now)
            == QuietHours.IsAllowedToSendNotification(profile, now)
  {
    var r := UpdateUserAge(profile, age);
    assert r.quietPeriods == profile.quietPeriods && r.dndGloballyEnabled == profile.dndGloballyEnabled;
  }

  /** Removing a freshly added period whose id was new gives the original profile back. */
  lemma AddThenRemoveQuietPeriod(profile: UserProfile, period: QuietPeriod)
    requires forall i :: 0 <= i < |profile.quietPeriods| ==> profile.quietPeriods[i].id != period.id
    ensures RemoveQuietPeriod(AddQuietPeriod(profile, period), period.id) == profile
  {
    var ps := profile.quietPeriods;
    var added := ps + [period];
    var r := WithoutId(added, period.id);
    assert WithoutId(ps, period.id) == ps;
    WithoutIdAppend(ps, period, period.id);
  }

  lemma {:induction false} WithoutIdAppend(ps: seq<QuietPeriod>, q: QuietPeriod, id: Uuid)
    ensures WithoutId(ps + [q], id) == WithoutId(ps, id) + (if q.id == id then [] else [q])
  {
    var tail := if q.id == id then [] else [q];
    if |ps| == 0 {
      assert ps + [q] == [q];
      assert [q][1..] == [];
      assert WithoutId([q], id) == tail + WithoutId([], id);
    } else {
      var head := if ps[0].id == id then [] else [ps[0]];
      calc {
        WithoutId(ps + [q], id);
        { assert (ps + [q])[0] == ps[0] && (ps + [q])[1..] == ps[1..] + [q]; }
        head + WithoutId(ps[1..] + [q], id);
        { WithoutIdAppend(ps[1..], q, id); }
        head + (WithoutId(ps[1..], id) + tail);
        (head + WithoutId(ps[1..], id)) + tail;
        WithoutId(ps, id) + tail;
      }
    }
  }

  /** Removing by id twice is the same as removing once. */
  lemma RemoveQuietPeriodIdempotent(profile: UserProfile, id: Uuid)
    ensures RemoveQuietPeriod(RemoveQuietPeriod(profile, id), id) == RemoveQuietPeriod(profile, id)
  {
  }

  /**
    Soft delete: updating a period to its disabled copy keeps it in the list
    under the same id, and from then on it never blocks a notification.
  */
  lemma DisableKeepsPeriodButMutesIt(profile: UserProfile, k: nat, now: Instant)
    requires k < |profile.quietPeriods|
    requires forall j :: 0 <= j < k ==> profile.quietPeriods[j].id != profile.quietPeriods[k].id
    ensures var r := UpdateQuietPeriod(profile, Disabled(profile.quietPeriods[k]));
            && |r.quietPeriods| == |profile.quietPeriods|
            && r.quietPeriods[k].id == profile.quietPeriods[k].id
            && !QuietHours.ActivelyBlocks(r.quietPeriods[k], now)
  {
  }

  /** Switching DND off allows every instant, whatever the periods say. */
  lemma DndOffAllowsEverything(profile: UserProfile, now: Instant)
    ensures QuietHours.IsAllowedToSendNotification(ToggleGlobalDND(profile, false), now)
  {
  }

  // ---------------------------------------------------------------------------
  // Hobbies
  // ---------------------------------------------------------------------------

  predicate HasMatch(hobbies: seq<string>, h: string) {
    exists i :: 0 <= i < |hobbies| && SameIgnoringCase(hobbies[i], h)
  }

  /** No two hobbies compare equal ignoring case. */
  predicate DistinctIgnoringCase(hobbies: seq<string>) {
    forall i, j :: 0 <= i < j < |hobbies| ==> !SameIgnoringCase(hobbies[i], hobbies[j])
  }

  /**
    `addHobby`: trims the input; a missing list becomes the empty list; the
    trimmed hobby is appended unless it is empty or already present ignoring
    case. Only the hobbies change.
  */
  function AddHobby(profile: UserProfile, hobby: string): (r: UserProfile)
    ensures r.hobbies.Some?
    ensures var before := profile.hobbies.GetOr([]);
            var h := Trim(hobby);
            if h != [] && !HasMatch(before, h) then r.hobbies.value == before + [h]
            else r.hobbies.value == before
    ensures r.(hobbies := profile.hobbies) == profile
  {
    var before := profile.hobbies.GetOr([]);
    var h := Trim(hobby);
    if h != [] && !HasMatch(before, h) then profile.(hobbies := Some(before + [h]))
    else profile.(hobbies := Some(before))
  }

  /** The hobbies that do not match `h` ignoring case, in order. */
  function WithoutMatches(hobbies: seq<string>, h: string): (r: seq<string>)
    ensures !HasMatch(r, h)
    ensures forall x :: x in r <==> x in hobbies && !SameIgnoringCase(x, h)
    ensures !HasMatch(hobbies, h) ==> r == hobbies
  {
    if |hobbies| == 0 then []
    else
      var rest := WithoutMatches(hobbies[1..], h);
      NoMatchInTail(hobbies, h);
      assert hobbies == [hobbies[0]] + hobbies[1..];
      if SameIgnoringCase(hobbies[0], h) then rest
      else
        var r := [hobbies[0]] + rest;
        forall i | 0 <= i < |r| ensures !SameIgnoringCase(r[i], h) {
          if i > 0 { assert r[i] == rest[i - 1]; }
        }
        r
  }

  /** Every matching hobby goes; every other hobby keeps its multiplicity. */
  lemma {:induction false} WithoutMatchesCounts(hobbies: seq<string>, h: string)
    ensures forall x :: multiset(WithoutMatches(hobbies, h))[x]
                        == if SameIgnoringCase(x, h) then 0 else multiset(hobbies)[x]
  {
    if |hobbies| > 0 {
      WithoutMatchesCounts(hobbies[1..], h);
      assert multiset(hobbies) == multiset{hobbies[0]} + multiset(hobbies[1..]) by {
        assert hobbies == [hobbies[0]] + hobbies[1..];
      }
    }
  }

  /** Filtering distributes over concatenation, so the kept hobbies stay in their order. */
  lemma {:induction false} WithoutMatchesAppend(a: seq<string>, b: seq<string>, h: string)
    ensures WithoutMatches(a + b, h) == WithoutMatches(a, h) + WithoutMatches(b, h)
  {
    if |a| == 0 {
      assert a + b == b;
    } else {
      var ab := a + b;
      assert ab[0] == a[0] && ab[1..] == a[1..] + b;
      WithoutMatchesAppend(a[1..], b, h);
      WithoutMatchesStep(ab, h);
      WithoutMatchesStep(a, h);
      ConsAppend(if SameIgnoringCase(a[0], h) then [] else [a[0]],
                 WithoutMatches(a[1..], h), WithoutMatches(b, h),
                 WithoutMatches(ab, h), WithoutMatches(a, h));
    }
  }

  lemma ConsAppend(head: seq<string>, x: seq<string>, y: seq<string>, whole: seq<string>, left: seq<string>)
    requires whole == head + (x + y) && left == head + x
    ensures whole == left + y
  {
  }

  lemma WithoutMatchesStep(s: seq<string>, h: string)
    requires |s| > 0
    ensures WithoutMatches(s, h) == (if SameIgnoringCase(s[0], h) then [] else [s[0]]) + WithoutMatches(s[1..], h)
  {
  }

  /** A single hobby is kept exactly when it does not match. */
  lemma WithoutMatchesSingle(x: string, h: string)
    ensures WithoutMatches([x], h) == if SameIgnoringCase(x, h) then [] else [x]
  {
    assert [x][1..] == [];
  }

  lemma NoMatchInTail(hs: seq<string>, h: string)
    requires |hs| > 0
    ensures !HasMatch(hs, h) ==> !HasMatch(hs[1..], h)
  {
    if !HasMatch(hs, h) {
      forall i | 0 <= i < |hs| - 1 ensures !SameIgnoringCase(hs[1..][i], h) {
        assert hs[1..][i] == hs[i + 1];
      }
    }
  }

  /**
    `removeHobby`: drops every hobby matching the input ignoring case (the
    input is not trimmed); an emptied list becomes missing. Only the hobbies
    change.
  */
  function RemoveHobby(profile: UserProfile, hobby: string): (r: UserProfile)
    ensures profile.hobbies.None? ==> r.hobbies.None?
    ensures r.hobbies.Some? ==> |r.hobbies.value| > 0 && !HasMatch(r.hobbies.value, hobby)
    ensures profile.hobbies.Some? ==>
              forall x :: (r.hobbies.Some? && x in r.hobbies.value)
                          <==> x in profile.hobbies.value && !SameIgnoringCase(x, hobby)
    ensures profile.hobbies.Some? ==>
              forall x :: multiset(r.hobbies.GetOr([]))[x]
                          == if SameIgnoringCase(x, hobby) then 0 else multiset(profile.hobbies.value)[x]
    ensures profile.hobbies.Some? ==> r.hobbies.GetOr([]) == WithoutMatches(profile.hobbies.value, hobby)
    ensures r.(hobbies := profile.hobbies) == profile
  {
    match profile.hobbies
    case None => profile
    case Some(hs) =>
      WithoutMatchesCounts(hs, hobby);
      var kept := WithoutMatches(hs, hobby);
      if kept == [] then profile.(hobbies := None) else profile.(hobbies := Some(kept))
  }

  /** Adding keeps the hobby list free of case-insensitive duplicates. */
  lemma AddHobbyKeepsDistinct(profile: UserProfile, hobby: string)
    requires DistinctIgnoringCase(profile.hobbies.GetOr([]))
    ensures DistinctIgnoringCase(AddHobby(profile, hobby).hobbies.value)
  {
    var before := profile.hobbies.GetOr([]);
    var h := Trim(hobby);
    if h != [] && !HasMatch(before, h) {
      var after := before + [h];
      forall i, j | 0 <= i < j < |after| ensures !SameIgnoringCase(after[i], after[j]) {
        if j == |before| {
          assert after[i] == before[i];
        }
      }
    }
  }

  /**
    Removing a trimmed hobby right after adding it to a list that did not
    contain it restores the list, except that an emptied list is missing.
  */
  lemma AddThenRemoveHobby(profile: UserProfile, hobby: string)
    requires hobby != [] && IsTrimmed(hobby)
    requires !HasMatch(profile.hobbies.GetOr([]), hobby)
    ensures var r := RemoveHobby(AddHobby(profile, hobby), hobby);
            r.hobbies == (if profile.hobbies.GetOr([]) == [] then None else profile.hobbies)
  {
    var before := profile.hobbies.GetOr([]);
    AddHobbyAppends(profile, hobby);
    WithoutMatchesAppendMatch(before, hobby);
    RemoveHobbyKeeps(AddHobby(profile, hobby), hobby, before);
  }

  lemma AddHobbyAppends(profile: UserProfile, hobby: string)
    requires hobby != [] && IsTrimmed(hobby)
    requires !HasMatch(profile.hobbies.GetOr([]), hobby)
    ensures AddHobby(profile, hobby).hobbies == Some(profile.hobbies.GetOr([]) + [hobby])
  {
    TrimOfTrimmed(hobby);
  }

  lemma RemoveHobbyKeeps(profile: UserProfile, hobby: string, kept: seq<string>)
    requires profile.hobbies.Some? && WithoutMatches(profile.hobbies.value, hobby) == kept
    ensures RemoveHobby(profile, hobby).hobbies == if kept == [] then None else Some(kept)
  {
  }

  lemma {:induction false} WithoutMatchesAppendMatch(hs: seq<string>, h: string)
    requires !HasMatch(hs, h)
    ensures WithoutMatches(hs + [h], h) == hs
  {
    if |hs| == 0 {
      assert [h][1..] == [];
    } else {
      assert (hs + [h])[1..] == hs[1..] + [h];
      NoMatchInTail(hs, h);
      assert !SameIgnoringCase(hs[0], h);
      WithoutMatchesAppendMatch(hs[1..], h);
      assert hs == [hs[0]] + hs[1..];
    }
  }

  /** Padding with whitespace is trimmed on add but not on remove, so removing the padded text misses the added hobby. */
  lemma PaddedRemoveMissesAddedHobby(id: Uuid)
    ensures AddHobby(Empty(id), " Chess").hobbies == Some(["Chess"])
    ensures RemoveHobby(AddHobby(Empty(id), " Chess"), " Chess").hobbies == Some(["Chess"])
  {
    AddPaddedChess(id);
    RemovePaddedChess(AddHobby(Empty(id), " Chess"));
  }

  lemma AddPaddedChess(id: Uuid)
    ensures AddHobby(Empty(id), " Chess").hobbies == Some(["Chess"])
  {
    TrimPaddedChess();
    AddHobbyToNone(Empty(id), " Chess");
  }

  lemma AddHobbyToNone(profile: UserProfile, hobby: string)
    requires profile.hobbies.None? && Trim(hobby) != ""
    ensures AddHobby(profile, hobby).hobbies == Some([Trim(hobby)])
  {
    var h := Trim(hobby);
    var before := profile.hobbies.GetOr([]);
    assert before == [];
    assert !HasMatch(before, h);
    assert before + [h] == [h];
  }

  lemma RemovePaddedChess(p: UserProfile)
    requires p.hobbies == Some(["Chess"])
    ensures RemoveHobby(p, " Chess").hobbies == Some(["Chess"])
  {
    assert !SameIgnoringCase("Chess", " Chess") by {
      assert FoldString("Chess")[0] != FoldString(" Chess")[0];
    }
    assert !HasMatch(["Chess"], " Chess");
  }

  lemma TrimPaddedChess()
    ensures Trim(" Chess") == "Chess"
  {
    var padded := " Chess";
    assert IsWhitespace(padded[0]);
    assert padded[1..] == "Chess";
    assert !IsWhitespace('C') && !IsWhitespace('s');
    assert TrimStart("Chess") == "Chess";
    assert TrimStart(padded) == "Chess";
    assert TrimEnd("Chess") == "Chess";
  }
}
