/**
  The onboarding wizard's step machine and the parsing done when it saves
  the profile (Novelty/Views/OnboardingView/OnboardingView.swift).
*/
module Onboarding {
  import opened Wrappers
  import opened Text
  import opened QuietPeriods
  import opened Profiles

  // ---------------------------------------------------------------------------
  // Steps
  // ---------------------------------------------------------------------------

  datatype OnboardingStep =
    | Welcome | HowItWorks | AboutYou | Hobbies | QuietHoursSetup | NotificationsPermission | Completion

  /** `OnboardingStep.allCases`, in declaration order. */
  const AllSteps: seq<OnboardingStep> :=
    [Welcome, HowItWorks, AboutYou, Hobbies, QuietHoursSetup, NotificationsPermission, Completion]

  /** `rawValue`: the position in `allCases`. */
  function RawValue(s: OnboardingStep): (n: nat)
    ensures n < |AllSteps| && AllSteps[n] == s
  {
    match s
    case Welcome => 0
    case HowItWorks => 1
    case AboutYou => 2
    case Hobbies => 3
    case QuietHoursSetup => 4
    case NotificationsPermission => 5
    case Completion => 6
  }

  /** `OnboardingStep(rawValue:)`: defined exactly for 0..6. */
  function StepFromRawValue(n: int): (r: Option<OnboardingStep>)
    ensures r.Some? <==> 0 <= n < |AllSteps|
    ensures r.Some? ==> RawValue(r.value) == n
  {
    if 0 <= n < |AllSteps| then Some(AllSteps[n]) else None
  }

  lemma RawValueRoundTrip(s: OnboardingStep)
    ensures StepFromRawValue(RawValue(s)) == Some(s)
  {
  }

  /** Completion is the last step and the only one at raw value 6. */
  lemma CompletionIsLast(s: OnboardingStep)
    ensures RawValue(s) == |AllSteps| - 1 <==> s == Completion
  {
  }

  /** The progress bar: `rawValue + 1` out of `allCases.count`. */
  function Progress(s: OnboardingStep): (r: (int, int))
    ensures r.1 == 7 && 1 <= r.0 <= r.1
    ensures r.0 == r.1 <==> s == Completion
  {
    (RawValue(s) + 1, |AllSteps|)
  }

  /** The step `Next` moves to from a step before completion. */
  function NextStep(s: OnboardingStep): (r: OnboardingStep)
    requires s != Completion
    ensures RawValue(r) == RawValue(s) + 1
  {
    StepFromRawValue(RawValue(s) + 1).value
  }

  /** The bar starts at one of seven and each Next fills one more part. */
  lemma ProgressAdvancesWithNext(s: OnboardingStep)
    ensures Progress(Welcome) == (1, 7)
    ensures s != Completion ==> Progress(NextStep(s)).0 == Progress(s).0 + 1
  {
  }

  /** The Back button is shown only after the first step and not on completion. */
  predicate BackVisible(s: OnboardingStep) {
    RawValue(s) > 0 && s != Completion
  }

  /** The Back action: one step back when past the first step. */
  function BackStep(s: OnboardingStep): (r: OnboardingStep)
    ensures RawValue(s) > 0 ==> RawValue(r) == RawValue(s) - 1
    ensures RawValue(s) == 0 ==> r == s
  {
    if RawValue(s) > 0 then StepFromRawValue(RawValue(s) - 1).value else s
  }

  /** Going forward then back returns to the same step, wherever Back is then offered. */
  lemma BackUndoesNext(s: OnboardingStep)
    requires s != Completion && BackVisible(NextStep(s))
    ensures BackStep(NextStep(s)) == s
  {
    RawValueRoundTrip(s);
  }

  /** Going back then forward returns to the same step. */
  lemma NextUndoesBack(s: OnboardingStep)
    requires BackVisible(s)
    ensures BackStep(s) != Completion && NextStep(BackStep(s)) == s
  {
    RawValueRoundTrip(s);
  }

  // ---------------------------------------------------------------------------
  // Parsing the collected inputs
  // ---------------------------------------------------------------------------

  /**
    The age written back: a parsed positive integer is stored, empty input
    clears the age, and any other input leaves the previous age in place.
  */
  function SavedAge(previous: Option<int>, ageInput: string): (r: Option<int>)
    ensures ParseInt(ageInput).Some? && ParseInt(ageInput).value > 0 ==> r == ParseInt(ageInput)
    ensures ageInput == "" ==> r == None
    ensures ageInput != "" && !(ParseInt(ageInput).Some? && ParseInt(ageInput).value > 0) ==> r == previous
    ensures r.Some? && r != previous ==> r.value > 0
  {
    match ParseInt(ageInput)
    case Some(age) => if age > 0 then Some(age) else if ageInput == "" then None else previous
    case None => if ageInput == "" then None else previous
  }

  /** Typing any positive number stores exactly that number. */
  lemma SavedAgeOfTypedNumber(previous: Option<int>, n: nat)
    requires 0 < n <= IntMax
    ensures SavedAge(previous, ShowNat(n)) == Some(n)
  {
    ParseShowNat(n);
  }

  /** "0" and "abc" are rejected and leave the previous age unchanged. */
  lemma SavedAgeRejects(previous: Option<int>)
    ensures SavedAge(previous, "0") == previous
    ensures SavedAge(previous, "abc") == previous
  {
    assert !IsDigit('a');
    assert DigitsValue("0") == 0 by { assert "0"[..0] == ""; }
  }

  /**
    The profession written back: missing exactly when the raw input is
    empty, otherwise the trimmed input (so all-whitespace input becomes "").
  */
  function SavedProfession(professionInput: string): (r: Option<string>)
    ensures r.None? <==> professionInput == ""
    ensures r.Some? ==> IsTrimmed(r.value) && (exists a :: IsTrimSlice(professionInput, r.value, a))
  {
    if professionInput == "" then None else Some(Trim(professionInput))
  }

  lemma WhitespaceProfessionIsEmptyString()
    ensures SavedProfession(" ") == Some("")
  {
    TrimEmptyIffAllWhitespace(" ");
  }

  /** Each piece trimmed. */
  function TrimAll(pieces: seq<string>): (r: seq<string>)
    ensures |r| == |pieces|
    ensures forall i :: 0 <= i < |r| ==> r[i] == Trim(pieces[i])
  {
    seq(|pieces|, i requires 0 <= i < |pieces| => Trim(pieces[i]))
  }

  /** The non-empty pieces, in order. */
  function NonEmpty(pieces: seq<string>): (r: seq<string>)
    ensures forall i :: 0 <= i < |r| ==> r[i] != ""
    ensures forall x :: x in r <==> x in pieces && x != ""
    ensures (forall i :: 0 <= i < |pieces| ==> pieces[i] != "") ==> r == pieces
  {
    if |pieces| == 0 then []
    else if pieces[0] == "" then NonEmpty(pieces[1..])
    else [pieces[0]] + NonEmpty(pieces[1..])
  }

  /** `filter` keeps order and multiplicity: it works piece by piece over a concatenation. */
  lemma {:induction false} NonEmptyAppend(a: seq<string>, b: seq<string>)
    ensures NonEmpty(a + b) == NonEmpty(a) + NonEmpty(b)
    decreases |a|
  {
    if |a| > 0 {
      assert (a + b)[0] == a[0] && (a + b)[1..] == a[1..] + b;
      NonEmptyAppend(a[1..], b);
    } else {
      assert a + b == b;
    }
  }

  /** On one piece the filter keeps it exactly when it is not empty. */
  lemma NonEmptySingle(x: string)
    ensures NonEmpty([x]) == if x == "" then [] else [x]
  {
    assert [x][1..] == [];
  }

  /** Nothing survives the filter exactly when every piece is empty. */
  lemma NonEmptyIsEmptyIff(pieces: seq<string>)
    ensures NonEmpty(pieces) == [] <==> forall i :: 0 <= i < |pieces| ==> pieces[i] == ""
  {
    if NonEmpty(pieces) == [] {
      forall i | 0 <= i < |pieces| ensures pieces[i] == "" {
        assert pieces[i] in pieces;
      }
    } else {
      NonEmptyStaysEmpty(pieces);
    }
  }

  lemma NonEmptyStaysEmpty(pieces: seq<string>)
    requires NonEmpty(pieces) != []
    ensures exists i :: 0 <= i < |pieces| && pieces[i] != ""
  {
    var x := NonEmpty(pieces)[0];
    assert x in NonEmpty(pieces);
    assert x in pieces;
  }

  /** Hobbies well-formed for the comma-separated input: non-empty, trimmed, no commas. */
  predicate WellFormedHobby(h: string) {
    h != "" && IsTrimmed(h) && CommaFree(h)
  }

  /**
    The hobbies written back: split on ",", each piece trimmed, empty
    pieces dropped; missing when the input is empty or nothing remains.
  */
  function ParseHobbies(hobbiesInput: string): (r: Option<seq<string>>)
    ensures hobbiesInput == "" ==> r.None?
    ensures r.None? <==> hobbiesInput == "" || BlankPieces(Split(hobbiesInput))
    ensures r.Some? ==> |r.value| > 0 && forall i :: 0 <= i < |r.value| ==> WellFormedHobby(r.value[i])
    ensures r.Some? ==> r.value == NonEmpty(TrimAll(Split(hobbiesInput)))
  {
    if hobbiesInput == "" then None
    else
      var hobbies := NonEmpty(TrimAll(Split(hobbiesInput)));
      CleanedPiecesWellFormed(Split(hobbiesInput));
      NonEmptyIsEmptyIff(TrimAll(Split(hobbiesInput)));
      if hobbies == [] then None else Some(hobbies)
  }

  /** Every piece is whitespace only. */
  predicate BlankPieces(pieces: seq<string>) {
    forall k :: 0 <= k < |pieces| ==> Trim(pieces[k]) == ""
  }

  /** Trimming comma-free pieces and dropping empty ones leaves well-formed hobbies. */
  lemma CleanedPiecesWellFormed(pieces: seq<string>)
    requires forall k :: 0 <= k < |pieces| ==> CommaFree(pieces[k])
    ensures forall i :: 0 <= i < |NonEmpty(TrimAll(pieces))| ==> WellFormedHobby(NonEmpty(TrimAll(pieces))[i])
  {
    var trimmed := TrimAll(pieces);
    var hobbies := NonEmpty(trimmed);
    forall i | 0 <= i < |hobbies| ensures WellFormedHobby(hobbies[i]) {
      assert hobbies[i] in trimmed;
      var j :| 0 <= j < |trimmed| && trimmed[j] == hobbies[i];
      TrimKeepsCommaFree(pieces[j]);
    }
  }

  lemma TrimKeepsCommaFree(s: string)
    requires CommaFree(s)
    ensures CommaFree(Trim(s))
  {
    TrimSlice(s);
    SliceKeepsCommaFree(s, Trim(s), |s| - |TrimStart(s)|);
  }

  lemma SliceKeepsCommaFree(s: string, r: string, a: int)
    requires CommaFree(s)
    requires 0 <= a && a + |r| <= |s| && r == s[a..a + |r|]
    ensures CommaFree(r)
  {
    forall i | 0 <= i < |r| ensures r[i] != Comma {
      assert r[i] == s[a + i];
    }
  }

  /** Joining well-formed hobbies with commas and parsing the result gives them back. */
  lemma ParseHobbiesRoundTrip(hobbies: seq<string>)
    requires |hobbies| > 0
    requires forall i :: 0 <= i < |hobbies| ==> WellFormedHobby(hobbies[i])
    ensures ParseHobbies(JoinWithCommas(hobbies)) == Some(hobbies)
  {
    var input := JoinWithCommas(hobbies);
    assert Split(input) == hobbies by {
      SplitJoinRoundTrip(hobbies);
    }
    assert TrimAll(hobbies) == hobbies by {
      TrimAllOfTrimmed(hobbies);
    }
    assert NonEmpty(hobbies) == hobbies;
    assert input != "" by {
      JoinStartsWithFirst(hobbies);
    }
  }

  /**
    Pieces with any whitespace padding, joined by commas, parse to the
    trimmed pieces in their order, repeats included.
  */
  lemma ParseHobbiesPaddedRoundTrip(pieces: seq<string>, hobbies: seq<string>)
    requires |pieces| == |hobbies| > 0
    requires forall k :: 0 <= k < |pieces| ==>
               CommaFree(pieces[k]) && Trim(pieces[k]) == hobbies[k] && WellFormedHobby(hobbies[k])
    ensures ParseHobbies(JoinWithCommas(pieces)) == Some(hobbies)
  {
    forall k | 0 <= k < |pieces| ensures |pieces[k]| > 0 {
      TrimSlice(pieces[k]);
    }
    var input := JoinWithCommas(pieces);
    assert Split(input) == pieces by {
      SplitJoinRoundTrip(pieces);
    }
    assert TrimAll(pieces) == hobbies;
    assert NonEmpty(hobbies) == hobbies;
    assert input != "" by {
      JoinStartsWithFirst(pieces);
    }
  }

  lemma TrimAllOfTrimmed(pieces: seq<string>)
    requires forall i :: 0 <= i < |pieces| ==> IsTrimmed(pieces[i])
    ensures TrimAll(pieces) == pieces
  {
    forall i | 0 <= i < |pieces| ensures TrimAll(pieces)[i] == pieces[i] {
      TrimOfTrimmed(pieces[i]);
    }
  }

  lemma JoinStartsWithFirst(pieces: seq<string>)
    requires |pieces| > 0 && pieces[0] != ""
    ensures |JoinWithCommas(pieces)| >= |pieces[0]| > 0
  {
  }

  /** Input made of commas and whitespace only stores no hobbies. */
  lemma BlankHobbiesAreMissing()
    ensures ParseHobbies(" , ") == None
  {
    SplitBlankHobbies();
    SpaceTrimsToEmpty();
    TwoSpacesGiveNone(" , ");
  }

  lemma TwoSpacesGiveNone(hobbiesInput: string)
    requires Split(hobbiesInput) == [" ", " "] && Trim(" ") == ""
    ensures ParseHobbies(hobbiesInput) == None
  {
    BlankPiecesGiveNone(hobbiesInput);
  }

  lemma SpaceTrimsToEmpty()
    ensures Trim(" ") == ""
  {
    assert IsWhitespace(' ');
    TrimEmptyIffAllWhitespace(" ");
  }

  /** Input whose every comma-separated piece is blank yields no hobbies. */
  lemma BlankPiecesGiveNone(hobbiesInput: string)
    requires forall p :: p in Split(hobbiesInput) ==> Trim(p) == ""
    ensures ParseHobbies(hobbiesInput) == None
  {
    var t := TrimAll(Split(hobbiesInput));
    forall i | 0 <= i < |t| ensures t[i] == "" {
      assert Split(hobbiesInput)[i] in Split(hobbiesInput);
    }
    NonEmptyOfBlanks(t);
  }

  lemma {:induction false} NonEmptyOfBlanks(pieces: seq<string>)
    requires forall i :: 0 <= i < |pieces| ==> pieces[i] == ""
    ensures NonEmpty(pieces) == []
  {
    if |pieces| > 0 {
      NonEmptyOfBlanks(pieces[1..]);
    }
  }

  lemma SplitBlankHobbies()
    ensures Split(" , ") == [" ", " "]
  {
    var s := " , ";
    assert RunLength(s) == 1 by {
      assert s[1..] == ", ";
    }
    assert s[..1] == " " && s[1..] == ", ";
    assert ", "[1..] == " ";
    assert RunLength(" ") == 1 by { assert " "[1..] == ""; }
    assert " "[..1] == " " && " "[1..] == "";
  }

  // ---------------------------------------------------------------------------
  // The wizard state
  // ---------------------------------------------------------------------------

  /** The view's `@State`: current step, raw text inputs and the periods built so far. */
  datatype OnboardingForm = OnboardingForm(
    step: OnboardingStep,
    ageInput: string,
    professionInput: string,
    hobbiesInput: string,
    tempQuietPeriods: seq<QuietPeriod>,
    showingAddSheet: bool)

  const InitialForm: OnboardingForm := OnboardingForm(Welcome, "", "", "", [], false)

  /**
    `saveProfileData`: age, profession and hobbies from the parsed inputs;
    the quiet periods replaced wholesale by the ones built in the wizard.
    Identity and the DND switch are untouched.
  */
  function SaveProfileData(profile: UserProfile, form: OnboardingForm): (p: UserProfile)
    ensures p.id == profile.id && p.dndGloballyEnabled == profile.dndGloballyEnabled
    ensures p.age == SavedAge(profile.age, form.ageInput)
    ensures p.profession == SavedProfession(form.professionInput)
    ensures p.hobbies == ParseHobbies(form.hobbiesInput)
    ensures p.quietPeriods == form.tempQuietPeriods
  {
    profile.(
      age := SavedAge(profile.age, form.ageInput),
      profession := SavedProfession(form.professionInput),
      hobbies := ParseHobbies(form.hobbiesInput),
      quietPeriods := form.tempQuietPeriods)
  }

  /** What pressing Next produces: the new form, the profile, and whether completion was signalled. */
  datatype NextResult = NextResult(form: OnboardingForm, profile: UserProfile, completed: bool)

  /**
    `handleNextButton`. On completion the profile is saved and completion is
    signalled, the step staying put. Before that the step advances by one
    and nothing else changes.
  */
  function HandleNextButton(form: OnboardingForm, profile: UserProfile): (r: NextResult)
    ensures form.step == Completion ==>
              r.completed && r.form == form && r.profile == SaveProfileData(profile, form)
    ensures form.step != Completion ==>
              && !r.completed && r.profile == profile
              && RawValue(r.form.step) == RawValue(form.step) + 1
              && r.form == form.(step := r.form.step)
  {
    if form.step == Completion then NextResult(form, SaveProfileData(profile, form), true)
    else NextResult(form.(step := NextStep(form.step)), profile, false)
  }

  /** The guard `rawValue < allCases.count - 1` holds on every step but completion, so Next never passes completion. */
  lemma NextGuardHoldsBeforeCompletion(s: OnboardingStep)
    requires s != Completion
    ensures RawValue(s) < |AllSteps| - 1
  {
  }

  /** The Back button's action; it exists only while `BackVisible`. */
  function HandleBackButton(form: OnboardingForm): (r: OnboardingForm)
    requires BackVisible(form.step)
    ensures RawValue(r.step) == RawValue(form.step) - 1
    ensures r == form.(step := r.step)
  {
    form.(step := BackStep(form.step))
  }

  /** The add-period sheet appends its new period at the end. */
  function AppendFromSheet(form: OnboardingForm, period: QuietPeriod): (r: OnboardingForm)
    ensures r.tempQuietPeriods == form.tempQuietPeriods + [period]
    ensures r.(tempQuietPeriods := form.tempQuietPeriods) == form
  {
    form.(tempQuietPeriods := form.tempQuietPeriods + [period])
  }

  /**
    A period added from the sheet is carried along by Next and, once the
    wizard completes, saved as the last of the profile's quiet periods.
  */
  lemma SheetPeriodIsSavedLast(form: OnboardingForm, period: QuietPeriod, profile: UserProfile)
    ensures form.step != Completion ==>
              HandleNextButton(AppendFromSheet(form, period), profile).form.tempQuietPeriods
              == form.tempQuietPeriods + [period]
    ensures form.step == Completion ==>
              HandleNextButton(AppendFromSheet(form, period), profile).profile.quietPeriods
              == form.tempQuietPeriods + [period]
  {
  }

  /** Six presses of Next from the start reach completion without signalling it. */
  lemma SixNextsReachCompletion(profile: UserProfile)
    ensures var r1 := HandleNextButton(InitialForm, profile);
            var r2 := HandleNextButton(r1.form, profile);
            var r3 := HandleNextButton(r2.form, profile);
            var r4 := HandleNextButton(r3.form, profile);
            var r5 := HandleNextButton(r4.form, profile);
            var r6 := HandleNextButton(r5.form, profile);
            r6.form.step == Completion && !r6.completed && r6.profile == profile
  {
  }
}
