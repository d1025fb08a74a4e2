/**
  The logic of the onboarding quiet-hours step
  (Novelty/Views/OnboardingView/QuietHoursStepView.swift): the days label of
  a row, its icon, the list height and swipe-to-delete.
*/
module QuietHoursStep {
  import opened Clock
  import opened QuietPeriods
  import QuietHours

  // ---------------------------------------------------------------------------
  // Days label
  // ---------------------------------------------------------------------------

  /** `shortWeekdaySymbols` of a Gregorian calendar in English, Sunday first. */
  const ShortWeekdaySymbols: seq<string> := ["Sun", "Mon", "Tue", "Wed", "Thu", "Fri", "Sat"]

  predicate StrictlyIncreasing(s: seq<int>) {
    forall i, j :: 0 <= i < j < |s| ==> s[i] < s[j]
  }

  /** The members of `days` in `k..7`, ascending. */
  function DaysFrom(days: set<int>, k: int): (r: seq<int>)
    requires 1 <= k <= 8
    ensures StrictlyIncreasing(r)
    ensures forall i :: 0 <= i < |r| ==> k <= r[i] <= 7 && r[i] in days
    ensures forall d :: d in days && k <= d <= 7 ==> d in r
    decreases 8 - k
  {
    if k == 8 then []
    else if k in days then [k] + DaysFrom(days, k + 1)
    else DaysFrom(days, k + 1)
  }

  /** `days.sorted()` for a set of weekday numbers. */
  function SortedDays(days: set<int>): (r: seq<int>)
    requires forall d :: d in days ==> Sunday <= d <= Saturday
    ensures StrictlyIncreasing(r)
    ensures forall x :: x in r <==> x in days
  {
    DaysFrom(days, 1)
  }

  /** An ascending list without repeats is determined by its elements. */
  lemma {:induction false} SortedListIsUnique(a: seq<int>, b: seq<int>)
    requires StrictlyIncreasing(a) && StrictlyIncreasing(b)
    requires forall x :: x in a <==> x in b
    ensures a == b
    decreases |a|
  {
    assert |a| > 0 ==> a[0] in a && a[0] in b;
    assert |b| > 0 ==> b[0] in b && b[0] in a;
    if |a| > 0 && |b| > 0 {
      var j :| 0 <= j < |b| && b[j] == a[0];
      var i :| 0 <= i < |a| && a[i] == b[0];
      assert b[0] <= a[0] && a[0] <= b[0];
      forall x ensures x in a[1..] <==> x in b[1..] {
        assert x in a[1..] <==> x in a && x != a[0];
        assert x in b[1..] <==> x in b && x != b[0];
      }
      SortedListIsUnique(a[1..], b[1..]);
    }
  }

  /** `parts.joined(separator: sep)`. */
  function JoinWith(sep: string, parts: seq<string>): string {
    if |parts| == 0 then ""
    else if |parts| == 1 then parts[0]
    else parts[0] + sep + JoinWith(sep, parts[1..])
  }

  /** The symbol of each day, `symbols[day - 1]`. */
  function Symbols(days: seq<int>): (r: seq<string>)
    requires forall i :: 0 <= i < |days| ==> Sunday <= days[i] <= Saturday
    ensures |r| == |days|
    ensures forall i :: 0 <= i < |days| ==> r[i] == ShortWeekdaySymbols[days[i] - 1]
  {
    seq(|days|, i requires 0 <= i < |days| => ShortWeekdaySymbols[days[i] - 1])
  }

  const WeekendDays: set<int> := {Sunday, Saturday}
  const WorkDays: set<int> := {2, 3, 4, 5, 6}

  /** The short names of the given days, comma-separated. */
  function ListDays(days: seq<int>): string
    requires forall i :: 0 <= i < |days| ==> Sunday <= days[i] <= Saturday
  {
    JoinWith(", ", Symbols(days))
  }

  /** The four day sets `daysDisplay` names instead of listing. */
  predicate NamedDaySet(days: set<int>) {
    days == {} || |days| == 7 || days == WeekendDays || days == WorkDays
  }

  /**
    `daysDisplay`: "Not set" for no days, "Every Day" for any seven days,
    "Weekends" and "Weekdays" for those exact sets, otherwise the short names
    of the sorted days. Outside those first cases each day must be a weekday
    number, or the symbol lookup traps.
  */
  function DaysDisplay(days: set<int>): (r: string)
    requires days == {} || |days| == 7 || forall d :: d in days ==> Sunday <= d <= Saturday
    ensures days == {} ==> r == "Not set"
    ensures |days| == 7 ==> r == "Every Day"
    ensures days == WeekendDays ==> r == "Weekends"
    ensures days == WorkDays ==> r == "Weekdays"
    ensures !NamedDaySet(days) ==> r == ListDays(SortedDays(days))
  {
    if days == {} then "Not set"
    else if |days| == 7 then "Every Day"
    else if days == WeekendDays then "Weekends"
    else if days == WorkDays then "Weekdays"
    else ListDays(SortedDays(days))
  }

  /**
    Outside the named sets the label lists the days in ascending order: any
    ascending listing of the same days gives the same label.
  */
  lemma DaysDisplayListsAscending(days: set<int>, s: seq<int>)
    requires forall d :: d in days ==> Sunday <= d <= Saturday
    requires !NamedDaySet(days)
    requires StrictlyIncreasing(s) && forall x :: x in s <==> x in days
    ensures forall i :: 0 <= i < |s| ==> Sunday <= s[i] <= Saturday
    ensures DaysDisplay(days) == ListDays(s)
  {
    SortedListIsUnique(s, SortedDays(days));
  }

  /** Two scattered days are listed by name, in day order whatever the set's order. */
  lemma DaysDisplayListsDaysInOrder()
    ensures DaysDisplay({6, 2}) == "Mon, Fri"
  {
    MondayFridayIsNotNamed();
    MondayFridayListed();
    DaysDisplayListsAscending({6, 2}, [2, 6]);
  }

  lemma MondayFridayListed()
    ensures ListDays([2, 6]) == "Mon, Fri"
  {
    assert Symbols([2, 6]) == ["Mon", "Fri"];
  }

  lemma MondayFridayIsNotNamed()
    ensures !NamedDaySet({6, 2})
  {
    var days: set<int> := {6, 2};
    assert |days| == 2;
    assert days != WorkDays by { assert 3 !in days; }
    assert days != WeekendDays by { assert 1 !in days; }
  }

  lemma DaysDisplayNamedSets()
    ensures DaysDisplay({7, 1}) == "Weekends"
    ensures DaysDisplay({}) == "Not set"
  {
    assert {7, 1} == WeekendDays;
    assert |WeekendDays| == 2;
  }

  lemma DaysDisplayEveryDay()
    ensures DaysDisplay({1, 2, 3, 4, 5, 6, 7}) == "Every Day"
  {
    assert |{1, 2, 3, 4, 5, 6, 7}| == 7;
  }

  // ---------------------------------------------------------------------------
  // Rows and list
  // ---------------------------------------------------------------------------

  datatype IconColor = Blue | Gray

  /** The row's trailing icon: struck-through bell in blue when enabled, plain gray bell otherwise. */
  function RowIcon(p: QuietPeriod): (r: (string, IconColor))
    ensures r.0 == "bell.slash.fill" <==> p.isEnabled
    ensures r.1 == Blue <==> p.isEnabled
    ensures r.0 == "bell.slash.fill" || r.0 == "bell.fill"
  {
    if p.isEnabled then ("bell.slash.fill", Blue) else ("bell.fill", Gray)
  }

  /** A row shown with the gray bell never blocks a notification. */
  lemma GrayRowNeverBlocks(p: QuietPeriod, now: Instant)
    requires RowIcon(p).1 == Gray
    ensures !QuietHours.ActivelyBlocks(p, now)
  {
  }

  /** The list's height: 70 per row plus 40, capped at 300. */
  function ListHeight(count: nat): (h: int)
    ensures 40 <= h <= 300
    ensures count <= 3 ==> h == count * 70 + 40
    ensures count >= 4 ==> h == 300
  {
    if count * 70 + 40 < 300 then count * 70 + 40 else 300
  }

  lemma ListHeightMonotone(a: nat, b: nat)
    requires a <= b
    ensures ListHeight(a) <= ListHeight(b)
  {
  }

  // ---------------------------------------------------------------------------
  // Swipe to delete
  // ---------------------------------------------------------------------------

  /** The offsets in `lo..hi`. */
  function Below(offsets: set<int>, lo: int, hi: int): set<int> {
    set o | o in offsets && lo <= o < hi
  }

  lemma BelowStep(offsets: set<int>, i: int, hi: int)
    requires i < hi
    ensures i in offsets ==> Below(offsets, i, hi) == Below(offsets, i + 1, hi) + {i}
    ensures i in offsets ==> i !in Below(offsets, i + 1, hi)
    ensures i !in offsets ==> Below(offsets, i, hi) == Below(offsets, i + 1, hi)
  {
  }

  /** The elements of `s[i..]` whose position is not in `offsets`, in order. */
  function KeepFrom<T>(s: seq<T>, offsets: set<int>, i: nat): seq<T>
    requires i <= |s|
    decreases |s| - i
  {
    if i == |s| then []
    else
      var rest := KeepFrom(s, offsets, i + 1);
      if i in offsets then rest else [s[i]] + rest
  }

  /** What `KeepFrom` keeps: one element per position not in `offsets`, and nothing else. */
  lemma {:induction false} KeepFromKeeps<T>(s: seq<T>, offsets: set<int>, i: nat)
    requires i <= |s|
    ensures |KeepFrom(s, offsets, i)| + |Below(offsets, i, |s|)| == |s| - i
    ensures forall j :: i <= j < |s| && j !in offsets ==> s[j] in KeepFrom(s, offsets, i)
    ensures forall x :: x in KeepFrom(s, offsets, i) ==> exists j :: i <= j < |s| && j !in offsets && s[j] == x
    decreases |s| - i
  {
    if i < |s| {
      BelowStep(offsets, i, |s|);
      KeepFromKeeps(s, offsets, i + 1);
    }
  }

  /**
    Where a kept element lands: the element at position `j` moves up by the
    number of deleted offsets before it.
  */
  lemma {:induction false} KeepFromPosition<T>(s: seq<T>, offsets: set<int>, i: nat, j: int)
    requires i <= j < |s| && j !in offsets
    ensures j - i - |Below(offsets, i, j)| >= 0
    ensures j - i - |Below(offsets, i, j)| < |KeepFrom(s, offsets, i)|
    ensures KeepFrom(s, offsets, i)[j - i - |Below(offsets, i, j)|] == s[j]
    decreases j - i
  {
    if i == j {
      assert Below(offsets, i, j) == {};
    } else {
      BelowStep(offsets, i, j);
      KeepFromPosition(s, offsets, i + 1, j);
    }
  }

  /** Every kept element, at its landing position. */
  lemma KeepFromPositions<T>(s: seq<T>, offsets: set<int>)
    ensures forall j :: 0 <= j < |s| && j !in offsets ==>
              0 <= j - |Below(offsets, 0, j)| < |KeepFrom(s, offsets, 0)|
              && KeepFrom(s, offsets, 0)[j - |Below(offsets, 0, j)|] == s[j]
  {
    forall j | 0 <= j < |s| && j !in offsets
      ensures 0 <= j - |Below(offsets, 0, j)| < |KeepFrom(s, offsets, 0)|
      ensures KeepFrom(s, offsets, 0)[j - |Below(offsets, 0, j)|] == s[j]
    {
      KeepFromPosition(s, offsets, 0, j);
    }
  }

  /**
    `remove(atOffsets:)` on the list being built: the periods at the given
    offsets go, the rest keep their order. Every offset must be a position
    of the list.
  */
  function DeleteOffsets<T>(s: seq<T>, offsets: set<int>): (r: seq<T>)
    requires forall o :: o in offsets ==> 0 <= o < |s|
    ensures |r| == |s| - |offsets|
    ensures forall j :: 0 <= j < |s| && j !in offsets ==> s[j] in r
    ensures forall x :: x in r ==> exists j :: 0 <= j < |s| && j !in offsets && s[j] == x
    ensures forall j :: 0 <= j < |s| && j !in offsets ==>
              0 <= j - |Below(offsets, 0, j)| < |r| && r[j - |Below(offsets, 0, j)|] == s[j]
  {
    assert Below(offsets, 0, |s|) == offsets;
    KeepFromKeeps(s, offsets, 0);
    KeepFromPositions(s, offsets);
    KeepFrom(s, offsets, 0)
  }

  lemma {:induction false} KeepFromPastOffset<T>(s: seq<T>, k: int, i: nat)
    requires k < i <= |s|
    ensures KeepFrom(s, {k}, i) == s[i..]
    decreases |s| - i
  {
    if i < |s| {
      KeepFromPastOffset(s, k, i + 1);
      assert i !in {k};
      assert s[i..] == [s[i]] + s[i + 1..];
    }
  }

  lemma {:induction false} KeepFromSingle<T>(s: seq<T>, k: nat, i: nat)
    requires i <= k < |s|
    ensures KeepFrom(s, {k}, i) == s[i..k] + s[k + 1..]
    decreases k - i
  {
    if i == k {
      KeepFromAtOffset(s, k);
    } else {
      KeepFromSingle(s, k, i + 1);
      KeepFromBeforeOffset(s, k, i);
    }
  }

  lemma KeepFromAtOffset<T>(s: seq<T>, k: nat)
    requires k < |s|
    ensures KeepFrom(s, {k}, k) == s[k..k] + s[k + 1..]
  {
    assert k in {k};
    KeepFromPastOffset(s, k, k + 1);
  }

  lemma KeepFromBeforeOffset<T>(s: seq<T>, k: nat, i: nat)
    requires i < k < |s|
    requires KeepFrom(s, {k}, i + 1) == s[i + 1..k] + s[k + 1..]
    ensures KeepFrom(s, {k}, i) == s[i..k] + s[k + 1..]
  {
    assert i !in {k};
    calc {
      KeepFrom(s, {k}, i);
      [s[i]] + KeepFrom(s, {k}, i + 1);
      [s[i]] + (s[i + 1..k] + s[k + 1..]);
      ([s[i]] + s[i + 1..k]) + s[k + 1..];
      { assert [s[i]] + s[i + 1..k] == s[i..k]; }
      s[i..k] + s[k + 1..];
    }
  }

  /** Deleting one offset is removing the element at that position. */
  lemma DeleteOneOffset<T>(s: seq<T>, k: nat)
    requires k < |s|
    ensures DeleteOffsets(s, {k}) == s[..k] + s[k + 1..]
  {
    KeepFromSingle(s, k, 0);
  }

  lemma {:induction false} KeepFromNothing<T>(s: seq<T>, i: nat)
    requires i <= |s|
    ensures KeepFrom(s, {}, i) == s[i..]
    decreases |s| - i
  {
    if i < |s| {
      KeepFromNothing(s, i + 1);
      assert s[i..] == [s[i]] + s[i + 1..];
    }
  }

  /** Deleting no offsets leaves the list as it was. */
  lemma DeleteNoOffsets<T>(s: seq<T>)
    ensures DeleteOffsets(s, {}) == s
  {
    KeepFromNothing(s, 0);
  }
}
