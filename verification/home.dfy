/** The home screen: the writing streak and the persisted dark-mode flag.
    A diary's date key is taken as its day number (see `Calendar.MakeDay`);
    "today" is the day number of the current local date. */
module Home {
  import opened Records
  import opened Sorting

  // ---------------------------------------------------------------------------
  // Streak

  /** The walk of the streak loop over newest-first distinct days: each day
      must be the cursor day or the day before it, and becomes the new cursor. */
  function StreakFrom(dates: seq<int>, cursor: int): (n: nat)
    ensures n <= |dates|
  {
    if dates == [] then 0
    else
      var diff := cursor - dates[0];
      if diff == 0 || diff == 1 then 1 + StreakFrom(dates[1..], dates[0]) else 0
  }

  /** `calcStreak`, on the day numbers of the diaries' date keys. */
  function Streak(days: seq<int>, today: int): nat
  {
    if |days| == 0 then 0 else StreakFrom(DistinctDescending(days), today)
  }

  /** The loop of `calcStreak`: distinct days newest first, then a cursor
      walking back from today until a gap. */
  method CalcStreak(days: seq<int>, today: int) returns (streak: nat)
    ensures streak == Streak(days, today)
  {
    if |days| == 0 {
      return 0;
    }
    var dates := DistinctDescending(days);
    streak := 0;
    var cursor := today;
    for i := 0 to |dates|
      invariant streak == i
      invariant StreakFrom(dates, today) == i + StreakFrom(dates[i..], cursor)
    {
      var d := dates[i];
      var diff := cursor - d;
      StreakFromStep(dates[i..], cursor);
      if diff == 0 || diff == 1 {
        assert dates[i..][1..] == dates[i + 1..];
        streak := streak + 1;
        cursor := d;
      } else {
        break;
      }
    }
  }

  /** One step of the walk. */
  lemma {:induction false} StreakFromStep(dates: seq<int>, cursor: int)
    requires dates != []
    ensures StreakFrom(dates, cursor) ==
      if cursor - dates[0] == 0 || cursor - dates[0] == 1 then 1 + StreakFrom(dates[1..], dates[0]) else 0
  {
  }

  /** Below a cursor, the walk over a strictly descending list counts the days
      `c - 1, c - 2, ...` that follow one another at its head, and every later
      day lies below the end of that run. */
  lemma {:induction false} StreakFromRun(dates: seq<int>, c: int)
    requires StrictlyDescending(dates)
    requires forall i :: 0 <= i < |dates| ==> dates[i] < c
    ensures var m := StreakFrom(dates, c);
      (forall k :: 0 <= k < m ==> dates[k] == c - 1 - k)
      && (forall i :: m <= i < |dates| ==> dates[i] < c - 1 - m)
  {
    if dates != [] && dates[0] == c - 1 {
      StreakFromRun(dates[1..], c - 1);
      var m' := StreakFrom(dates[1..], c - 1);
      forall k | 1 <= k < m' + 1 ensures dates[k] == c - 1 - k {
        assert dates[k] == dates[1..][k - 1];
      }
      forall i | m' + 1 <= i < |dates| ensures dates[i] < c - 1 - (m' + 1) {
        assert dates[i] == dates[1..][i - 1];
      }
    }
  }

  /** The head of a strictly descending list is its largest element. */
  lemma {:induction false} HeadIsLargest(dates: seq<int>)
    requires StrictlyDescending(dates) && dates != []
    ensures forall x :: x in dates ==> x <= dates[0]
  {
    forall x | x in dates ensures x <= dates[0] {
      var j :| 0 <= j < |dates| && dates[j] == x;
    }
  }

  /** The run read off the walk: when the newest day is `c - 1`, the walk
      counts `n > 0` days, all of `c - n .. c - 1` are present and `c - 1 - n` is not. */
  lemma {:induction false} RunBelow(dates: seq<int>, c: int)
    requires StrictlyDescending(dates) && dates != [] && dates[0] == c - 1
    ensures var n := StreakFrom(dates, c);
      n > 0 && (forall x :: c - 1 - n < x <= c - 1 ==> x in dates) && c - 1 - n !in dates
  {
    forall i | 0 <= i < |dates| ensures dates[i] < c {
      assert i == 0 || dates[i] < dates[0];
    }
    StreakFromRun(dates, c);
    StreakFromStep(dates, c);
    var n := StreakFrom(dates, c);
    forall x | c - 1 - n < x <= c - 1 ensures x in dates {
      assert dates[c - 1 - x] == x;
    }
    forall i | 0 <= i < |dates| ensures dates[i] != c - 1 - n {
      if i < n {
        assert dates[i] == c - 1 - i;
      }
    }
  }

  /** The days `s - n + 1 .. s` all have a diary and the day `s - n` has none:
      a run of `n` consecutive days ending at `s`, which cannot be extended back. */
  ghost predicate RunEndingAt(days: seq<int>, s: int, n: nat)
  {
    (forall x :: s - n < x <= s ==> x in days) && s - n !in days
  }

  /** The walk from today over a strictly descending list of the days written. */
  lemma {:induction false} WalkFromToday(dates: seq<int>, days: seq<int>, today: int)
    requires StrictlyDescending(dates) && dates != []
    requires forall x :: x in dates <==> x in days
    ensures StreakFrom(dates, today) > 0 <==>
      (forall x :: x in days ==> x <= today) && (today in days || today - 1 in days)
    ensures var s := if today in days then today else today - 1;
      var n := StreakFrom(dates, today);
      n > 0 ==> RunEndingAt(days, s, n)
  {
    HeadIsLargest(dates);
    StreakFromStep(dates, today);
    assert dates[0] in days;
    if dates[0] == today {
      StreakFromStep(dates, today + 1);
      RunBelow(dates, today + 1);
    } else if dates[0] == today - 1 {
      assert today !in dates;
      RunBelow(dates, today);
    } else if dates[0] < today - 1 {
      assert today !in dates && today - 1 !in dates;
    }
  }

  /** The streak characterised on the set of days written: it is positive
      exactly when some diary exists, none is dated after today, and today or
      yesterday has one; it is then the length of the run of consecutive days
      ending at the latest of those two (today when it has a diary). A latest
      day after today or before yesterday therefore gives 0, as does no diary. */
  lemma {:induction false} StreakSpec(days: seq<int>, today: int)
    ensures Streak(days, today) > 0 <==>
      days != [] && (forall x :: x in days ==> x <= today) && (today in days || today - 1 in days)
    ensures var s := if today in days then today else today - 1;
      var n := Streak(days, today);
      n > 0 ==> RunEndingAt(days, s, n)
  {
    if days != [] {
      var dates := DistinctDescending(days);
      assert days[0] in dates;
      WalkFromToday(dates, days, today);
    }
  }

  /** Repeated dates collapse before counting: the streak never exceeds the
      number of distinct days written. */
  lemma {:induction false} StreakAtMostDistinctDays(days: seq<int>, today: int)
    ensures Streak(days, today) <= |set x | x in days|
  {
    if days != [] {
      var dates := DistinctDescending(days);
      DistinctSetSize(dates);
      SameElementsSameSet(dates, days);
    }
  }

  /** Two lists with the same elements have the same set of elements. */
  lemma {:induction false} SameElementsSameSet(a: seq<int>, b: seq<int>)
    requires forall x :: x in a <==> x in b
    ensures (set x | x in a) == (set x | x in b)
  {
    var sa, sb := set x | x in a, set x | x in b;
    forall x ensures x in sa <==> x in sb {
    }
  }

  /** The streak depends only on which days have a diary: the order of the
      response and repeated dates make no difference. */
  lemma {:induction false} StreakIgnoresOrderAndRepeats(a: seq<int>, b: seq<int>, today: int)
    requires forall x :: x in a <==> x in b
    ensures Streak(a, today) == Streak(b, today)
  {
    if a != [] {
      assert a[0] in a;
    }
    if b != [] {
      assert b[0] in b;
    }
    StrictlyDescendingUnique(DistinctDescending(a), DistinctDescending(b));
  }

  /** A run that cannot be extended back has only one length. */
  lemma {:induction false} RunLengthUnique(days: seq<int>, s: int, n: nat, m: nat)
    requires RunEndingAt(days, s, n) && RunEndingAt(days, s, m)
    ensures n == m
  {
  }

  /** Today and the two days before it, in any order and with repeats, give 3. */
  lemma {:induction false} StreakOfThreeDays(t: int)
    ensures Streak([t - 2, t, t - 1, t], t) == 3
  {
    var a := [t - 2, t, t - 1, t];
    assert t in a && t - 1 in a && t - 2 in a && t - 3 !in a;
    assert forall x :: x in a ==> x <= t;
    StreakSpec(a, t);
    assert Streak(a, t) > 0;
    assert RunEndingAt(a, t, 3) by {
      forall x | t - 3 < x <= t ensures x in a {
        assert x == t || x == t - 1 || x == t - 2;
      }
    }
    RunLengthUnique(a, t, Streak(a, t), 3);
  }

  /** Today with a gap before it gives 1. */
  lemma {:induction false} StreakAfterGap(t: int)
    ensures Streak([t, t - 2], t) == 1
  {
    var b := [t, t - 2];
    assert t in b && t - 1 !in b;
    assert forall x :: x in b ==> x <= t;
    StreakSpec(b, t);
    assert Streak(b, t) > 0;
    assert RunEndingAt(b, t, 1) by {
      forall x | t - 1 < x <= t ensures x in b {
        assert x == t;
      }
    }
    RunLengthUnique(b, t, Streak(b, t), 1);
  }

  /** Yesterday alone gives 1, and no diary gives 0. */
  lemma {:induction false} StreakFromYesterday(t: int)
    ensures Streak([t - 1], t) == 1
    ensures Streak([], t) == 0
  {
    var c := [t - 1];
    assert t - 1 in c && t !in c && t - 2 !in c;
    assert forall x :: x in c ==> x <= t;
    StreakSpec(c, t);
    assert Streak(c, t) > 0;
    assert RunEndingAt(c, t - 1, 1) by {
      forall x | t - 2 < x <= t - 1 ensures x in c {
        assert x == t - 1;
      }
    }
    RunLengthUnique(c, t - 1, Streak(c, t), 1);
  }

  // ---------------------------------------------------------------------------
  // Dark mode

  /** `String(next)` as stored under the `darkMode` key. */
  function EncodeDarkMode(on: bool): (s: string)
    ensures s == "true" || s == "false"
  {
    if on then "true" else "false"
  }

  /** `localStorage.getItem("darkMode") === "true"`: only the exact string
      `"true"` turns dark mode on; a missing entry or any other text leaves it off. The ensures
      spells out the definition; `DarkModeRoundTrip` ties it to `EncodeDarkMode`. */
  function DecodeDarkMode(saved: Option<string>): (on: bool)
    ensures on <==> saved == Some("true")
  {
    saved == Some("true")
  }

  /** The flag survives being written and read back. */
  lemma {:induction false} DarkModeRoundTrip(on: bool)
    ensures DecodeDarkMode(Some(EncodeDarkMode(on))) == on
  {
  }

  /** The home screen's state: the dark-mode flag, the stored setting and the shown streak. */
  class HomeScreen {
    var darkMode: bool
    var stored: Option<string>
    var streak: nat

    /** The flag agrees with what is stored once the screen has loaded. */
    ghost predicate Valid()
      reads this
    {
      darkMode == DecodeDarkMode(stored)
    }

    /** Mounting reads the stored setting; the streak starts at 0. */
    constructor (saved: Option<string>)
      ensures Valid()
      ensures stored == saved && darkMode == (saved == Some("true")) && streak == 0
    {
      stored := saved;
      darkMode := DecodeDarkMode(saved);
      streak := 0;
    }

    /** `toggleDark`: flips the flag and stores it as text. */
    method ToggleDark()
      requires Valid()
      modifies this
      ensures Valid()
      ensures darkMode == !old(darkMode)
      ensures stored == Some(EncodeDarkMode(darkMode))
      ensures streak == old(streak)
    {
      darkMode := !darkMode;
      stored := Some(EncodeDarkMode(darkMode));
      DarkModeRoundTrip(darkMode);
    }

    /** The diaries response: an array sets the streak from its dates; anything
        else (`None`: not an array, or the request failed) changes nothing. */
    method ReceiveDiaries(response: Option<seq<int>>, today: int)
      requires Valid()
      modifies this
      ensures Valid()
      ensures response.Some? ==> streak == Streak(response.value, today)
      ensures response.None? ==> streak == old(streak)
      ensures darkMode == old(darkMode) && stored == old(stored)
    {
      if response.Some? {
        streak := CalcStreak(response.value, today);
      }
    }
  }
}
