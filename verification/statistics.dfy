/** The statistics screen: the per-day emotion trend (scores grouped by day
    and emotion, the latest 14 days in date order, each emotion averaged),
    the legend's first three emotions, the first six positive points and the
    chart's X-axis labels. A diary's date key is taken as its day number. */
module Statistics {
  import opened Records
  import opened Seqs
  import opened Sorting

  /** What the trend reads from a diary: its day and, if analysed, its emotion record. */
  datatype StatDiary = StatDiary(day: int, emotions: Option<seq<Emotion>>)

  /** The statistics endpoint's answer: the emotion distribution (in key
      order), the diary count and the positive points of recent diaries. */
  datatype Stats = Stats(
    distribution: seq<Emotion>,
    totalCount: int,
    recentPositivePoints: seq<seq<string>>)

  /** One point of the trend: a day and the average score of each emotion on it. */
  datatype TrendPoint = TrendPoint(day: int, averages: map<string, real>)

  // ---------------------------------------------------------------------------
  // Reference definitions of the grouping

  /** The days of the analysed diaries, in input order, repeats included. */
  function AnalysedDays(ds: seq<StatDiary>): (r: seq<int>)
    ensures forall x :: x in r <==> exists d :: d in ds && d.emotions.Some? && d.day == x
  {
    if ds == [] then []
    else
      var last := ds[|ds| - 1];
      assert ds == ds[..|ds| - 1] + [last];
      AnalysedDays(ds[..|ds| - 1]) + (if last.emotions.Some? then [last.day] else [])
  }

  /** The scores an emotion record gives the emotion `name`, in entry order. */
  function ValuesNamed(es: seq<Emotion>, name: string): seq<real>
  {
    if es == [] then []
    else
      var last := es[|es| - 1];
      ValuesNamed(es[..|es| - 1], name) + (if last.name == name then [last.score] else [])
  }

  /** A record gives `name` some score exactly when one of its entries is named so. */
  lemma {:induction false} ValuesNamedNonEmpty(es: seq<Emotion>, name: string)
    ensures ValuesNamed(es, name) != [] <==> exists e :: e in es && e.name == name
  {
    if es != [] {
      var last := es[|es| - 1];
      assert es == es[..|es| - 1] + [last];
      ValuesNamedNonEmpty(es[..|es| - 1], name);
    }
  }

  /** What one diary adds to the scores of `name` on `day`. */
  function Contribution(d: StatDiary, day: int, name: string): seq<real>
  {
    if d.day == day && d.emotions.Some? then ValuesNamed(d.emotions.value, name) else []
  }

  /** All the scores `name` received on `day`, diary by diary in input order. */
  function ScoresOn(ds: seq<StatDiary>, day: int, name: string): seq<real>
  {
    if ds == [] then []
    else ScoresOn(ds[..|ds| - 1], day, name) + Contribution(ds[|ds| - 1], day, name)
  }

  /** The emotions named by some analysed diary of `day`. */
  function NamesOn(ds: seq<StatDiary>, day: int): set<string>
  {
    set d, e | d in ds && d.day == day && d.emotions.Some? && e in d.emotions.value :: e.name
  }

  /** The grouped table: for every analysed day, every emotion named that day, and its scores. */
  function Groups(ds: seq<StatDiary>): map<int, map<string, seq<real>>>
  {
    map day | day in AnalysedDays(ds) :: map name | name in NamesOn(ds, day) :: ScoresOn(ds, day, name)
  }

  lemma {:induction false} ScoresOnAppend(a: seq<StatDiary>, b: seq<StatDiary>, day: int, name: string)
    ensures ScoresOn(a + b, day, name) == ScoresOn(a, day, name) + ScoresOn(b, day, name)
    decreases |b|
  {
    if b == [] {
      assert a + b == a;
    } else {
      var b', x := b[..|b| - 1], b[|b| - 1];
      calc {
        ScoresOn(a + b, day, name);
        { assert a + b == (a + b') + [x]; }
        ScoresOn((a + b') + [x], day, name);
        { ScoresOnSnoc(a + b', x, day, name); }
        ScoresOn(a + b', day, name) + Contribution(x, day, name);
        { ScoresOnAppend(a, b', day, name); }
        ScoresOn(a, day, name) + (ScoresOn(b', day, name) + Contribution(x, day, name));
        { assert b == b' + [x]; ScoresOnSnoc(b', x, day, name); }
        ScoresOn(a, day, name) + ScoresOn(b, day, name);
      }
    }
  }

  /** One more diary adds its own contribution at the end. */
  lemma {:induction false} ScoresOnSnoc(ds: seq<StatDiary>, d: StatDiary, day: int, name: string)
    ensures ScoresOn(ds + [d], day, name) == ScoresOn(ds, day, name) + Contribution(d, day, name)
  {
    var after := ds + [d];
    assert after[..|after| - 1] == ds;
    assert after[|after| - 1] == d;
  }

  /** An emotion has scores on a day exactly when some analysed diary of that day names it. */
  lemma {:induction false} ScoresOnNonEmpty(ds: seq<StatDiary>, day: int, name: string)
    ensures ScoresOn(ds, day, name) != [] <==> name in NamesOn(ds, day)
  {
    if ds != [] {
      var p := ds[..|ds| - 1];
      var d := ds[|ds| - 1];
      assert ds == p + [d];
      ScoresOnNonEmpty(p, day, name);
      if d.emotions.Some? {
        ValuesNamedNonEmpty(d.emotions.value, name);
      }
      if name in NamesOn(ds, day) {
        var x, e :| x in ds && x.day == day && x.emotions.Some? && e in x.emotions.value && e.name == name;
        if x != d {
          assert x in p;
        }
      }
      if ScoresOn(ds, day, name) != [] && ScoresOn(p, day, name) == [] {
        var e :| e in d.emotions.value && e.name == name;
      }
    }
  }

  /** A day without analysed diaries has no scores. */
  lemma {:induction false} ScoresOnAbsentDay(ds: seq<StatDiary>, day: int, name: string)
    requires day !in AnalysedDays(ds)
    ensures ScoresOn(ds, day, name) == []
  {
    ScoresOnNonEmpty(ds, day, name);
  }

  // ---------------------------------------------------------------------------
  // The grouping loop

  /** `groups` holds, for exactly the analysed days of `ds`, exactly the emotions
      named on that day, each with all its scores in order. */
  ghost predicate TableOf(groups: map<int, map<string, seq<real>>>, ds: seq<StatDiary>)
  {
    (forall day :: day in groups <==> day in AnalysedDays(ds))
    && (forall day, name :: day in groups ==> (name in groups[day] <==> ScoresOn(ds, day, name) != []))
    && (forall day, name :: day in groups && name in groups[day] ==> groups[day][name] == ScoresOn(ds, day, name))
  }

  lemma {:induction false} TableIsGroups(groups: map<int, map<string, seq<real>>>, ds: seq<StatDiary>)
    requires TableOf(groups, ds)
    ensures groups == Groups(ds)
  {
    var g := Groups(ds);
    forall day ensures day in groups <==> day in g {
    }
    assert groups.Keys == g.Keys;
    forall day | day in groups ensures groups[day] == g[day] {
      forall name ensures name in groups[day] <==> name in g[day] {
        ScoresOnNonEmpty(ds, day, name);
      }
      assert groups[day].Keys == g[day].Keys;
    }
  }

  /** The scores of `name` on `day` in `ds`, followed by those the entries
      `extra` of a diary on `day0` give it. */
  ghost function PlusScores(ds: seq<StatDiary>, day0: int, extra: seq<Emotion>, day: int, name: string): seq<real>
  {
    ScoresOn(ds, day, name) + (if day == day0 then ValuesNamed(extra, name) else [])
  }

  /** The table while diary `d` is being pushed: `ds` grouped, plus the
      entries `extra` of the diary on `day0`, whose row is open. */
  ghost predicate TablePlus(groups: map<int, map<string, seq<real>>>, ds: seq<StatDiary>, day0: int, extra: seq<Emotion>)
  {
    (forall day :: day in groups <==> day in AnalysedDays(ds) || day == day0)
    && (forall day, name :: day in groups ==>
          (name in groups[day] <==> PlusScores(ds, day0, extra, day, name) != []))
    && (forall day, name :: day in groups && name in groups[day] ==>
          groups[day][name] == PlusScores(ds, day0, extra, day, name))
  }

  /** One more entry adds its score to the scores of its own name. */
  lemma {:induction false} ValuesNamedSnoc(es: seq<Emotion>, j: nat, name: string)
    requires j < |es|
    ensures ValuesNamed(es[..j + 1], name)
      == ValuesNamed(es[..j], name) + (if es[j].name == name then [es[j].score] else [])
  {
    assert es[..j + 1][..j] == es[..j];
    assert es[..j + 1][j] == es[j];
  }

  /** Pushing entry `e` onto the open row keeps the table in step. */
  lemma {:induction false} PushEntry(groups: map<int, map<string, seq<real>>>, ds: seq<StatDiary>, day0: int, es: seq<Emotion>, j: nat)
    requires j < |es|
    requires TablePlus(groups, ds, day0, es[..j])
    ensures var e := es[j];
      var cur := groups[day0];
      var vals := if e.name in cur then cur[e.name] else [];
      TablePlus(groups[day0 := cur[e.name := vals + [e.score]]], ds, day0, es[..j + 1])
  {
    var e := es[j];
    var cur := groups[day0];
    var vals := if e.name in cur then cur[e.name] else [];
    var g' := groups[day0 := cur[e.name := vals + [e.score]]];
    forall day, name | day in g'
      ensures name in g'[day] <==> PlusScores(ds, day0, es[..j + 1], day, name) != []
      ensures name in g'[day] ==> g'[day][name] == PlusScores(ds, day0, es[..j + 1], day, name)
    {
      ValuesNamedSnoc(es, j, name);
      if day == day0 && name == e.name && e.name !in cur {
        assert PlusScores(ds, day0, es[..j], day, name) == [];
      }
    }
  }

  /** Opening the row of an analysed diary's day. */
  lemma {:induction false} OpenDay(groups: map<int, map<string, seq<real>>>, ds: seq<StatDiary>, day0: int)
    requires TableOf(groups, ds)
    ensures var g' := if day0 in groups then groups else groups[day0 := map[]];
      TablePlus(g', ds, day0, [])
  {
    var g' := if day0 in groups then groups else groups[day0 := map[]];
    forall day, name | day in g'
      ensures PlusScores(ds, day0, [], day, name) == ScoresOn(ds, day, name)
      ensures name in g'[day] <==> ScoresOn(ds, day, name) != []
    {
      if day == day0 && day0 !in groups {
        ScoresOnAbsentDay(ds, day0, name);
      }
    }
  }

  /** Once all its entries are pushed, the diary is part of the grouped prefix. */
  lemma {:induction false} CloseDay(groups: map<int, map<string, seq<real>>>, ds: seq<StatDiary>, d: StatDiary)
    requires d.emotions.Some?
    requires TablePlus(groups, ds, d.day, d.emotions.value)
    ensures TableOf(groups, ds + [d])
  {
    OrderStep(ds, d);
    forall day, name
      ensures ScoresOn(ds + [d], day, name) == PlusScores(ds, d.day, d.emotions.value, day, name)
    {
      ScoresOnSnoc(ds, d, day, name);
    }
  }

  /** A diary without an emotion record leaves the table as it is. */
  lemma {:induction false} SkipDiary(groups: map<int, map<string, seq<real>>>, ds: seq<StatDiary>, d: StatDiary)
    requires d.emotions.None?
    requires TableOf(groups, ds)
    ensures TableOf(groups, ds + [d])
  {
    OrderStep(ds, d);
    forall day, name ensures ScoresOn(ds + [d], day, name) == ScoresOn(ds, day, name) {
      ScoresOnSnoc(ds, d, day, name);
    }
  }

  /** The first-seen order of the analysed days, extended by one diary. */
  lemma {:induction false} OrderStep(ds: seq<StatDiary>, d: StatDiary)
    ensures AnalysedDays(ds + [d]) == AnalysedDays(ds) + (if d.emotions.Some? then [d.day] else [])
  {
    assert (ds + [d])[..|ds + [d]| - 1] == ds;
  }

  /** How the first-seen order of the days grows with one diary. */
  lemma {:induction false} OrderAfter(order: seq<int>, groups: map<int, map<string, seq<real>>>, ds: seq<StatDiary>, d: StatDiary)
    requires order == Dedupe(AnalysedDays(ds)) && TableOf(groups, ds)
    ensures Dedupe(AnalysedDays(ds + [d]))
      == if d.emotions.Some? && d.day !in groups then order + [d.day] else order
  {
    OrderStep(ds, d);
    if d.emotions.Some? {
      var a := AnalysedDays(ds) + [d.day];
      assert a[..|a| - 1] == AnalysedDays(ds);
      assert a[|a| - 1] == d.day;
      assert d.day in order <==> d.day in AnalysedDays(ds);
      assert d.day in groups <==> d.day in AnalysedDays(ds);
      assert Dedupe(a) == if d.day in order then order else order + [d.day];
    } else {
      assert AnalysedDays(ds + [d]) == AnalysedDays(ds);
    }
  }

  /** The nested `forEach` that fills the date map: each analysed diary opens
      its day (remembering the order days were first seen) and pushes every
      score onto that day's list for the emotion. */
  method GroupByDate(diaries: seq<StatDiary>) returns (order: seq<int>, groups: map<int, map<string, seq<real>>>)
    ensures order == Dedupe(AnalysedDays(diaries))
    ensures groups == Groups(diaries)
  {
    order, groups := [], map[];
    for i := 0 to |diaries|
      invariant order == Dedupe(AnalysedDays(diaries[..i]))
      invariant TableOf(groups, diaries[..i])
    {
      var d := diaries[i];
      assert diaries[..i + 1] == diaries[..i] + [d];
      OrderAfter(order, groups, diaries[..i], d);
      if d.emotions.Some? {
        OpenDay(groups, diaries[..i], d.day);
        if d.day !in groups {
          groups := groups[d.day := map[]];
          order := order + [d.day];
        }
        groups := PushScores(groups, diaries[..i], d.day, d.emotions.value);
        CloseDay(groups, diaries[..i], d);
      } else {
        SkipDiary(groups, diaries[..i], d);
      }
    }
    assert diaries[..|diaries|] == diaries;
    TableIsGroups(groups, diaries);
  }

  /** The inner `forEach`: every entry of one diary's emotion record is pushed
      onto the list of its emotion in the open row of `day`. */
  method PushScores(groups: map<int, map<string, seq<real>>>, ds: seq<StatDiary>, day: int, es: seq<Emotion>)
    returns (result: map<int, map<string, seq<real>>>)
    requires TablePlus(groups, ds, day, [])
    ensures TablePlus(result, ds, day, es)
  {
    result := groups;
    for j := 0 to |es|
      invariant TablePlus(result, ds, day, es[..j])
    {
      PushEntry(result, ds, day, es, j);
      var e := es[j];
      var cur := result[day];
      var vals := if e.name in cur then cur[e.name] else [];
      result := result[day := cur[e.name := vals + [e.score]]];
    }
    assert es[..|es|] == es;
  }

  // ---------------------------------------------------------------------------
  // Averages and the trend

  /** `vals.reduce((a, b) => a + b, 0)`. */
  function Sum(vals: seq<real>): real
  {
    if vals == [] then 0.0 else Sum(vals[..|vals| - 1]) + vals[|vals| - 1]
  }

  /** The arithmetic mean of a non-empty list. */
  function Mean(vals: seq<real>): real
    requires vals != []
  {
    Sum(vals) / (|vals| as real)
  }

  lemma {:induction false} SumBounds(vals: seq<real>, lo: real, hi: real)
    requires forall i :: 0 <= i < |vals| ==> lo <= vals[i] <= hi
    ensures (|vals| as real) * lo <= Sum(vals) <= (|vals| as real) * hi
  {
    if vals != [] {
      SumBounds(vals[..|vals| - 1], lo, hi);
    }
  }

  /** The average of scores lying in a range lies in that range (so scores
      between 0 and 1 plot inside the chart). */
  lemma {:induction false} MeanBounds(vals: seq<real>, lo: real, hi: real)
    requires vals != []
    requires forall i :: 0 <= i < |vals| ==> lo <= vals[i] <= hi
    ensures lo <= Mean(vals) <= hi
  {
    SumBounds(vals, lo, hi);
    var n := |vals| as real;
    assert Mean(vals) * n == Sum(vals);
  }

  /** The scores of each emotion on one day, averaged. */
  function Averages(row: map<string, seq<real>>): map<string, real>
    requires forall name :: name in row ==> row[name] != []
  {
    map name | name in row :: Mean(row[name])
  }

  ghost predicate WellFormed(order: seq<int>, groups: map<int, map<string, seq<real>>>)
  {
    (forall x :: x in order ==> x in groups)
    && (forall day, name :: day in groups && name in groups[day] ==> groups[day][name] != [])
  }

  /** The days the trend shows: sorted, then `slice(-14)`. */
  function TrendDays(order: seq<int>): (r: seq<int>)
    ensures forall x :: x in r ==> x in order
  {
    var sorted := SortAsc(order);
    var r := LastN(sorted, 14);
    assert forall x :: x in r ==> x in multiset(sorted);
    r
  }

  /** The pipeline after the grouping: order the days, keep the last 14, average each. */
  function TrendOf(order: seq<int>, groups: map<int, map<string, seq<real>>>): seq<TrendPoint>
    requires WellFormed(order, groups)
  {
    var days := TrendDays(order);
    seq(|days|, i requires 0 <= i < |days| => TrendPoint(days[i], Averages(groups[days[i]])))
  }

  lemma {:induction false} GroupsWellFormed(ds: seq<StatDiary>)
    ensures WellFormed(Dedupe(AnalysedDays(ds)), Groups(ds))
  {
    forall day, name | day in Groups(ds) && name in Groups(ds)[day]
      ensures Groups(ds)[day][name] != []
    {
      ScoresOnNonEmpty(ds, day, name);
    }
  }

  /** The emotion trend of a list of diaries. */
  function Trend(ds: seq<StatDiary>): seq<TrendPoint>
  {
    GroupsWellFormed(ds);
    TrendOf(Dedupe(AnalysedDays(ds)), Groups(ds))
  }

  /** The `trend` computation as the screen runs it: group, then the pipeline. */
  method ComputeTrend(diaries: seq<StatDiary>) returns (trend: seq<TrendPoint>)
    ensures trend == Trend(diaries)
  {
    var order, groups := GroupByDate(diaries);
    GroupsWellFormed(diaries);
    trend := TrendOf(order, groups);
  }

  /** The number of distinct analysed days. */
  function DayCount(ds: seq<StatDiary>): nat
  {
    |set x | x in AnalysedDays(ds)|
  }

  /** The days of a trend, in order: a projection whose ensures only spell out the definition;
      what the days are is proved in `TrendDaysSpec`. */
  function DaysOf(t: seq<TrendPoint>): (r: seq<int>)
    ensures |r| == |t|
    ensures forall i :: 0 <= i < |t| ==> r[i] == t[i].day
  {
    seq(|t|, i requires 0 <= i < |t| => t[i].day)
  }

  /** The sorted distinct analysed days: as many as `DayCount`, each once, ascending. */
  lemma {:induction false} SortedDays(ds: seq<StatDiary>)
    ensures var sorted := SortAsc(Dedupe(AnalysedDays(ds)));
      StrictlyAscending(sorted) && |sorted| == DayCount(ds)
      && (forall x :: x in sorted <==> x in AnalysedDays(ds))
  {
    var a := AnalysedDays(ds);
    var order := Dedupe(a);
    SortedDedupe(a);
    DistinctSetSize(order);
    assert (set x | x in order) == (set x | x in a);
    var sorted := SortAsc(order);
    assert |sorted| == |multiset(sorted)| == |multiset(order)| == |order|;
  }

  /** Trend days are analysed days, strictly ascending, `min(14, days)` of
      them, and the latest ones: every analysed day left out is earlier than
      the first shown. */
  lemma {:induction false} TrendDaysSpec(ds: seq<StatDiary>)
    ensures var days := DaysOf(Trend(ds));
      |days| == (if DayCount(ds) < 14 then DayCount(ds) else 14)
      && StrictlyAscending(days)
      && (forall x :: x in days ==> x in AnalysedDays(ds))
      && (forall x :: x in AnalysedDays(ds) && x !in days ==> days != [] && x < days[0])
  {
    var sorted := SortAsc(Dedupe(AnalysedDays(ds)));
    SortedDays(ds);
    LastNOfAscending(sorted, 14);
    assert DaysOf(Trend(ds)) == LastN(sorted, 14);
  }

  /** Each trend value is the mean of the scores that emotion received on
      that day, and an emotion appears on a day exactly when it has a score there. */
  lemma {:induction false} TrendAverages(ds: seq<StatDiary>, i: nat, name: string)
    requires i < |Trend(ds)|
    ensures var p := Trend(ds)[i];
      (name in p.averages <==> ScoresOn(ds, p.day, name) != [])
      && (name in p.averages ==> ScoresOn(ds, p.day, name) != [] && p.averages[name] == Mean(ScoresOn(ds, p.day, name)))
  {
    var p := Trend(ds)[i];
    ScoresOnNonEmpty(ds, p.day, name);
    assert p.day in Dedupe(AnalysedDays(ds));
  }

  /** Two diary lists with the same analysed days and the same scores have the same trend. */
  lemma {:induction false} SameScoresSameTrend(x: seq<StatDiary>, y: seq<StatDiary>)
    requires AnalysedDays(x) == AnalysedDays(y)
    requires forall day, name :: ScoresOn(x, day, name) == ScoresOn(y, day, name)
    ensures Trend(x) == Trend(y)
  {
    SameScoresSameGroups(x, y);
  }

  lemma {:induction false} SameScoresSameGroups(x: seq<StatDiary>, y: seq<StatDiary>)
    requires AnalysedDays(x) == AnalysedDays(y)
    requires forall day, name :: ScoresOn(x, day, name) == ScoresOn(y, day, name)
    ensures Groups(x) == Groups(y)
  {
    GroupsTable(x);
    TableIsGroups(Groups(x), y);
  }

  /** The reference table satisfies the table invariant. */
  lemma {:induction false} GroupsTable(ds: seq<StatDiary>)
    ensures TableOf(Groups(ds), ds)
  {
    var g := Groups(ds);
    forall day, name | day in g
      ensures name in g[day] <==> ScoresOn(ds, day, name) != []
    {
      ScoresOnNonEmpty(ds, day, name);
    }
  }

  /** Diaries without an emotion record contribute nothing, wherever they stand. */
  lemma {:induction false} UnanalysedIgnored(a: seq<StatDiary>, d: StatDiary, b: seq<StatDiary>)
    requires d.emotions.None?
    ensures Trend(a + [d] + b) == Trend(a + b)
  {
    var x := a + [d] + b;
    var y := a + b;
    AnalysedDaysAppend(a + [d], b);
    AnalysedDaysAppend(a, b);
    OrderStep(a, d);
    forall day, name ensures ScoresOn(x, day, name) == ScoresOn(y, day, name) {
      ScoresOnAppend(a + [d], b, day, name);
      ScoresOnAppend(a, [d], day, name);
      ScoresOnAppend(a, b, day, name);
      assert ScoresOn([d], day, name) == [];
    }
    SameScoresSameTrend(x, y);
  }

  lemma {:induction false} AnalysedDaysAppend(a: seq<StatDiary>, b: seq<StatDiary>)
    ensures AnalysedDays(a + b) == AnalysedDays(a) + AnalysedDays(b)
    decreases |b|
  {
    if b == [] {
      assert a + b == a;
    } else {
      var b' := b[..|b| - 1];
      assert (a + b)[..|a + b| - 1] == a + b';
      assert (a + b)[|a + b| - 1] == b[|b| - 1];
      AnalysedDaysAppend(a, b');
    }
  }

  /** The chart is drawn only when the trend has two or more points. */
  function ChartShown(trend: seq<TrendPoint>): bool
  {
    |trend| >= 2
  }

  /** So the chart appears exactly when at least two distinct days have analysed diaries. */
  lemma {:induction false} ChartNeedsTwoDays(ds: seq<StatDiary>)
    ensures ChartShown(Trend(ds)) <==> DayCount(ds) >= 2
  {
    TrendDaysSpec(ds);
  }

  // ---------------------------------------------------------------------------
  // Legend, positive points, axis labels

  /** `Object.keys` of an emotion record: a projection whose ensures only spell out the
      definition; `TopEmotions` and `ChartLinesOfTopEmotions` state what is built from it. */
  function Keys(entries: seq<Emotion>): (r: seq<string>)
    ensures |r| == |entries|
    ensures forall i :: 0 <= i < |r| ==> r[i] == entries[i].name
  {
    seq(|entries|, i requires 0 <= i < |entries| => entries[i].name)
  }

  /** `topEmotions`: the first three keys of the distribution, none without statistics. */
  function TopEmotions(stats: Option<Stats>): (r: seq<string>)
    ensures stats.None? ==> r == []
    ensures stats.Some? ==> |r| == (if |stats.value.distribution| < 3 then |stats.value.distribution| else 3)
    ensures forall i :: 0 <= i < |r| ==> r[i] == stats.value.distribution[i].name
  {
    if stats.None? then [] else Take(Keys(stats.value.distribution), 3)
  }

  /** The emotions the chart draws a line for: `emotions.slice(0, 3)`. */
  function ChartLines(emotions: seq<string>): (r: seq<string>)
    ensures |r| == if |emotions| < 3 then |emotions| else 3
    ensures forall i :: 0 <= i < |r| ==> r[i] == emotions[i]
  {
    Take(emotions, 3)
  }

  /** At most three lines, the first three legend entries, in order. */
  lemma {:induction false} ChartLinesOfTopEmotions(stats: Option<Stats>)
    ensures ChartLines(TopEmotions(stats)) == TopEmotions(stats)
  {
  }

  /** `recent_positive_points.flat().slice(0, 6)`. */
  function ShownPositivePoints(points: seq<seq<string>>): seq<string>
  {
    Take(Flatten(points), 6)
  }

  /** At most six points, `min(6, total)` of them, taken in order: the point
      `j` of diary `i` is shown exactly when fewer than six points come before it. */
  lemma {:induction false} ShownPositivePointsSpec(points: seq<seq<string>>, i: nat, j: nat)
    requires i < |points| && j < |points[i]|
    ensures |ShownPositivePoints(points)| == (if TotalLength(points) < 6 then TotalLength(points) else 6)
    ensures var k := TotalLength(points[..i]) + j;
      k < 6 ==> k < |ShownPositivePoints(points)| && ShownPositivePoints(points)[k] == points[i][j]
  {
    FlattenLength(points);
    FlattenAt(points, i, j);
  }

  /** Whether point `i` of an `n`-point chart carries a date label. */
  predicate Labelled(i: nat, n: nat)
  {
    i == 0 || i == n - 1 || i == n / 2
  }

  /** The labelled indices from `i` on, in order. */
  function LabelledFrom(i: nat, n: nat): seq<nat>
    decreases n - i
  {
    if i >= n then [] else (if Labelled(i, n) then [i] else []) + LabelledFrom(i + 1, n)
  }

  /** A stretch without labels adds nothing. */
  lemma {:induction false} SkipUnlabelled(i: nat, k: nat, n: nat)
    requires i <= k <= n
    requires forall x :: i <= x < k ==> !Labelled(x, n)
    ensures LabelledFrom(i, n) == LabelledFrom(k, n)
    decreases k - i
  {
    if i < k {
      SkipUnlabelled(i + 1, k, n);
    }
  }

  /** The X axis of a drawn chart labels the first, the middle (`floor(n/2)`)
      and the last point and nothing else: two labels for two points, three otherwise. */
  lemma {:induction false} AxisLabels(n: nat)
    requires n >= 2
    ensures LabelledFrom(0, n) == if n == 2 then [0, 1] else [0, n / 2, n - 1]
  {
    if n == 2 {
      assert LabelledFrom(2, 2) == [];
    } else {
      SkipUnlabelled(1, n / 2, n);
      SkipUnlabelled(n / 2 + 1, n - 1, n);
      assert LabelledFrom(n, n) == [];
      if n == 3 {
        assert n / 2 + 1 == n - 1;
      }
    }
  }
}
