/** The diary calendar screen: diaries bucketed by the date key of their
    creation time, the glyph of each day's strongest emotion, the month grid
    (weekday of the first, month length, `YYYY-MM-DD` cell keys, month
    navigation), the month's record count, the emotion tags of a card, and the
    selected-day / expanded-card state. */
module DiaryList {
  import opened Records
  import opened Seqs
  import Calendar
  import Text

  datatype Analysis = Analysis(
    summary: string,
    emotions: Option<seq<Emotion>>,
    positivePoints: Option<seq<string>>,
    improvementPoints: Option<string>)

  datatype Diary = Diary(
    id: int,
    title: string,
    content: string,
    createdAt: string,
    category: Option<Category>,
    analysis: Option<Analysis>)

  /** The glyphs a calendar cell can show. */
  datatype Glyph =
    | Smiling    // U+1F60A, joy
    | Crying     // U+1F622, sadness
    | Anxious    // U+1F630, anxiety
    | Fuming     // U+1F624, anger
    | Relieved   // U+1F60C, calm
    | Notebook   // U+1F4D4, no emotions to show
    | BlueHeart  // U+1F499, an emotion the table does not know

  // ---------------------------------------------------------------------------
  // Bucketing by date key

  /** `created_at.slice(0, 10)`: the `YYYY-MM-DD` part of the timestamp
      (the whole string when it is shorter). */
  function DateKey(createdAt: string): (k: string)
    ensures |k| == if |createdAt| < 10 then |createdAt| else 10
    ensures k == createdAt[..|k|]
  {
    if |createdAt| <= 10 then createdAt else createdAt[..10]
  }

  function KeyOf(d: Diary): string
  {
    DateKey(d.createdAt)
  }

  /** The diaries of one day, in input order. */
  function OnDate(ds: seq<Diary>, key: string): seq<Diary>
  {
    Filter((d: Diary) => KeyOf(d) == key, ds)
  }

  function DateKeys(ds: seq<Diary>): set<string>
  {
    set d | d in ds :: KeyOf(d)
  }

  /** The day index the screen renders from: each date key that occurs, mapped to that day's diaries.
      This is the reference definition that `BuildDiaryMap` is proved against; its ensures only
      spell out the definition, and what it means is proved in `BucketedExactlyOnce`,
      `BucketsMatchTheirKey` and `BucketKeepsOrder`. */
  function DiaryMap(ds: seq<Diary>): (m: map<string, seq<Diary>>)
    ensures m.Keys == DateKeys(ds)
    ensures forall k :: k in m ==> m[k] == OnDate(ds, k)
  {
    map k | k in DateKeys(ds) :: OnDate(ds, k)
  }

  /** The `forEach` that fills `diaryMap`: one pass, pushing each diary onto its day's list. */
  method BuildDiaryMap(diaries: seq<Diary>) returns (m: map<string, seq<Diary>>)
    ensures m == DiaryMap(diaries)
  {
    m := map[];
    for i := 0 to |diaries|
      invariant m.Keys == DateKeys(diaries[..i])
      invariant forall k :: k in m ==> m[k] == OnDate(diaries[..i], k)
    {
      var d := diaries[i];
      var key := KeyOf(d);
      PushDiary(m, diaries[..i], d);
      if key !in m {
        m := m[key := []];
      }
      m := m[key := m[key] + [d]];
      assert diaries[..i + 1] == diaries[..i] + [d];
    }
    assert diaries[..|diaries|] == diaries;
  }

  /** One step of the bucketing: pushing `d` onto its day's list (created
      empty when missing) turns the index of `ds` into the index of `ds + [d]`. */
  lemma {:induction false} PushDiary(m: map<string, seq<Diary>>, ds: seq<Diary>, d: Diary)
    requires m.Keys == DateKeys(ds)
    requires forall k :: k in m ==> m[k] == OnDate(ds, k)
    ensures var key := KeyOf(d);
      var m' := m[key := (if key in m then m[key] else []) + [d]];
      m'.Keys == DateKeys(ds + [d]) && forall k :: k in m' ==> m'[k] == OnDate(ds + [d], k)
  {
    var key := KeyOf(d);
    var m' := m[key := (if key in m then m[key] else []) + [d]];
    DateKeysSnoc(ds, d);
    forall k | k in m' ensures m'[k] == OnDate(ds + [d], k) {
      OnDateSnoc(ds, d, k);
      if k == key && key !in m {
        NoDiaryOnDate(ds, key);
      }
    }
  }

  /** One more diary adds its own key to the keys that occur. */
  lemma {:induction false} DateKeysSnoc(ds: seq<Diary>, d: Diary)
    ensures DateKeys(ds + [d]) == DateKeys(ds) + {KeyOf(d)}
  {
    forall x | x in DateKeys(ds + [d]) ensures x in DateKeys(ds) + {KeyOf(d)} {
      var y :| y in ds + [d] && KeyOf(y) == x;
      if y != d {
        assert y in ds;
      }
    }
    forall x | x in DateKeys(ds) ensures x in DateKeys(ds + [d]) {
      var y :| y in ds && KeyOf(y) == x;
      assert y in ds + [d];
    }
    assert d in ds + [d];
  }

  /** One more diary joins the end of its own day's list and no other. */
  lemma {:induction false} OnDateSnoc(ds: seq<Diary>, d: Diary, k: string)
    ensures OnDate(ds + [d], k) == OnDate(ds, k) + (if KeyOf(d) == k then [d] else [])
  {
    FilterAppend((x: Diary) => KeyOf(x) == k, ds, [d]);
    assert [d][1..] == [];
  }

  /** A key no diary has selects no diary. */
  lemma {:induction false} NoDiaryOnDate(ds: seq<Diary>, key: string)
    requires key !in DateKeys(ds)
    ensures OnDate(ds, key) == []
  {
    forall i | 0 <= i < |ds|
      ensures KeyOf(ds[i]) != key
    {
      assert ds[i] in ds;
    }
    FilterNone((d: Diary) => KeyOf(d) == key, ds);
  }

  /** No diary is lost or duplicated: each lands in the bucket of its own date
      key exactly as often as it occurs in the input, and in no other bucket. */
  lemma {:induction false} BucketedExactlyOnce(ds: seq<Diary>, d: Diary)
    requires d in ds
    ensures KeyOf(d) in DiaryMap(ds)
    ensures multiset(DiaryMap(ds)[KeyOf(d)])[d] == multiset(ds)[d]
    ensures forall k :: k in DiaryMap(ds) && k != KeyOf(d) ==> d !in DiaryMap(ds)[k]
  {
    FilterCount((x: Diary) => KeyOf(x) == KeyOf(d), ds, d);
  }

  /** Every diary of a bucket has that bucket's key as the first ten characters
      of its timestamp, and no bucket is empty. */
  lemma {:induction false} BucketsMatchTheirKey(ds: seq<Diary>, k: string)
    requires k in DiaryMap(ds)
    ensures DiaryMap(ds)[k] != []
    ensures forall d :: d in DiaryMap(ds)[k] ==> DateKey(d.createdAt) == k
  {
    var d :| d in ds && KeyOf(d) == k;
    FilterMembership((x: Diary) => KeyOf(x) == k, ds, d);
  }

  /** Within a bucket the diaries keep their relative order from the input. */
  lemma {:induction false} BucketKeepsOrder(ds: seq<Diary>, k: string)
    requires k in DiaryMap(ds)
    ensures IsSubseq(DiaryMap(ds)[k], ds)
  {
    FilterIsSubseq((x: Diary) => KeyOf(x) == k, ds);
  }

  // ---------------------------------------------------------------------------
  // Strongest emotion and its glyph

  /** The name table; Korean and English labels share glyphs, and any other
      name falls back to the blue heart. */
  function LabelGlyph(name: string): (g: Glyph)
    ensures g != Notebook
  {
    if name == "기쁨" || name == "joy" then Smiling
    else if name == "슬픔" || name == "sadness" then Crying
    else if name == "불안" || name == "anxiety" then Anxious
    else if name == "분노" || name == "anger" then Fuming
    else if name == "평온" || name == "calm" then Relieved
    else BlueHeart
  }

  /** Each Korean name shows the same glyph as its English synonym. */
  lemma {:induction false} SynonymsShareGlyphs()
    ensures LabelGlyph("기쁨") == LabelGlyph("joy") == Smiling
    ensures LabelGlyph("슬픔") == LabelGlyph("sadness") == Crying
    ensures LabelGlyph("불안") == LabelGlyph("anxiety") == Anxious
    ensures LabelGlyph("분노") == LabelGlyph("anger") == Fuming
    ensures LabelGlyph("평온") == LabelGlyph("calm") == Relieved
  {
  }

  ghost predicate ScoresDescending(es: seq<Emotion>)
  {
    forall i, j :: 0 <= i < j < |es| ==> es[i].score >= es[j].score
  }

  /** Stable insertion: `e` goes before the first entry that does not beat it. */
  function InsertByScore(e: Emotion, s: seq<Emotion>): (r: seq<Emotion>)
    requires ScoresDescending(s)
    ensures |r| == |s| + 1
    ensures ScoresDescending(r)
    ensures multiset(r) == multiset(s) + multiset{e}
    ensures r[0] == (if s == [] || s[0].score <= e.score then e else s[0])
  {
    if s == [] || s[0].score <= e.score then
      PrependDescending(e, s);
      [e] + s
    else
      assert s == [s[0]] + s[1..];
      var t := InsertByScore(e, s[1..]);
      PrependDescending(s[0], t);
      [s[0]] + t
  }

  /** An entry scoring at least the head of a descending list can go in front of it. */
  lemma {:induction false} PrependDescending(x: Emotion, t: seq<Emotion>)
    requires ScoresDescending(t)
    requires t != [] ==> t[0].score <= x.score
    ensures ScoresDescending([x] + t)
  {
    var r := [x] + t;
    forall i, j | 0 <= i < j < |r| ensures r[i].score >= r[j].score {
      if i == 0 {
        assert r[j] == t[j - 1];
        assert t[0].score >= t[j - 1].score;
      } else {
        assert r[i] == t[i - 1] && r[j] == t[j - 1];
      }
    }
  }

  /** `sort((a, b) => b[1] - a[1])`: a stable sort, highest score first. */
  function SortByScore(es: seq<Emotion>): (r: seq<Emotion>)
    ensures |r| == |es|
    ensures ScoresDescending(r)
    ensures multiset(r) == multiset(es)
  {
    if es == [] then []
    else
      assert es == [es[0]] + es[1..];
      InsertByScore(es[0], SortByScore(es[1..]))
  }

  /** Position of the first entry carrying the highest score. */
  function FirstMaxIndex(es: seq<Emotion>): (k: nat)
    requires es != []
    ensures k < |es|
    ensures forall j :: 0 <= j < |es| ==> es[j].score <= es[k].score
    ensures forall j :: 0 <= j < k ==> es[j].score < es[k].score
  {
    if |es| == 1 then 0
    else
      var k := FirstMaxIndex(es[1..]);
      if es[0].score >= es[k + 1].score then 0 else k + 1
  }

  /** The emotion on top after the stable descending sort is the first maximum. */
  lemma {:induction false} SortedHeadIsFirstMax(es: seq<Emotion>)
    requires es != []
    ensures SortByScore(es) != [] && SortByScore(es)[0] == es[FirstMaxIndex(es)]
  {
    if |es| > 1 {
      var rest := SortByScore(es[1..]);
      SortedHeadIsFirstMax(es[1..]);
      var k := FirstMaxIndex(es[1..]);
      assert rest[0] == es[k + 1];
      assert SortByScore(es) == InsertByScore(es[0], rest);
    }
  }

  /** `getTopEmotionEmoji`. */
  function TopEmotionGlyph(emotions: Option<seq<Emotion>>): Glyph
  {
    match emotions
    case None => Notebook
    case Some(es) =>
      var sorted := SortByScore(es);
      if sorted == [] then Notebook else LabelGlyph(sorted[0].name)
  }

  /** Missing or empty emotions show the notebook; otherwise the glyph is that
      of the highest-scoring name, the first one in entry order on a tie, and
      never the notebook. */
  lemma {:induction false} TopEmotionGlyphSpec(emotions: Option<seq<Emotion>>)
    ensures emotions == None || emotions == Some([]) ==> TopEmotionGlyph(emotions) == Notebook
    ensures emotions.Some? && emotions.value != [] ==>
      TopEmotionGlyph(emotions) == LabelGlyph(emotions.value[FirstMaxIndex(emotions.value)].name)
      && TopEmotionGlyph(emotions) != Notebook
  {
    if emotions.Some? && emotions.value != [] {
      SortedHeadIsFirstMax(emotions.value);
    }
  }

  /** The emotions of a diary, absent when it has no analysis. */
  function EmotionsOf(d: Diary): Option<seq<Emotion>>
  {
    if d.analysis.Some? then d.analysis.value.emotions else None
  }

  // ---------------------------------------------------------------------------
  // Month grid

  /** The `YYYY-MM-DD` key of day `day` of month `m` (0-based) in year `y`. */
  function CellKey(y: int, m: int, day: nat): string
    requires 0 <= m < 12
  {
    Text.IntToString(y) + "-" + Text.PadTwo(m + 1) + "-" + Text.PadTwo(day)
  }

  /** The `YYYY-MM` prefix the month's record count looks for. */
  function MonthPrefix(y: int, m: int): string
    requires 0 <= m < 12
  {
    Text.IntToString(y) + "-" + Text.PadTwo(m + 1)
  }

  /** For four-digit years a cell key is ten characters long, starts with the
      month prefix, and reads back as (year, 1-based month, day). */
  lemma {:induction false} CellKeyShape(y: int, m: int, day: nat)
    requires 1000 <= y <= 9999 && 0 <= m < 12 && 1 <= day <= 31
    ensures var k := CellKey(y, m, day);
      |k| == 10 && k[4] == '-' && k[7] == '-'
      && k[..7] == MonthPrefix(y, m)
      && Text.ParseDigits(k[..4]) == y
      && Text.ParseDigits(k[5..7]) == m + 1
      && Text.ParseDigits(k[8..]) == day
  {
    var ys, ms, ds := Text.IntToString(y), Text.PadTwo(m + 1), Text.PadTwo(day);
    assert |ys| == 4 && Text.ParseDigits(ys) == y by {
      Text.FourDigits(y);
      Text.ParseNatToString(y);
    }
    assert |ms| == 2 && Text.ParseDigits(ms) == m + 1 by {
      Text.PadTwoRoundTrip(m + 1);
    }
    assert |ds| == 2 && Text.ParseDigits(ds) == day by {
      Text.PadTwoRoundTrip(day);
    }
    var k := CellKey(y, m, day);
    var p := ys + "-" + ms;
    assert p == MonthPrefix(y, m) && |p| == 7;
    assert k == p + ("-" + ds);
    assert k[..7] == p;
    assert k[8..] == ds;
    assert p[..4] == ys && p[5..] == ms;
    assert k[..4] == p[..4] && k[5..7] == p[5..];
  }

  /** Different days of the grid get different keys. */
  lemma {:induction false} CellKeysDistinct(y: int, m: int, d1: nat, d2: nat)
    requires 1000 <= y <= 9999 && 0 <= m < 12
    requires 1 <= d1 <= 31 && 1 <= d2 <= 31 && d1 != d2
    ensures CellKey(y, m, d1) != CellKey(y, m, d2)
  {
    CellKeyShape(y, m, d1);
    CellKeyShape(y, m, d2);
  }

  /** The glyph under a day cell: from the first diary of that day's bucket,
      nothing when the day has no bucket. */
  function CellGlyph(dm: map<string, seq<Diary>>, key: string): Option<Glyph>
  {
    if key in dm then
      Some(TopEmotionGlyph(if dm[key] != [] then EmotionsOf(dm[key][0]) else None))
    else None
  }

  /** A cell shows the glyph of the first diary of that day in input order, and
      nothing on a day without diaries. */
  lemma {:induction false} CellGlyphFromFirstDiary(ds: seq<Diary>, key: string, i: nat)
    requires i < |ds| && KeyOf(ds[i]) == key
    requires forall j :: 0 <= j < i ==> KeyOf(ds[j]) != key
    ensures CellGlyph(DiaryMap(ds), key) == Some(TopEmotionGlyph(EmotionsOf(ds[i])))
  {
    assert ds[i] in ds;
    FilterHead((d: Diary) => KeyOf(d) == key, ds, i);
  }

  lemma {:induction false} CellWithoutDiary(ds: seq<Diary>, key: string)
    requires forall j :: 0 <= j < |ds| ==> KeyOf(ds[j]) != key
    ensures CellGlyph(DiaryMap(ds), key) == None
  {
  }

  // ---------------------------------------------------------------------------
  // Month record count

  predicate StartsWith(s: string, prefix: string)
  {
    |prefix| <= |s| && s[..|prefix|] == prefix
  }

  /** The day keys counted for the month: those starting with its prefix. */
  function MonthKeys(dm: map<string, seq<Diary>>, y: int, m: int): set<string>
    requires 0 <= m < 12
  {
    set k | k in dm && StartsWith(k, MonthPrefix(y, m))
  }

  /** `Object.keys(diaryMap).filter(k => k.startsWith(prefix)).length`. */
  function MonthRecordCount(dm: map<string, seq<Diary>>, y: int, m: int): nat
    requires 0 <= m < 12
  {
    |MonthKeys(dm, y, m)|
  }

  /** The count is the number of distinct days of the month on which some diary was written. */
  lemma {:induction false} MonthRecordCountIsDays(ds: seq<Diary>, y: int, m: int)
    requires 0 <= m < 12
    ensures MonthRecordCount(DiaryMap(ds), y, m)
      == |set d | d in ds && StartsWith(KeyOf(d), MonthPrefix(y, m)) :: KeyOf(d)|
  {
    var a := MonthKeys(DiaryMap(ds), y, m);
    var b := set d | d in ds && StartsWith(KeyOf(d), MonthPrefix(y, m)) :: KeyOf(d);
    forall k | k in a ensures k in b {
      var d :| d in ds && KeyOf(d) == k;
    }
    assert a == b;
  }

  /** Every cell of the shown month that has diaries is among the counted keys,
      so the count is never below the number of marked cells. */
  lemma {:induction false} MarkedCellsAreCounted(dm: map<string, seq<Diary>>, y: int, m: int, day: nat)
    requires 1000 <= y <= 9999 && 0 <= m < 12 && 1 <= day <= 31
    requires CellKey(y, m, day) in dm
    ensures CellKey(y, m, day) in MonthKeys(dm, y, m)
  {
    CellKeyShape(y, m, day);
    Text.FourDigits(y);
  }

  // ---------------------------------------------------------------------------
  // Emotion tags on a card

  /** Labels scoring above 0.3, in entry order. */
  function EmotionTags(emotions: Option<seq<Emotion>>): seq<string>
  {
    match emotions
    case None => []
    case Some(es) =>
      var strong := Filter((e: Emotion) => e.score > 0.3, es);
      seq(|strong|, i requires 0 <= i < |strong| => strong[i].name)
  }

  /** A name is tagged exactly when some entry gives it a score above 0.3. */
  lemma {:induction false} EmotionTagsSpec(es: seq<Emotion>, name: string)
    ensures name in EmotionTags(Some(es)) <==> exists e :: e in es && e.name == name && e.score > 0.3
  {
    var strong := Filter((e: Emotion) => e.score > 0.3, es);
    var tags := EmotionTags(Some(es));
    if name in tags {
      var i :| 0 <= i < |tags| && tags[i] == name;
      assert strong[i] in strong;
    }
    if exists e :: e in es && e.name == name && e.score > 0.3 {
      var e :| e in es && e.name == name && e.score > 0.3;
      FilterMembership((x: Emotion) => x.score > 0.3, es, e);
      var i :| 0 <= i < |strong| && strong[i] == e;
      assert tags[i] == name;
    }
  }

  // ---------------------------------------------------------------------------
  // Selected day and expanded card

  /** Clicking a day or a card: the one already chosen is dropped, any other
      one becomes the choice (so at most one day is selected and at most one
      card is expanded at a time). */
  function Toggle<T(==)>(current: Option<T>, x: T): (r: Option<T>)
    ensures r == None <==> current == Some(x)
    ensures r != None ==> r == Some(x)
  {
    if current == Some(x) then None else Some(x)
  }

  /** The diaries listed under the calendar: the selected day's bucket, or none. */
  function SelectedDiaries(dm: map<string, seq<Diary>>, selected: Option<string>): (r: seq<Diary>)
    ensures selected == None ==> r == []
    ensures selected.Some? && selected.value in dm && selected.value != "" ==> r == dm[selected.value]
    ensures selected.Some? && selected.value !in dm ==> r == []
  {
    if selected == None || selected.value == "" then []
    else if selected.value in dm then dm[selected.value]
    else []
  }

  /** The calendar screen's state: the shown month and the selection. */
  class CalendarView {
    var year: int
    var month: int
    var selectedDate: Option<string>
    var expandedId: Option<int>

    ghost predicate Valid()
      reads this
    {
      0 <= month < 12
    }

    /** Opens on the current month with nothing selected or expanded. */
    constructor (nowYear: int, nowMonth: int)
      requires 0 <= nowMonth < 12
      ensures Valid()
      ensures year == nowYear && month == nowMonth
      ensures selectedDate == None && expandedId == None
    {
      year, month := nowYear, nowMonth;
      selectedDate, expandedId := None, None;
    }

    /** `firstDay`: how many blank cells precede day 1 (Sunday = 0). */
    function FirstDay(): (w: int)
      reads this
      requires Valid()
      ensures 0 <= w < 7
    {
      Calendar.Weekday(Calendar.MakeDay(year, month, 1))
    }

    /** `daysInMonth`: the date of day 0 of the next month (see `Calendar.LastDayOfMonth`). */
    function DaysShown(): (n: int)
      reads this
      requires Valid()
      ensures 28 <= n <= 31
      ensures Calendar.MakeDay(year, month + 1, 0) == Calendar.MakeDay(year, month, n)
    {
      Calendar.LastDayOfMonth(year, month);
      Calendar.DaysInMonth(year, month)
    }

    method ShowPreviousMonth()
      requires Valid()
      modifies this
      ensures Valid()
      ensures (year, month) == Calendar.PrevMonth(old(year), old(month))
      ensures selectedDate == old(selectedDate) && expandedId == old(expandedId)
    {
      var p := Calendar.PrevMonth(year, month);
      year, month := p.0, p.1;
    }

    method ShowNextMonth()
      requires Valid()
      modifies this
      ensures Valid()
      ensures (year, month) == Calendar.NextMonth(old(year), old(month))
      ensures selectedDate == old(selectedDate) && expandedId == old(expandedId)
    {
      var n := Calendar.NextMonth(year, month);
      year, month := n.0, n.1;
    }

    /** A click on a day cell toggles its selection and collapses any expanded card. */
    method ClickDay(key: string)
      requires Valid()
      modifies this
      ensures Valid()
      ensures selectedDate == Toggle(old(selectedDate), key)
      ensures expandedId == None
      ensures year == old(year) && month == old(month)
    {
      selectedDate := Toggle(selectedDate, key);
      expandedId := None;
    }

    /** A click on a diary card toggles its expansion. */
    method ClickCard(id: int)
      requires Valid()
      modifies this
      ensures Valid()
      ensures expandedId == Toggle(old(expandedId), id)
      ensures selectedDate == old(selectedDate) && year == old(year) && month == old(month)
    {
      expandedId := Toggle(expandedId, id);
    }
  }
}
