/** The gallery screen: only diaries with a picture are kept, and the search
    box keeps those whose title contains the query, ignoring letter case. */
module Gallery {
  import opened Records
  import opened Seqs
  import Text

  datatype GalleryDiary = GalleryDiary(
    id: int,
    title: string,
    imageUrl: Option<string>,
    createdAt: string,
    mood: Option<string>)

  /** `d.image_url` is truthy: present and not the empty string. */
  predicate HasImage(d: GalleryDiary)
  {
    d.imageUrl.Some? && d.imageUrl.value != ""
  }

  /** What the screen stores from the diaries response: the diaries with a picture. */
  function StoredDiaries(data: seq<GalleryDiary>): seq<GalleryDiary>
  {
    Filter(HasImage, data)
  }

  /** The title, lower-cased, contains the lower-cased query. */
  predicate MatchesQuery(d: GalleryDiary, query: string)
  {
    Text.Contains(Text.Lower(d.title), Text.Lower(query))
  }

  /** `filteredDiaries`. */
  function Search(ds: seq<GalleryDiary>, query: string): seq<GalleryDiary>
  {
    Filter((d: GalleryDiary) => MatchesQuery(d, query), ds)
  }

  /** The footer's count: the number of diaries the search shows. */
  function FooterCount(ds: seq<GalleryDiary>, query: string): nat
  {
    |Search(ds, query)|
  }

  /** Every stored diary has a picture, and every diary of the response that has one is stored, in order. */
  lemma {:induction false} StoredDiariesSpec(data: seq<GalleryDiary>, d: GalleryDiary)
    ensures d in StoredDiaries(data) <==> d in data && HasImage(d)
    ensures IsSubseq(StoredDiaries(data), data)
  {
    FilterMembership(HasImage, data, d);
    FilterIsSubseq(HasImage, data);
  }

  /** A diary is shown exactly when it is stored and its lower-cased title has
      an occurrence of the lower-cased query; the shown diaries keep their order. */
  lemma {:induction false} SearchSpec(ds: seq<GalleryDiary>, query: string, d: GalleryDiary)
    ensures d in Search(ds, query) <==>
      d in ds && exists i :: Text.OccursAt(Text.Lower(d.title), Text.Lower(query), i)
  {
    var keep := (x: GalleryDiary) => MatchesQuery(x, query);
    FilterMembership(keep, ds, d);
    assert keep(d) == Text.Contains(Text.Lower(d.title), Text.Lower(query));
    Text.ContainsIff(Text.Lower(d.title), Text.Lower(query));
  }

  /** The shown diaries are the stored ones with some left out, in their
      stored order, and the footer never counts more than are stored. */
  lemma {:induction false} SearchKeepsOrder(ds: seq<GalleryDiary>, query: string)
    ensures IsSubseq(Search(ds, query), ds)
    ensures FooterCount(ds, query) <= |ds|
  {
    FilterIsSubseq((x: GalleryDiary) => MatchesQuery(x, query), ds);
  }

  /** An empty search box shows every stored diary, and the footer counts them all. */
  lemma {:induction false} EmptyQueryKeepsAll(ds: seq<GalleryDiary>)
    ensures Search(ds, "") == ds
    ensures FooterCount(ds, "") == |ds|
  {
    forall i | 0 <= i < |ds| ensures MatchesQuery(ds[i], "") {
      Text.ContainsEmpty(Text.Lower(ds[i].title));
    }
    FilterKeepsAll((x: GalleryDiary) => MatchesQuery(x, ""), ds);
  }

  /** Searching the search result again with the same query changes nothing. */
  lemma {:induction false} SearchIdempotent(ds: seq<GalleryDiary>, query: string)
    ensures Search(Search(ds, query), query) == Search(ds, query)
  {
    FilterIdempotent((x: GalleryDiary) => MatchesQuery(x, query), ds);
  }

  /** The case of the letters in the query does not matter. */
  lemma {:induction false} QueryCaseIgnored(ds: seq<GalleryDiary>, query: string)
    ensures Search(ds, Text.Lower(query)) == Search(ds, query)
  {
    LowerIdempotent(query);
    FilterSameTest((x: GalleryDiary) => MatchesQuery(x, Text.Lower(query)), (x: GalleryDiary) => MatchesQuery(x, query), ds);
  }

  lemma {:induction false} LowerIdempotent(s: string)
    ensures Text.Lower(Text.Lower(s)) == Text.Lower(s)
  {
    if s != [] {
      LowerIdempotent(s[1..]);
    }
  }
}
