/**
 * The study search screen's list logic: the text / free / group-work
 * filter, the split of the filtered spots into favourites and the rest and
 * then into free and not free, and the order in which the list shows them.
 */
module SearchScreen {
  import opened Text
  import opened Entities
  import Seqs

  /** The screen's test for one spot; a blank query does not restrict. */
  predicate SpotMatches(spot: StudySpot, searchQuery: string, showOnlyFree: bool, showOnlyGroupWork: bool)
  {
    && (if IsBlank(searchQuery) then true else spot.Mentions(searchQuery))
    && (if showOnlyFree then spot.isFree else true)
    && (if showOnlyGroupWork then spot.isGroupWorkAllowed else true)
  }

  /** `SpotMatches` as the predicate handed to the filter. */
  function SpotTest(searchQuery: string, showOnlyFree: bool, showOnlyGroupWork: bool): StudySpot -> bool
  {
    (s: StudySpot) => SpotMatches(s, searchQuery, showOnlyFree, showOnlyGroupWork)
  }

  /** `filteredSpots`. */
  function FilteredSpots(studySpots: seq<StudySpot>, searchQuery: string, showOnlyFree: bool, showOnlyGroupWork: bool)
    : (r: seq<StudySpot>)
    ensures Seqs.IsSubsequence(r, studySpots)
    ensures showOnlyFree ==> forall i :: 0 <= i < |r| ==> r[i].isFree
    ensures showOnlyGroupWork ==> forall i :: 0 <= i < |r| ==> r[i].isGroupWorkAllowed
    ensures !IsBlank(searchQuery) ==> forall i :: 0 <= i < |r| ==> r[i].Mentions(searchQuery)
    ensures forall s :: s in r <==> s in studySpots && SpotMatches(s, searchQuery, showOnlyFree, showOnlyGroupWork)
    ensures forall s :: multiset(r)[s]
                        == if SpotMatches(s, searchQuery, showOnlyFree, showOnlyGroupWork) then multiset(studySpots)[s] else 0
  {
    var keep := SpotTest(searchQuery, showOnlyFree, showOnlyGroupWork);
    var r := Seqs.Filter(studySpots, keep);
    Seqs.FilterIsSubsequence(studySpots, keep);
    Seqs.FilterMembership(studySpots, keep);
    Seqs.FilterCounts(studySpots, keep);
    assert forall i :: 0 <= i < |r| ==> SpotMatches(r[i], searchQuery, showOnlyFree, showOnlyGroupWork);
    r
  }

  /** Every blank query, whitespace-only ones included, filters like the empty query. */
  lemma BlankQueryIsNeutral(studySpots: seq<StudySpot>, searchQuery: string, showOnlyFree: bool, showOnlyGroupWork: bool)
    requires IsBlank(searchQuery)
    ensures FilteredSpots(studySpots, searchQuery, showOnlyFree, showOnlyGroupWork)
         == FilteredSpots(studySpots, "", showOnlyFree, showOnlyGroupWork)
  {
    Seqs.FilterSameOn(studySpots, SpotTest(searchQuery, showOnlyFree, showOnlyGroupWork), SpotTest("", showOnlyFree, showOnlyGroupWork));
  }

  /** With both chips off and a blank query, the screen lists every spot. */
  lemma NothingSelectedKeepsAll(studySpots: seq<StudySpot>, searchQuery: string)
    requires IsBlank(searchQuery)
    ensures FilteredSpots(studySpots, searchQuery, false, false) == studySpots
  {
    Seqs.FilterKeepsAll(studySpots, SpotTest(searchQuery, false, false));
  }

  /** The four lists the screen shows, split by favourite and by free. */
  datatype Sections = Sections(
    favoriteFree: seq<StudySpot>,
    favoriteNotFree: seq<StudySpot>,
    nonFavoriteFree: seq<StudySpot>,
    nonFavoriteNotFree: seq<StudySpot>)

  function Favorites(filteredSpots: seq<StudySpot>, favoriteSpotIds: seq<string>): seq<StudySpot>
  {
    Seqs.Filter(filteredSpots, (s: StudySpot) => s.id in favoriteSpotIds)
  }

  function NonFavorites(filteredSpots: seq<StudySpot>, favoriteSpotIds: seq<string>): seq<StudySpot>
  {
    Seqs.Filter(filteredSpots, (s: StudySpot) => s.id !in favoriteSpotIds)
  }

  function Free(spots: seq<StudySpot>): seq<StudySpot>
  {
    Seqs.Filter(spots, (s: StudySpot) => s.isFree)
  }

  function NotFree(spots: seq<StudySpot>): seq<StudySpot>
  {
    Seqs.Filter(spots, (s: StudySpot) => !s.isFree)
  }

  function Split(filteredSpots: seq<StudySpot>, favoriteSpotIds: seq<string>): Sections
  {
    var favorites := Favorites(filteredSpots, favoriteSpotIds);
    var others := NonFavorites(filteredSpots, favoriteSpotIds);
    Sections(Free(favorites), NotFree(favorites), Free(others), NotFree(others))
  }

  /** Favourites and non-favourites partition the filtered list: each spot is in exactly one. */
  lemma FavoritePartition(filteredSpots: seq<StudySpot>, favoriteSpotIds: seq<string>)
    ensures multiset(Favorites(filteredSpots, favoriteSpotIds)) + multiset(NonFavorites(filteredSpots, favoriteSpotIds))
         == multiset(filteredSpots)
    ensures |Favorites(filteredSpots, favoriteSpotIds)| + |NonFavorites(filteredSpots, favoriteSpotIds)| == |filteredSpots|
    ensures forall s :: s in Favorites(filteredSpots, favoriteSpotIds) <==> s in filteredSpots && s.id in favoriteSpotIds
    ensures forall s :: s in NonFavorites(filteredSpots, favoriteSpotIds) <==> s in filteredSpots && s.id !in favoriteSpotIds
  {
    var fav := (s: StudySpot) => s.id in favoriteSpotIds;
    var other := (s: StudySpot) => s.id !in favoriteSpotIds;
    Seqs.FilterPartition(filteredSpots, fav, other);
    Seqs.FilterMembership(filteredSpots, fav);
    Seqs.FilterMembership(filteredSpots, other);
  }

  /** Free and not free partition any list. */
  lemma FreePartition(spots: seq<StudySpot>)
    ensures multiset(Free(spots)) + multiset(NotFree(spots)) == multiset(spots)
    ensures forall s :: s in Free(spots) <==> s in spots && s.isFree
    ensures forall s :: s in NotFree(spots) <==> s in spots && !s.isFree
  {
    var free := (s: StudySpot) => s.isFree;
    var notFree := (s: StudySpot) => !s.isFree;
    Seqs.FilterPartition(spots, free, notFree);
    Seqs.FilterMembership(spots, free);
    Seqs.FilterMembership(spots, notFree);
  }

  /** The four sections together hold the filtered list, each spot in the one its two flags select. */
  lemma SectionsPartition(filteredSpots: seq<StudySpot>, favoriteSpotIds: seq<string>)
    ensures var r := Split(filteredSpots, favoriteSpotIds);
            && multiset(r.favoriteFree) + multiset(r.favoriteNotFree)
               + multiset(r.nonFavoriteFree) + multiset(r.nonFavoriteNotFree) == multiset(filteredSpots)
            && (forall s :: s in r.favoriteFree <==> s in filteredSpots && s.id in favoriteSpotIds && s.isFree)
            && (forall s :: s in r.favoriteNotFree <==> s in filteredSpots && s.id in favoriteSpotIds && !s.isFree)
            && (forall s :: s in r.nonFavoriteFree <==> s in filteredSpots && s.id !in favoriteSpotIds && s.isFree)
            && (forall s :: s in r.nonFavoriteNotFree <==> s in filteredSpots && s.id !in favoriteSpotIds && !s.isFree)
  {
    FavoritePartition(filteredSpots, favoriteSpotIds);
    FreePartition(Favorites(filteredSpots, favoriteSpotIds));
    FreePartition(NonFavorites(filteredSpots, favoriteSpotIds));
  }

  /** One entry of the list: a section title, a spot card, or the "nothing found" text. */
  datatype Row = Header(title: string) | Item(spot: StudySpot, isFavorite: bool) | NothingFound

  function Cards(spots: seq<StudySpot>, isFavorite: bool): seq<Row>
  {
    seq(|spots|, i requires 0 <= i < |spots| => Item(spots[i], isFavorite))
  }

  /** A one-row title block, present only when `shown`. */
  function Title(shown: bool, row: Row): seq<Row>
  {
    if shown then [row] else []
  }

  /** The favourite free block: shown only when any filtered spot is a favourite. */
  function FavoriteFreeBlock(r: Sections, anyFavorite: bool): seq<Row>
  {
    if anyFavorite then Title(|r.favoriteFree| > 0, Header("Favorites - Free")) + Cards(r.favoriteFree, true)
    else []
  }

  /**
   * The list laid out from the four sections: the favourite free cards under
   * "Favorites - Free" (only when there is any favourite at all), the other
   * free cards under "Free", a "Not Free" title shown only when free-only is
   * off and a non-favourite spot is not free, then the favourite and the
   * other cards that are not free, and the "nothing found" text for an
   * empty filtered list.
   */
  function Layout(r: Sections, anyFavorite: bool, showOnlyFree: bool, nothingFound: bool): seq<Row>
  {
    FavoriteFreeBlock(r, anyFavorite)
    + Title(|r.nonFavoriteFree| > 0, Header("Free"))
    + Cards(r.nonFavoriteFree, false)
    + Title(!showOnlyFree && |r.nonFavoriteNotFree| > 0, Header("Not Free"))
    + Cards(r.favoriteNotFree, true)
    + Cards(r.nonFavoriteNotFree, false)
    + Title(nothingFound, NothingFound)
  }

  /** The list the screen shows for the filtered spots. */
  function Rows(filteredSpots: seq<StudySpot>, favoriteSpotIds: seq<string>, showOnlyFree: bool): seq<Row>
  {
    Layout(Split(filteredSpots, favoriteSpotIds), |Favorites(filteredSpots, favoriteSpotIds)| > 0,
           showOnlyFree, |filteredSpots| == 0)
  }

  /** The spots of the card rows, in list order. */
  function CardSpots(rows: seq<Row>): seq<StudySpot>
  {
    if rows == [] then []
    else (if rows[0].Item? then [rows[0].spot] else []) + CardSpots(rows[1..])
  }

  lemma {:induction false} CardSpotsAppend(a: seq<Row>, b: seq<Row>)
    ensures CardSpots(a + b) == CardSpots(a) + CardSpots(b)
  {
    if a == [] {
      assert a + b == b;
    } else {
      var head: seq<StudySpot> := if a[0].Item? then [a[0].spot] else [];
      assert (a + b)[0] == a[0];
      assert (a + b)[1..] == a[1..] + b;
      calc {
        CardSpots(a + b);
        head + CardSpots(a[1..] + b);
        { CardSpotsAppend(a[1..], b); }
        head + (CardSpots(a[1..]) + CardSpots(b));
        (head + CardSpots(a[1..])) + CardSpots(b);
        CardSpots(a) + CardSpots(b);
      }
    }
  }

  lemma {:induction false} CardSpotsOfCards(spots: seq<StudySpot>, isFavorite: bool)
    ensures CardSpots(Cards(spots, isFavorite)) == spots
  {
    if spots != [] {
      CardSpotsOfCards(spots[1..], isFavorite);
      assert Cards(spots, isFavorite)[1..] == Cards(spots[1..], isFavorite);
    }
  }

  lemma CardSpotsOfTitle(shown: bool, row: Row)
    requires !row.Item?
    ensures CardSpots(Title(shown, row)) == []
  {
  }

  lemma FavoriteFreeBlockCards(r: Sections, anyFavorite: bool)
    requires anyFavorite || r.favoriteFree == []
    ensures CardSpots(FavoriteFreeBlock(r, anyFavorite)) == r.favoriteFree
  {
    if anyFavorite {
      CardSpotsOfTitle(|r.favoriteFree| > 0, Header("Favorites - Free"));
      CardSpotsOfCards(r.favoriteFree, true);
      CardSpotsAppend(Title(|r.favoriteFree| > 0, Header("Favorites - Free")), Cards(r.favoriteFree, true));
    }
  }

  /** The layout's cards are the four sections in order, provided the first is empty when no spot is a favourite. */
  lemma LayoutCards(r: Sections, anyFavorite: bool, showOnlyFree: bool, nothingFound: bool)
    requires anyFavorite || r.favoriteFree == []
    ensures CardSpots(Layout(r, anyFavorite, showOnlyFree, nothingFound))
         == r.favoriteFree + r.nonFavoriteFree + r.favoriteNotFree + r.nonFavoriteNotFree
  {
    FavoriteFreeBlockCards(r, anyFavorite);
    CardSpotsOfTitle(|r.nonFavoriteFree| > 0, Header("Free"));
    CardSpotsOfTitle(!showOnlyFree && |r.nonFavoriteNotFree| > 0, Header("Not Free"));
    CardSpotsOfTitle(nothingFound, NothingFound);
    CardSpotsOfCards(r.nonFavoriteFree, false);
    CardSpotsOfCards(r.favoriteNotFree, true);
    CardSpotsOfCards(r.nonFavoriteNotFree, false);
    CardSpotsOfSeven(FavoriteFreeBlock(r, anyFavorite),
                     Title(|r.nonFavoriteFree| > 0, Header("Free")),
                     Cards(r.nonFavoriteFree, false),
                     Title(!showOnlyFree && |r.nonFavoriteNotFree| > 0, Header("Not Free")),
                     Cards(r.favoriteNotFree, true),
                     Cards(r.nonFavoriteNotFree, false),
                     Title(nothingFound, NothingFound),
                     r.favoriteFree, r.nonFavoriteFree, r.favoriteNotFree, r.nonFavoriteNotFree);
  }

  /** Cards of seven blocks, of which the second, fourth and seventh hold none. */
  lemma CardSpotsOfSeven(a: seq<Row>, b: seq<Row>, c: seq<Row>, d: seq<Row>, e: seq<Row>, f: seq<Row>, g: seq<Row>,
                         A: seq<StudySpot>, C: seq<StudySpot>, E: seq<StudySpot>, F: seq<StudySpot>)
    requires CardSpots(a) == A && CardSpots(b) == [] && CardSpots(c) == C && CardSpots(d) == []
    requires CardSpots(e) == E && CardSpots(f) == F && CardSpots(g) == []
    ensures CardSpots(a + b + c + d + e + f + g) == A + C + E + F
  {
    CardSpotsAppend(a, b);
    assert CardSpots(a + b) == A;
    CardSpotsAppend(a + b, c);
    assert CardSpots(a + b + c) == A + C;
    CardSpotsAppend(a + b + c, d);
    assert CardSpots(a + b + c + d) == A + C;
    CardSpotsAppend(a + b + c + d, e);
    assert CardSpots(a + b + c + d + e) == A + C + E;
    CardSpotsAppend(a + b + c + d + e, f);
    assert CardSpots(a + b + c + d + e + f) == A + C + E + F;
    CardSpotsAppend(a + b + c + d + e + f, g);
  }

  /** Every card of the layout comes from a section with its favourite mark. */
  lemma LayoutCardOrigin(r: Sections, anyFavorite: bool, showOnlyFree: bool, nothingFound: bool, row: Row)
    requires row in Layout(r, anyFavorite, showOnlyFree, nothingFound) && row.Item?
    ensures row.isFavorite ==> row.spot in r.favoriteFree || row.spot in r.favoriteNotFree
    ensures !row.isFavorite ==> row.spot in r.nonFavoriteFree || row.spot in r.nonFavoriteNotFree
  {
    var b0 := FavoriteFreeBlock(r, anyFavorite);
    var t1 := Title(|r.nonFavoriteFree| > 0, Header("Free"));
    var c1 := Cards(r.nonFavoriteFree, false);
    var t2 := Title(!showOnlyFree && |r.nonFavoriteNotFree| > 0, Header("Not Free"));
    var c2 := Cards(r.favoriteNotFree, true);
    var c3 := Cards(r.nonFavoriteNotFree, false);
    var t3 := Title(nothingFound, NothingFound);
    assert Layout(r, anyFavorite, showOnlyFree, nothingFound) == b0 + t1 + c1 + t2 + c2 + c3 + t3;
    assert row in b0 || row in c1 || row in c2 || row in c3;
    if row in b0 {
      assert row in Cards(r.favoriteFree, true);
      CardInCards(r.favoriteFree, true, row);
    } else if row in c1 {
      CardInCards(r.nonFavoriteFree, false, row);
    } else if row in c2 {
      CardInCards(r.favoriteNotFree, true, row);
    } else {
      CardInCards(r.nonFavoriteNotFree, false, row);
    }
  }

  lemma CardInCards(spots: seq<StudySpot>, isFavorite: bool, row: Row)
    requires row in Cards(spots, isFavorite)
    ensures row.isFavorite == isFavorite && row.spot in spots
  {
    var i :| 0 <= i < |Cards(spots, isFavorite)| && Cards(spots, isFavorite)[i] == row;
  }

  /**
   * The cards are the favourite free spots, then the other free spots, then
   * the favourite spots that are not free, then the rest; as a multiset that
   * is exactly the filtered list.
   */
  lemma RowsOrder(filteredSpots: seq<StudySpot>, favoriteSpotIds: seq<string>, showOnlyFree: bool)
    ensures var r := Split(filteredSpots, favoriteSpotIds);
            CardSpots(Rows(filteredSpots, favoriteSpotIds, showOnlyFree))
            == r.favoriteFree + r.nonFavoriteFree + r.favoriteNotFree + r.nonFavoriteNotFree
    ensures multiset(CardSpots(Rows(filteredSpots, favoriteSpotIds, showOnlyFree))) == multiset(filteredSpots)
  {
    var r := Split(filteredSpots, favoriteSpotIds);
    var favorites := Favorites(filteredSpots, favoriteSpotIds);
    if |favorites| == 0 {
      assert r.favoriteFree == Free(favorites) == [];
    }
    LayoutCards(r, |favorites| > 0, showOnlyFree, |filteredSpots| == 0);
    SectionsPartition(filteredSpots, favoriteSpotIds);
  }

  /** Every card is marked as a favourite exactly when its spot's id is among the user's favourites. */
  lemma CardsMarkFavorites(filteredSpots: seq<StudySpot>, favoriteSpotIds: seq<string>, showOnlyFree: bool)
    ensures forall row :: row in Rows(filteredSpots, favoriteSpotIds, showOnlyFree) && row.Item? ==>
              (row.isFavorite <==> row.spot.id in favoriteSpotIds)
  {
    var r := Split(filteredSpots, favoriteSpotIds);
    SectionsPartition(filteredSpots, favoriteSpotIds);
    forall row | row in Rows(filteredSpots, favoriteSpotIds, showOnlyFree) && row.Item?
      ensures row.isFavorite <==> row.spot.id in favoriteSpotIds
    {
      LayoutCardOrigin(r, |Favorites(filteredSpots, favoriteSpotIds)| > 0, showOnlyFree, |filteredSpots| == 0, row);
    }
  }
}
