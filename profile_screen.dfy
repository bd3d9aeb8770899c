/**
 * The add-favourite dialog of the profile screen: the spots it offers are
 * those that are not yet favourites and, for a non-empty query, mention the
 * query in their name or location, ignoring case. Unlike the search screen,
 * the dialog tests the query with `isEmpty`, not `isBlank`.
 */
module ProfileScreen {
  import opened Text
  import opened Entities
  import Seqs
  import SearchScreen

  /** The dialog's test for one spot. */
  predicate IsAvailable(studySpot: StudySpot, favoriteStudySpotIds: seq<string>, searchQuery: string)
  {
    studySpot.id !in favoriteStudySpotIds && (|searchQuery| == 0 || studySpot.Mentions(searchQuery))
  }

  /**
   * `availableStudySpots`: the spots, in their order, that are not
   * favourites and match the query; every such spot is offered.
   */
  function AvailableStudySpots(studySpots: seq<StudySpot>, favoriteStudySpotIds: seq<string>, searchQuery: string)
    : (r: seq<StudySpot>)
    ensures Seqs.IsSubsequence(r, studySpots)
    ensures forall i :: 0 <= i < |r| ==> r[i].id !in favoriteStudySpotIds
    ensures |searchQuery| > 0 ==> forall i :: 0 <= i < |r| ==> r[i].Mentions(searchQuery)
    ensures forall s :: s in r <==> s in studySpots && IsAvailable(s, favoriteStudySpotIds, searchQuery)
    ensures forall s :: multiset(r)[s]
                        == if IsAvailable(s, favoriteStudySpotIds, searchQuery) then multiset(studySpots)[s] else 0
  {
    var keep := (s: StudySpot) => IsAvailable(s, favoriteStudySpotIds, searchQuery);
    Seqs.FilterIsSubsequence(studySpots, keep);
    Seqs.FilterMembership(studySpots, keep);
    Seqs.FilterCounts(studySpots, keep);
    Seqs.Filter(studySpots, keep)
  }

  /** With the empty query the dialog offers exactly the spots that are not favourites, in order. */
  lemma EmptyQueryOffersNonFavorites(studySpots: seq<StudySpot>, favoriteStudySpotIds: seq<string>)
    ensures AvailableStudySpots(studySpots, favoriteStudySpotIds, "")
         == SearchScreen.NonFavorites(studySpots, favoriteStudySpotIds)
  {
    Seqs.FilterSameOn(studySpots,
      (s: StudySpot) => IsAvailable(s, favoriteStudySpotIds, ""),
      (s: StudySpot) => s.id !in favoriteStudySpotIds);
  }

  /**
   * A query of one space is not empty, so the dialog searches for it and
   * finds nothing in a spot without a space, while the search screen
   * treats the same blank query as no restriction and keeps the spot.
   */
  lemma SpaceQueryDiffersFromSearchScreen()
    ensures var spot := StudySpot("x", "Lab", "Roof", true, true);
            && AvailableStudySpots([spot], [], " ") == []
            && SearchScreen.FilteredSpots([spot], " ", false, false) == [spot]
  {
    var spot := StudySpot("x", "Lab", "Roof", true, true);
    assert Fold(" ") == " ";
    assert Fold("Lab") == "lab";
    assert Fold("Roof") == "roof";
    MissingCharNotSubstring(" ", "lab", ' ');
    MissingCharNotSubstring(" ", "roof", ' ');
    assert !IsAvailable(spot, [], " ");
    assert AvailableStudySpots([spot], [], " ") == [];
    BlankVersusEmpty();
    SearchScreen.NothingSelectedKeepsAll([spot], " ");
  }
}
