/**
 * The catalogue view-model: `studySpots` holds the latest snapshot of the
 * `studyspots` table, and `searchStudySpots` filters it by a
 * case-insensitive query on name or location and, optionally, by "free".
 */
module Catalogue {
  import opened Text
  import opened Entities
  import Seqs
  import Seeding

  /** The test `searchStudySpots` applies to one spot. */
  predicate MatchesSearch(spot: StudySpot, query: string, freeOnly: bool)
  {
    spot.Mentions(query) && (if freeOnly then spot.isFree else true)
  }

  /** `MatchesSearch` as the predicate handed to the filter. */
  function SearchTest(query: string, freeOnly: bool): StudySpot -> bool
  {
    (s: StudySpot) => MatchesSearch(s, query, freeOnly)
  }

  class StudySpotViewModel {
    var studySpots: seq<StudySpot>

    /** Before the first snapshot arrives the list is empty. */
    constructor ()
      ensures studySpots == []
    {
      studySpots := [];
    }

    /** `fetchStudySpots`, one emission of the table: the list becomes that snapshot. */
    method FetchStudySpots(snapshot: seq<StudySpot>)
      modifies this
      ensures studySpots == snapshot
    {
      studySpots := snapshot;
    }

    /**
     * `searchStudySpots`: the spots of the current list, in their order,
     * that mention the query ignoring case and, with `freeOnly`, are free;
     * every such spot is included.
     */
    function SearchStudySpots(query: string, freeOnly: bool): (r: seq<StudySpot>)
      reads this
      ensures Seqs.IsSubsequence(r, studySpots)
      ensures forall i :: 0 <= i < |r| ==> r[i].Mentions(query)
      ensures freeOnly ==> forall i :: 0 <= i < |r| ==> r[i].isFree
      ensures forall s :: s in r <==> s in studySpots && MatchesSearch(s, query, freeOnly)
      ensures forall s :: multiset(r)[s] == if MatchesSearch(s, query, freeOnly) then multiset(studySpots)[s] else 0
    {
      var keep := SearchTest(query, freeOnly);
      Seqs.FilterIsSubsequence(studySpots, keep);
      Seqs.FilterMembership(studySpots, keep);
      Seqs.FilterCounts(studySpots, keep);
      Seqs.Filter(studySpots, keep)
    }
  }

  /** Without `freeOnly` the free flag excludes nothing: the result is the query search alone. */
  lemma FreeFlagOffExcludesNothing(vm: StudySpotViewModel, query: string)
    ensures forall s :: s in vm.SearchStudySpots(query, false) <==> s in vm.studySpots && s.Mentions(query)
  {
  }

  /** The empty query with `freeOnly = false` returns the whole list. */
  lemma EmptySearchReturnsAll(vm: StudySpotViewModel)
    ensures vm.SearchStudySpots("", false) == vm.studySpots
  {
    forall i | 0 <= i < |vm.studySpots|
      ensures MatchesSearch(vm.studySpots[i], "", false)
    {
      EmptyContained(vm.studySpots[i].name);
    }
    Seqs.FilterKeepsAll(vm.studySpots, (s: StudySpot) => MatchesSearch(s, "", false));
  }

  /** "library" occurs in the folded text of the two library spots. */
  lemma LibraryMentioned()
    ensures Seeding.Seed()[0].Mentions("Library")
    ensures Seeding.Seed()[1].Mentions("Library")
  {
    var q := Fold("Library");
    var n0 := Seeding.Seed()[0].name;
    assert n0[5..12] == "Library";
    FoldSlice(n0, 5, 12);
    assert OccursAt(q, Fold(n0), 5);
    var n1 := Seeding.Seed()[1].name;
    assert n1[0..7] == "Library";
    FoldSlice(n1, 0, 7);
    assert OccursAt(q, Fold(n1), 0);
  }

  /** A text with neither 'y' nor 'Y' does not contain "Library", ignoring case. */
  lemma WithoutY(text: string)
    requires 'y' !in text && 'Y' !in text
    ensures !ContainsIgnoreCase(text, "Library")
  {
    MissingLetterNotContained(text, "Library", 'y', 'Y');
  }

  /** A text with neither 'b' nor 'B' does not contain "Library", ignoring case. */
  lemma WithoutB(text: string)
    requires 'b' !in text && 'B' !in text
    ensures !ContainsIgnoreCase(text, "Library")
  {
    MissingLetterNotContained(text, "Library", 'b', 'B');
  }

  // The free seed spots other than the two libraries each lack a letter of
  // "library" in both their name and their location, so none of them
  // mentions it.

  lemma Spot004NameNotLibrary()
    ensures !ContainsIgnoreCase("Computer Lab 205", "Library")
  {
    WithoutY("Computer Lab 205");
  }

  lemma Spot004LocationNotLibrary()
    ensures !ContainsIgnoreCase("Building C, 2nd Floor", "Library")
  {
    WithoutY("Building C, 2nd Floor");
  }

  lemma Spot005NameNotLibrary()
    ensures !ContainsIgnoreCase("Student Commons - Open Area", "Library")
  {
    WithoutY("Student Commons - Open Area");
  }

  lemma Spot005LocationNotLibrary()
    ensures !ContainsIgnoreCase("Student Center, Ground Floor", "Library")
  {
    WithoutY("Student Center, Ground Floor");
  }

  lemma Spot007NameNotLibrary()
    ensures !ContainsIgnoreCase("Outdoor Study Pavilion", "Library")
  {
    WithoutB("Outdoor Study Pavilion");
  }

  lemma Spot007LocationNotLibrary()
    ensures !ContainsIgnoreCase("Campus Garden", "Library")
  {
    WithoutB("Campus Garden");
  }

  lemma Spot009NameNotLibrary()
    ensures !ContainsIgnoreCase("24/7 Study Hall", "Library")
  {
    WithoutB("24/7 Study Hall");
  }

  lemma Spot009LocationNotLibrary()
    ensures !ContainsIgnoreCase("Building A, Ground Floor", "Library")
  {
    WithoutY("Building A, Ground Floor");
  }

  lemma Spot010NameNotLibrary()
    ensures !ContainsIgnoreCase("Cafeteria Study Area", "Library")
  {
    WithoutB("Cafeteria Study Area");
  }

  lemma Spot010LocationNotLibrary()
    ensures !ContainsIgnoreCase("Student Center, 2nd Floor", "Library")
  {
    WithoutB("Student Center, 2nd Floor");
  }

  /** Of the free seed spots, only the first two mention "Library". */
  lemma OnlyLibrariesMatch()
    ensures forall k :: 2 <= k < 10 ==> !MatchesSearch(Seeding.Seed()[k], "Library", true)
  {
    Spot004NameNotLibrary();
    Spot004LocationNotLibrary();
    Spot005NameNotLibrary();
    Spot005LocationNotLibrary();
    Spot007NameNotLibrary();
    Spot007LocationNotLibrary();
    Spot009NameNotLibrary();
    Spot009LocationNotLibrary();
    Spot010NameNotLibrary();
    Spot010LocationNotLibrary();
  }

  /** A filter that keeps the first two elements and nothing after them returns those two. */
  lemma FilterKeepsFirstTwo<T>(s: seq<T>, keep: T -> bool)
    requires |s| >= 2 && keep(s[0]) && keep(s[1])
    requires forall k :: 2 <= k < |s| ==> !keep(s[k])
    ensures Seqs.Filter(s, keep) == s[..2]
  {
    var tail := s[2..];
    forall i | 0 <= i < |tail|
      ensures !keep(tail[i])
    {
      assert tail[i] == s[i + 2];
    }
    Seqs.FilterDropsAll(tail, keep);
    assert s[1..][1..] == tail;
    assert Seqs.Filter(s[1..], keep) == [s[1]];
  }

  /** The search filter over the seed, with query "Library" and `freeOnly`, keeps the first two rows. */
  lemma LibraryFreeFilterOnSeed()
    ensures Seqs.Filter(Seeding.Seed(), SearchTest("Library", true)) == Seeding.Seed()[..2]
  {
    LibraryMentioned();
    OnlyLibrariesMatch();
    FilterKeepsFirstTwo(Seeding.Seed(), SearchTest("Library", true));
  }

  /**
   * A list whose search for "Library" among free spots is its first two
   * rows, `spot_001` and `spot_002`, gives that search result.
   */
  lemma SearchFindsFirstTwo(vm: StudySpotViewModel, table: seq<StudySpot>)
    requires vm.studySpots == table && |table| >= 2
    requires Seqs.Filter(table, SearchTest("Library", true)) == table[..2]
    requires table[0].id == "spot_001" && table[1].id == "spot_002"
    ensures vm.SearchStudySpots("Library", true) == table[..2]
    ensures |vm.SearchStudySpots("Library", true)| == 2
    ensures vm.SearchStudySpots("Library", true)[0].id == "spot_001"
    ensures vm.SearchStudySpots("Library", true)[1].id == "spot_002"
  {
  }

  /** Over the seed, searching "Library" among free spots returns exactly `spot_001` and `spot_002`. */
  lemma LibraryFreeSearchOnSeed(vm: StudySpotViewModel)
    requires vm.studySpots == Seeding.Seed()
    ensures vm.SearchStudySpots("Library", true) == Seeding.Seed()[..2]
    ensures |vm.SearchStudySpots("Library", true)| == 2
    ensures vm.SearchStudySpots("Library", true)[0].id == "spot_001"
    ensures vm.SearchStudySpots("Library", true)[1].id == "spot_002"
  {
    LibraryFreeFilterOnSeed();
    Seeding.SeedIds();
    SearchFindsFirstTwo(vm, Seeding.Seed());
  }
}
