/**
 * The study-spot database callback: `onCreate` inserts the ten seed rows,
 * `onOpen` counts the rows of `studyspots` and inserts the seed only when
 * the count is zero.
 */
module Seeding {
  import opened Entities
  import opened StudySpotDao
  import Seqs

  /** The ten rows of `insertInitialData`, in the order of its `VALUES` list. */
  function Seed(): seq<StudySpot>
  {
    [ StudySpot("spot_001", "Main Library - Silent Zone", "Building A, 3rd Floor", false, true),
      StudySpot("spot_002", "Library Group Study Room A", "Building A, 2nd Floor", true, true),
      StudySpot("spot_003", "Engineering Lab 301", "Building B, 3rd Floor", true, false),
      StudySpot("spot_004", "Computer Lab 205", "Building C, 2nd Floor", false, true),
      StudySpot("spot_005", "Student Commons - Open Area", "Student Center, Ground Floor", true, true),
      StudySpot("spot_006", "Quiet Study Lounge", "Building D, 4th Floor", false, false),
      StudySpot("spot_007", "Outdoor Study Pavilion", "Campus Garden", true, true),
      StudySpot("spot_008", "Media Center Workshop", "Building E, 1st Floor", true, false),
      StudySpot("spot_009", "24/7 Study Hall", "Building A, Ground Floor", false, true),
      StudySpot("spot_010", "Cafeteria Study Area", "Student Center, 2nd Floor", true, true) ]
  }

  /** Some seed id is already a row's id, so the `INSERT` would violate the key. */
  predicate SeedConflicts(table: seq<StudySpot>)
  {
    exists i, j :: 0 <= i < |table| && 0 <= j < |Seed()| && table[i].id == Seed()[j].id
  }

  /** The seed has ten rows, with ids `spot_001` to `spot_010` in order. */
  lemma SeedIds()
    ensures |Seed()| == 10
    ensures Seed()[0].id == "spot_001" && Seed()[1].id == "spot_002" && Seed()[2].id == "spot_003"
    ensures Seed()[3].id == "spot_004" && Seed()[4].id == "spot_005" && Seed()[5].id == "spot_006"
    ensures Seed()[6].id == "spot_007" && Seed()[7].id == "spot_008" && Seed()[8].id == "spot_009"
    ensures Seed()[9].id == "spot_010"
  {
  }

  /** No id occurs twice in the seed. */
  lemma SeedIdsDistinct()
    ensures DistinctIds(Seed())
  {
    SeedIds();
    var s := Seed();
    forall i, j | 0 <= i < j < |s|
      ensures s[i].id != s[j].id
    {
      assert s[i].id[7] != s[j].id[7];
    }
  }

  /** Counting the free ones among ten spots whose free flags are, in order, yes yes no yes yes no yes no yes yes. */
  lemma {:induction false} FreeOfTen(s: seq<StudySpot>, free: StudySpot -> bool)
    requires |s| == 10 && forall x :: free(x) == x.isFree
    requires s[0].isFree && s[1].isFree && !s[2].isFree && s[3].isFree && s[4].isFree
    requires !s[5].isFree && s[6].isFree && !s[7].isFree && s[8].isFree && s[9].isFree
    ensures |Seqs.Filter(s, free)| == 7
  {
    Seqs.FilterFrom(s, 9, free);
    Seqs.FilterFrom(s, 8, free);
    Seqs.FilterFrom(s, 7, free);
    Seqs.FilterFrom(s, 6, free);
    Seqs.FilterFrom(s, 5, free);
    Seqs.FilterFrom(s, 4, free);
    Seqs.FilterFrom(s, 3, free);
    Seqs.FilterFrom(s, 2, free);
    Seqs.FilterFrom(s, 1, free);
    Seqs.FilterFrom(s, 0, free);
    assert s[10..] == [] && s[0..] == s;
  }

  /** Counting the group-work ones among ten spots whose flags are, in order, no yes yes no yes no yes yes no yes. */
  lemma {:induction false} GroupWorkOfTen(s: seq<StudySpot>, group: StudySpot -> bool)
    requires |s| == 10 && forall x :: group(x) == x.isGroupWorkAllowed
    requires !s[0].isGroupWorkAllowed && s[1].isGroupWorkAllowed && s[2].isGroupWorkAllowed
    requires !s[3].isGroupWorkAllowed && s[4].isGroupWorkAllowed && !s[5].isGroupWorkAllowed
    requires s[6].isGroupWorkAllowed && s[7].isGroupWorkAllowed && !s[8].isGroupWorkAllowed
    requires s[9].isGroupWorkAllowed
    ensures |Seqs.Filter(s, group)| == 6
  {
    Seqs.FilterFrom(s, 9, group);
    Seqs.FilterFrom(s, 8, group);
    Seqs.FilterFrom(s, 7, group);
    Seqs.FilterFrom(s, 6, group);
    Seqs.FilterFrom(s, 5, group);
    Seqs.FilterFrom(s, 4, group);
    Seqs.FilterFrom(s, 3, group);
    Seqs.FilterFrom(s, 2, group);
    Seqs.FilterFrom(s, 1, group);
    Seqs.FilterFrom(s, 0, group);
    assert s[10..] == [] && s[0..] == s;
  }

  /** The free and group-work flags of the seed rows, in order. */
  lemma SeedRowFlags()
    ensures |Seed()| == 10
    ensures Seed()[0].isFree && Seed()[1].isFree && !Seed()[2].isFree && Seed()[3].isFree && Seed()[4].isFree
    ensures !Seed()[5].isFree && Seed()[6].isFree && !Seed()[7].isFree && Seed()[8].isFree && Seed()[9].isFree
    ensures !Seed()[0].isGroupWorkAllowed && Seed()[1].isGroupWorkAllowed && Seed()[2].isGroupWorkAllowed
    ensures !Seed()[3].isGroupWorkAllowed && Seed()[4].isGroupWorkAllowed && !Seed()[5].isGroupWorkAllowed
    ensures Seed()[6].isGroupWorkAllowed && Seed()[7].isGroupWorkAllowed && !Seed()[8].isGroupWorkAllowed
    ensures Seed()[9].isGroupWorkAllowed
  {
  }

  predicate IsFree(spot: StudySpot)
  {
    spot.isFree
  }

  predicate AllowsGroupWork(spot: StudySpot)
  {
    spot.isGroupWorkAllowed
  }

  /** Seven seed spots are free: all but `spot_003`, `spot_006` and `spot_008`. */
  lemma SeedFreeSpots()
    ensures |Seqs.Filter(Seed(), IsFree)| == 7
  {
    SeedRowFlags();
    FreeOfTen(Seed(), IsFree);
  }

  /** Six seed spots allow group work, the third (`spot_003`) among them although it is not free. */
  lemma SeedGroupWorkSpots()
    ensures |Seqs.Filter(Seed(), AllowsGroupWork)| == 6
    ensures Seed()[2].isGroupWorkAllowed && !Seed()[2].isFree
  {
    SeedRowFlags();
    GroupWorkOfTen(Seed(), AllowsGroupWork);
  }

  /** The `studyspots` table with the seeding callback. */
  class StudySpotDatabase {
    var studyspots: seq<StudySpot>

    ghost predicate Valid()
      reads this
    {
      DistinctIds(studyspots)
    }

    /** A freshly created database: the table exists and is empty. */
    constructor ()
      ensures Valid() && studyspots == []
    {
      studyspots := [];
    }

    /**
     * `insertInitialData`: one `INSERT` of the ten seed rows. It is atomic:
     * when a seed id is already taken it fails and inserts none of them.
     */
    method InsertInitialData() returns (ok: bool)
      requires Valid()
      modifies this
      ensures Valid()
      ensures ok <==> !SeedConflicts(old(studyspots))
      ensures ok ==> studyspots == old(studyspots) + Seed()
      ensures !ok ==> studyspots == old(studyspots)
    {
      if SeedConflicts(studyspots) {
        ok := false;
      } else {
        SeedIdsDistinct();
        var t := studyspots + Seed();
        forall i, j | 0 <= i < j < |t|
          ensures t[i].id != t[j].id
        {
          if j >= |studyspots| && i < |studyspots| {
            assert Seed()[j - |studyspots|] == t[j];
          } else if i >= |studyspots| {
            assert Seed()[i - |studyspots|] == t[i] && Seed()[j - |studyspots|] == t[j];
          }
        }
        studyspots := t;
        ok := true;
      }
    }

    /** `onCreate`: insert the seed. */
    method OnCreate() returns (ok: bool)
      requires Valid()
      modifies this
      ensures Valid()
      ensures ok <==> !SeedConflicts(old(studyspots))
      ensures ok ==> studyspots == old(studyspots) + Seed()
      ensures !ok ==> studyspots == old(studyspots)
    {
      ok := InsertInitialData();
    }

    /** `onOpen`: count the rows and insert the seed only into an empty table. */
    method OnOpen()
      requires Valid()
      modifies this
      ensures Valid()
      ensures old(studyspots) == [] ==> studyspots == Seed()
      ensures old(studyspots) != [] ==> studyspots == old(studyspots)
    {
      var count := |studyspots|;
      if count == 0 {
        var _ := InsertInitialData();
      }
    }
  }

  /**
   * The first start: the database is created (`onCreate`) and then opened
   * (`onOpen`). The table ends with the ten seed rows exactly once, and a
   * further open leaves it so.
   */
  method FirstStart() returns (db: StudySpotDatabase)
    ensures db.Valid() && db.studyspots == Seed()
  {
    db := new StudySpotDatabase();
    var created := db.OnCreate();
    db.OnOpen();
    db.OnOpen();
  }
}
