/**
 * The read queries on the `studyspots` table: the full scan and the point
 * lookup by id with `LIMIT 1`. The table is the sequence of its rows in
 * scan order.
 */
module StudySpotDao {
  import opened Entities

  /** No two rows share an id. */
  predicate DistinctIds(table: seq<StudySpot>)
  {
    forall i, j :: 0 <= i < j < |table| ==> table[i].id != table[j].id
  }

  /** `SELECT * FROM studyspots`: every row, each as often as it is stored. */
  function GetAllStudySpots(table: seq<StudySpot>): (r: seq<StudySpot>)
    ensures multiset(r) == multiset(table)
  {
    table
  }

  /**
   * `SELECT * FROM studyspots WHERE id = :studySpotId LIMIT 1`: one row with
   * that id when there is one (the first in scan order), none otherwise.
   */
  function GetStudySpotById(table: seq<StudySpot>, studySpotId: string): (r: Option<StudySpot>)
    ensures r.Some? <==> exists i :: 0 <= i < |table| && table[i].id == studySpotId
    ensures r.Some? ==> r.value in table && r.value.id == studySpotId
  {
    if table == [] then None
    else if table[0].id == studySpotId then Some(table[0])
    else GetStudySpotById(table[1..], studySpotId)
  }

  /** With distinct ids, looking up a row's id returns that very row. */
  lemma {:induction false} LookupFindsRow(table: seq<StudySpot>, spot: StudySpot)
    requires DistinctIds(table) && spot in table
    ensures GetStudySpotById(table, spot.id) == Some(spot)
  {
    if table[0] != spot {
      assert spot in table[1..];
      var k :| 0 <= k < |table[1..]| && table[1..][k] == spot;
      assert table[0].id != table[k + 1].id;
      LookupFindsRow(table[1..], spot);
    }
  }
}
