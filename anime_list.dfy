/** The table of a collection's list and its status drop-downs. A status
    change rewrites the in-memory list only; nothing is sent to the store. */
module AnimeListView {
  import opened Types
  import opened StatusSelect

  /** One row after a status change: the new status's key if the row's
      `mal_id` matches, the row itself otherwise. */
  function UpdateRow(row: AnimeList, malId: int, newStatus: AnimeStatus): (r: AnimeList)
    ensures r.(status := row.status) == row
    ensures row.mal_id == malId ==> r.status == Key(newStatus)
    ensures row.mal_id != malId ==> r == row
  {
    if row.mal_id == malId then row.(status := Key(newStatus)) else row
  }

  /** `handleStatusChange(mal_id, newStatus)`: the list mapped row by row.
      Length and order are kept, every row with that `mal_id` (there may be
      several, as nothing makes them unique) gets the new status with all
      its other fields unchanged, and every other row is unchanged. */
  function HandleStatusChange(list: seq<AnimeList>, malId: int, newStatus: AnimeStatus): (r: seq<AnimeList>)
    ensures |r| == |list|
    ensures forall k :: 0 <= k < |r| && list[k].mal_id == malId ==>
      r[k] == list[k].(status := Key(newStatus))
    ensures forall k :: 0 <= k < |r| && list[k].mal_id != malId ==> r[k] == list[k]
  {
    seq(|list|, k requires 0 <= k < |list| => UpdateRow(list[k], malId, newStatus))
  }

  /** The count shown above the table. */
  function DisplayedCount(list: seq<AnimeList>): nat {
    |list|
  }

  /** A status change never alters the displayed count nor any row's
      identity. */
  lemma StatusChangeKeepsCountAndIds(list: seq<AnimeList>, malId: int, newStatus: AnimeStatus)
    ensures DisplayedCount(HandleStatusChange(list, malId, newStatus)) == DisplayedCount(list)
    ensures forall k :: 0 <= k < |list| ==>
      HandleStatusChange(list, malId, newStatus)[k].mal_id == list[k].mal_id
  {
  }

  /** After the change every row with that `mal_id` shows the new status. */
  lemma StatusChangeShown(list: seq<AnimeList>, malId: int, newStatus: AnimeStatus)
    ensures forall k :: 0 <= k < |list| && list[k].mal_id == malId ==>
      CurrentStatus(HandleStatusChange(list, malId, newStatus)[k].status) == newStatus
    ensures forall k :: 0 <= k < |list| && list[k].mal_id == malId ==>
      CurrentStatusAsWritten(HandleStatusChange(list, malId, newStatus)[k].status) == Key(newStatus)
  {
    CurrentStatusOfKey(newStatus);
    AsWrittenAgreesOffInheritedNames(Key(newStatus));
  }

  /** Applying the same change twice is applying it once. */
  lemma StatusChangeIdempotent(list: seq<AnimeList>, malId: int, newStatus: AnimeStatus)
    ensures HandleStatusChange(HandleStatusChange(list, malId, newStatus), malId, newStatus)
         == HandleStatusChange(list, malId, newStatus)
  {
  }

  /** Two changes of the same row: the later one wins. */
  lemma StatusChangeLastWins(list: seq<AnimeList>, malId: int, first: AnimeStatus, second: AnimeStatus)
    ensures HandleStatusChange(HandleStatusChange(list, malId, first), malId, second)
         == HandleStatusChange(list, malId, second)
  {
  }

  /** Changes of different rows do not interfere: they commute. */
  lemma StatusChangesCommute(list: seq<AnimeList>, a: int, s: AnimeStatus, b: int, t: AnimeStatus)
    requires a != b
    ensures HandleStatusChange(HandleStatusChange(list, a, s), b, t)
         == HandleStatusChange(HandleStatusChange(list, b, t), a, s)
  {
  }

  /** A change with a mal_id no row has leaves the list as it is. */
  lemma StatusChangeOfAbsentId(list: seq<AnimeList>, malId: int, newStatus: AnimeStatus)
    requires forall k :: 0 <= k < |list| ==> list[k].mal_id != malId
    ensures HandleStatusChange(list, malId, newStatus) == list
  {
  }
}
