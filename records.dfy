/**
 * The rows of the tracker's table (start_date, end_date, flow, symptoms) and
 * the re-sort by start day that every insertion performs.
 *
 * Calendar dates are whole day numbers counted from a fixed epoch, so the
 * `.days` of a difference of two dates is plain integer subtraction.
 */
module Records {

  /** A calendar date as a number of days since the epoch (1970-01-01 in the examples). */
  type Day = int

  /** One period entry. Flow and symptoms are free text, as the source stores them. */
  datatype Record = Record(start: Day, end: Day, flow: string, symptoms: string)

  /** Ascending by start day; the order of entries with equal start days is left open. */
  predicate SortedByStart(rs: seq<Record>)
  {
    forall i, j :: 0 <= i < j < |rs| ==> rs[i].start <= rs[j].start
  }

  /** Places `x` in front of the first entry that does not start before it. */
  function Insert(x: Record, rs: seq<Record>): (r: seq<Record>)
    ensures |r| == |rs| + 1
    ensures multiset(r) == multiset(rs) + multiset{x}
  {
    if rs == [] then [x]
    else if x.start <= rs[0].start then [x] + rs
    else
      assert rs == [rs[0]] + rs[1..];
      [rs[0]] + Insert(x, rs[1..])
  }

  /** Inserting into an ordered sequence keeps it ordered. */
  lemma {:induction false} InsertSorted(x: Record, rs: seq<Record>)
    requires SortedByStart(rs)
    ensures SortedByStart(Insert(x, rs))
  {
    if rs != [] && x.start > rs[0].start {
      var tail := Insert(x, rs[1..]);
      InsertSorted(x, rs[1..]);
      forall k | 0 <= k < |tail| ensures rs[0].start <= tail[k].start {
        assert tail[k] in multiset(tail);
        if tail[k] != x {
          assert tail[k] in rs[1..];
        }
      }
    }
  }

  /**
   * A sort by start day (the model of `sort_values('start_date')`): the result
   * is ordered and holds exactly the same entries.
   */
  function SortByStart(rs: seq<Record>): (r: seq<Record>)
    ensures |r| == |rs|
    ensures multiset(r) == multiset(rs)
    ensures SortedByStart(r)
  {
    if rs == [] then []
    else
      assert rs == [rs[0]] + rs[1..];
      var sortedTail := SortByStart(rs[1..]);
      InsertSorted(rs[0], sortedTail);
      Insert(rs[0], sortedTail)
  }
}
