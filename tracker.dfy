/**
 * The record store: the in-memory table of period entries, what the last
 * successful save wrote, loading at start-up and adding an entry.
 *
 * Reading and decrypting the data file, and encrypting and writing it, are
 * outside the model: a load is given as its outcome and a save as how far it
 * got before it succeeded or failed.
 */
module Tracker {
  import opened Wrappers
  import opened Records
  import opened CycleAnalysis

  /** What reading the data file at start-up produced. */
  datatype LoadOutcome =
    | NoDataFile                       // no file yet: a new, empty tracker
    | Unreadable                       // wrong key, corrupt or truncated file: reported, then empty
    | Decoded(rows: seq<Record>)       // the decrypted table, in file order

  /**
   * How a call of `save_data` ended. Opening the file for a binary write
   * empties it, so a write that fails after the open leaves it damaged.
   */
  datatype SaveOutcome =
    | FailedBeforeOpen                 // conversion, encryption or the open itself failed: the file is untouched
    | Written                          // the encrypted table was written
    | FailedAfterOpen                  // the file was emptied, then the write failed

  /** The data file as this session has left it. */
  datatype DataFile =
    | AsFound                          // not written in this session: what the load found
    | Holds(rows: seq<Record>)         // the table of the last successful save
    | Damaged                          // empty or partly written: the next load finds it unreadable

  /** The data file after one save of `rows` that ended with `outcome`. */
  function AfterSave(file: DataFile, rows: seq<Record>, outcome: SaveOutcome): (r: DataFile)
    ensures outcome == Written ==> r == Holds(rows)
    ensures outcome == FailedBeforeOpen ==> r == file
    ensures outcome == FailedAfterOpen ==> r == Damaged
  {
    match outcome
    case FailedBeforeOpen => file
    case Written => Holds(rows)
    case FailedAfterOpen => Damaged
  }

  /** The flow label an entry gets when none is given. */
  const DefaultFlow: string := "Medium"

  /** The tracker object: its table, and the data file as this session has left it. */
  class PeriodTracker {
    var records: seq<Record>
    var file: DataFile

    /** `__init__` and `load_data`: a decoded file becomes the table; a missing or unreadable one an empty table. */
    constructor (loaded: LoadOutcome)
      ensures records == (if loaded.Decoded? then loaded.rows else [])
      ensures file == AsFound
    {
      records := if loaded.Decoded? then loaded.rows else [];
      file := AsFound;
    }

    /**
     * `save_data`: the whole table is written. A failure is only reported:
     * the table stays as it is. A failure before the file is opened leaves it
     * as it was; one after the open leaves it emptied or partly written.
     */
    method SaveData(outcome: SaveOutcome)
      modifies this
      ensures records == old(records)
      ensures file == AfterSave(old(file), records, outcome)
      ensures outcome == Written ==> file == Holds(records)
      ensures outcome == FailedAfterOpen ==> file == Damaged
      ensures outcome == FailedBeforeOpen ==> file == old(file)
    {
      match outcome
      case FailedBeforeOpen =>
      case Written => file := Holds(records);
      case FailedAfterOpen => file := Damaged;
    }

    /**
     * `add_period`: with both dates parsed, the entry is appended, the table
     * re-sorted by start day and saved; if either date fails to parse, the
     * entry is rejected and neither the table nor the file changes. An absent
     * flow becomes "Medium".
     */
    method AddPeriod(start: Option<Day>, end: Option<Day>, flow: Option<string>, symptoms: string, save: SaveOutcome)
      returns (added: bool)
      modifies this
      ensures added <==> start.Some? && end.Some?
      ensures !added ==> records == old(records) && file == old(file)
      ensures added ==>
        var entry := Record(start.value, end.value, if flow.Some? then flow.value else DefaultFlow, symptoms);
        && |records| == |old(records)| + 1
        && multiset(records) == multiset(old(records)) + multiset{entry}
        && SortedByStart(records)
      ensures added ==> forall k :: 0 <= k < |Cycles(records)| ==> Cycles(records)[k] >= 0
      ensures added ==> file == AfterSave(old(file), records, save)
    {
      if start.None? || end.None? {
        return false;
      }
      var entry := Record(start.value, end.value, if flow.Some? then flow.value else DefaultFlow, symptoms);
      var appended := records + [entry];
      records := SortByStart(appended);
      SortedIffCyclesNonNegative(records);
      SaveData(save);
      added := true;
    }
  }
}
