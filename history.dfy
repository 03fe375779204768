/**
  The JSON history store (`db.py`): the list logic of `Database.save_result`.
  The file is an abstract `FileState` that says what reading and decoding it
  gives; the clock reading is a parameter.
*/
module History {
  import opened Options
  import RootAnalyzer

  /** One saved analysis: `{"id", "timestamp", "source", "metrics"}`. */
  datatype Record = Record(id: int, timestamp: string, source: string, metrics: RootAnalyzer.AnalyzeResult)

  /** What `save_result` finds when it reads the history file. */
  datatype FileState =
    | Missing                        // `os.path.exists` is false
    | Blank                          // the content is empty after `strip()`
    | Corrupt                        // `json.loads` raises `JSONDecodeError`
    | NotAList                       // decodes, but to a value on which `len` or `append` raises
    | Stored(records: seq<Record>)   // a decoded list of records

  /** The list `save_result` starts from, or `None` when loading it raises. */
  function Load(f: FileState): (r: Option<seq<Record>>)
    ensures r.None? <==> f.NotAList?
    ensures f.Stored? ==> r == Some(f.records)
    ensures f.Missing? || f.Blank? || f.Corrupt? ==> r == Some([])
  {
    match f
    case Missing => Some([])
    case Blank => Some([])
    case Corrupt => Some([])
    case NotAList => None
    case Stored(rs) => Some(rs)
  }

  /** The list with the next record appended: its id is the old length plus one. */
  function Append(rs: seq<Record>, source: string, metrics: RootAnalyzer.AnalyzeResult, now: string): (r: seq<Record>)
    ensures |r| == |rs| + 1 && r[..|rs|] == rs
    ensures r[|rs|].id == |rs| + 1
    ensures r[|rs|].source == source && r[|rs|].metrics == metrics && r[|rs|].timestamp == now
  {
    rs + [Record(|rs| + 1, now, source, metrics)]
  }

  /** The list written back by `save_result`, or `None` when it raises. */
  function Save(f: FileState, source: string, metrics: RootAnalyzer.AnalyzeResult, now: string): (r: Option<seq<Record>>)
    ensures r.None? <==> f.NotAList?
    ensures r.Some? ==> |r.value| >= 1 && r.value[|r.value| - 1] == Record(|r.value|, now, source, metrics)
    ensures f.Stored? ==> r.Some? && |r.value| == |f.records| + 1 && r.value[..|f.records|] == f.records
    ensures f.Missing? || f.Blank? || f.Corrupt? ==> r.Some? && |r.value| == 1
  {
    match Load(f)
    case None => None
    case Some(rs) => Some(Append(rs, source, metrics, now))
  }

  class Database {
    const dbPath: string
    var file: FileState

    /** `__init__` and `_init_db`: a missing file is created holding an empty list. */
    constructor (dbPath: string, initial: FileState)
      ensures this.dbPath == dbPath
      ensures file == if initial.Missing? then Stored([]) else initial
    {
      this.dbPath := dbPath;
      if initial.Missing? {
        file := Stored([]);
      } else {
        file := initial;
      }
    }

    /**
      `save_result`: load the list (an empty one for a missing, blank or
      corrupt file), append a record numbered one past the end, write the list
      back and return the new id. A file that does not decode to a list makes
      it raise: the file is left as it was and no id is returned.
    */
    method SaveResult(source: string, result: RootAnalyzer.AnalyzeResult, now: string) returns (id: Option<int>)
      modifies this
      ensures Save(old(file), source, result, now).None? ==> id == None && file == old(file)
      ensures Save(old(file), source, result, now).Some? ==>
        file == Stored(Save(old(file), source, result, now).value)
        && id == Some(|Save(old(file), source, result, now).value|)
    {
      var data: seq<Record> := [];
      match file {
        case Missing =>
        case Blank =>
        case Corrupt =>
          data := [];
        case NotAList =>
          return None;
        case Stored(rs) =>
          data := rs;
      }
      var record := Record(|data| + 1, now, source, result);
      data := data + [record];
      file := Stored(data);
      id := Some(record.id);
    }
  }

  /** Saving to a readable list appends exactly one record, numbered one past the end, and keeps earlier records. */
  lemma SaveAppendsOne(rs: seq<Record>, source: string, metrics: RootAnalyzer.AnalyzeResult, now: string)
    ensures Save(Stored(rs), source, metrics, now).Some?
    ensures var r := Save(Stored(rs), source, metrics, now).value;
      |r| == |rs| + 1 && r[..|rs|] == rs && r[|rs|] == Record(|rs| + 1, now, source, metrics)
  {
  }

  /** A missing, blank or corrupt file is treated as an empty list: afterwards it holds one record, with id 1. */
  lemma SaveResetsUnreadable(f: FileState, source: string, metrics: RootAnalyzer.AnalyzeResult, now: string)
    requires f.Missing? || f.Blank? || f.Corrupt?
    ensures Save(f, source, metrics, now) == Some([Record(1, now, source, metrics)])
  {
  }

  /** The ids of a list are 1, 2, …, in order. */
  predicate ContiguousIds(rs: seq<Record>)
  {
    forall i :: 0 <= i < |rs| ==> rs[i].id == i + 1
  }

  /** Contiguous ids are strictly increasing. */
  lemma ContiguousIdsIncrease(rs: seq<Record>, i: int, j: int)
    requires ContiguousIds(rs) && 0 <= i < j < |rs|
    ensures rs[i].id < rs[j].id
  {
  }

  /** One pending call to `save_result`. */
  datatype Entry = Entry(source: string, metrics: RootAnalyzer.AnalyzeResult, timestamp: string)

  /** The list after saving each entry in turn. */
  function SaveAll(rs: seq<Record>, es: seq<Entry>): seq<Record>
    decreases |es|
  {
    if es == [] then rs
    else SaveAll(Append(rs, es[0].source, es[0].metrics, es[0].timestamp), es[1..])
  }

  /**
    Successive saves keep the earlier records, add one record per save in call
    order, and keep the ids contiguous.
  */
  lemma {:induction false} SaveAllKeepsContiguous(rs: seq<Record>, es: seq<Entry>)
    requires ContiguousIds(rs)
    ensures var r := SaveAll(rs, es);
      && |r| == |rs| + |es| && r[..|rs|] == rs && ContiguousIds(r)
      && forall j :: 0 <= j < |es| ==> r[|rs| + j].source == es[j].source && r[|rs| + j].metrics == es[j].metrics
    decreases |es|
  {
    if es != [] {
      var next := Append(rs, es[0].source, es[0].metrics, es[0].timestamp);
      assert ContiguousIds(next);
      SaveAllKeepsContiguous(next, es[1..]);
      var r := SaveAll(next, es[1..]);
      assert r[..|rs|] == rs by {
        assert r[..|rs|] == r[..|next|][..|rs|];
      }
      forall j | 0 <= j < |es|
        ensures r[|rs| + j].source == es[j].source && r[|rs| + j].metrics == es[j].metrics
      {
        if j == 0 {
          assert r[|rs|] == r[..|next|][|rs|];
        } else {
          assert es[j] == es[1..][j - 1];
          assert |rs| + j == |next| + (j - 1);
        }
      }
    }
  }

  /** Starting from an empty store, N saves give ids 1 to N. */
  lemma SavesFromEmpty(es: seq<Entry>)
    ensures |SaveAll([], es)| == |es| && ContiguousIds(SaveAll([], es))
  {
    SaveAllKeepsContiguous([], es);
  }

  /** Two saves to a fresh store: the ids returned continue the list that loading the file gives. */
  method SaveTwice(dbPath: string, initial: FileState, first: RootAnalyzer.AnalyzeResult,
                   second: RootAnalyzer.AnalyzeResult, now: string)
    returns (id1: Option<int>, id2: Option<int>)
    ensures initial.NotAList? ==> id1 == None && id2 == None
    ensures initial.Missing? || initial.Blank? || initial.Corrupt? ==> id1 == Some(1) && id2 == Some(2)
    ensures initial.Stored? ==> id1 == Some(|initial.records| + 1) && id2 == Some(|initial.records| + 2)
  {
    var db := new Database(dbPath, initial);
    id1 := db.SaveResult("text_input", first, now);
    id2 := db.SaveResult("text_input", second, now);
  }
}
