/** The results list: one record per scraped document, kept in the order the
    documents were first scraped, and replaced in place when a document is
    scraped again (`upsert_result`). */
module Results {
  import opened Wrappers
  import opened JsonValues

  /** One entry of the output file. */
  datatype Record = Record(id: int, text: string, prompt: string, response: Option<string>, data: Option<Json>)

  /** The first index at or after `i` whose record has `id`. */
  function FindFrom(rs: seq<Record>, id: int, i: nat): (r: Option<nat>)
    ensures r.Some? ==> i <= r.value < |rs| && rs[r.value].id == id
    ensures r.Some? ==> forall j :: i <= j < r.value ==> rs[j].id != id
    ensures r.None? ==> forall j :: i <= j < |rs| ==> rs[j].id != id
    decreases |rs| - i
  {
    if i >= |rs| then None
    else if rs[i].id == id then Some(i)
    else FindFrom(rs, id, i + 1)
  }

  /** The index of the first record with `id`. */
  function FindId(rs: seq<Record>, id: int): (r: Option<nat>)
    ensures r.Some? ==> r.value < |rs| && rs[r.value].id == id
    ensures r.Some? ==> forall j :: 0 <= j < r.value ==> rs[j].id != id
    ensures r.None? ==> forall j :: 0 <= j < |rs| ==> rs[j].id != id
  {
    FindFrom(rs, id, 0)
  }

  /** The record a reader looking `id` up finds: the first one with it. */
  function Lookup(rs: seq<Record>, id: int): (r: Option<Record>)
    ensures r.Some? <==> exists j :: 0 <= j < |rs| && rs[j].id == id
    ensures r.Some? ==> r.value in rs && r.value.id == id
  {
    match FindId(rs, id)
    case None => None
    case Some(i) => Some(rs[i])
  }

  /** The ids present in the list. */
  function Ids(rs: seq<Record>): (ids: set<int>)
    ensures forall j :: 0 <= j < |rs| ==> rs[j].id in ids
    ensures forall id :: id in ids ==> exists j :: 0 <= j < |rs| && rs[j].id == id
  {
    set r | r in rs :: r.id
  }

  /** No two records share an id. */
  predicate UniqueIds(rs: seq<Record>) {
    forall i, j :: 0 <= i < j < |rs| ==> rs[i].id != rs[j].id
  }

  /** What `upsert_result(results, result)` leaves in `results`: the first
      record with the same id replaced by `result`, or `result` appended. */
  function Upserted(rs: seq<Record>, result: Record): seq<Record> {
    match FindId(rs, result.id)
    case Some(i) => rs[i := result]
    case None => rs + [result]
  }

  /** The list the run keeps in memory and writes to the output file. */
  class ResultStore {
    var entries: seq<Record>
    /** What the output file holds. */
    var saved: seq<Record>

    /** `results = json.load(f)` when the output file exists, `[]` otherwise. */
    constructor (loaded: seq<Record>)
      ensures entries == loaded && saved == loaded
    {
      entries := loaded;
      saved := loaded;
    }

    /** `upsert_result(results, result)`. */
    method Upsert(result: Record)
      modifies this
      ensures entries == Upserted(old(entries), result)
      ensures saved == old(saved)
    {
      var i := 0;
      while i < |entries|
        invariant 0 <= i <= |entries|
        invariant entries == old(entries)
        invariant forall j :: 0 <= j < i ==> entries[j].id != result.id
      {
        if entries[i].id != result.id {
          i := i + 1;
          continue;
        }
        entries := entries[i := result];
        return;
      }
      entries := entries + [result];
    }

    /** Writing the whole list to the output file. */
    method Save()
      modifies this
      ensures saved == entries && entries == old(entries)
    {
      saved := entries;
    }
  }

  /** Looking up the upserted id finds the new record; every other id finds
      what it found before. */
  lemma UpsertLookup(rs: seq<Record>, result: Record, id: int)
    ensures Lookup(Upserted(rs, result), id)
      == if id == result.id then Some(result) else Lookup(rs, id)
  {
    var out := Upserted(rs, result);
    if id == result.id {
      match FindId(rs, id)
      case Some(i) =>
        assert FindId(out, id) == Some(i) by {
          FindFirst(out, id, i);
        }
      case None =>
        assert FindId(out, id) == Some(|rs|) by {
          FindFirst(out, id, |rs|);
        }
    } else {
      match FindId(rs, id)
      case Some(k) =>
        assert out[k] == rs[k];
        FindFirst(out, id, k);
      case None =>
        assert forall j :: 0 <= j < |out| ==> out[j].id != id;
    }
  }

  /** A record with `id` preceded by none is where FindId stops. */
  lemma FindFirst(rs: seq<Record>, id: int, k: nat)
    requires k < |rs| && rs[k].id == id
    requires forall j :: 0 <= j < k ==> rs[j].id != id
    ensures FindId(rs, id) == Some(k)
  {
  }

  /** An existing id is overwritten in place: same length, same order, and
      only that record changes. */
  lemma UpsertReplaces(rs: seq<Record>, result: Record, i: nat)
    requires i < |rs| && rs[i].id == result.id
    requires forall j :: 0 <= j < i ==> rs[j].id != result.id
    ensures |Upserted(rs, result)| == |rs|
    ensures Upserted(rs, result)[i] == result
    ensures forall j :: 0 <= j < |rs| && j != i ==> Upserted(rs, result)[j] == rs[j]
  {
    FindFirst(rs, result.id, i);
  }

  /** A new id goes to the end. */
  lemma UpsertAppends(rs: seq<Record>, result: Record)
    requires result.id !in Ids(rs)
    ensures Upserted(rs, result) == rs + [result]
  {
  }

  /** The ids afterwards are the ids before plus the upserted one. */
  lemma UpsertIds(rs: seq<Record>, result: Record)
    ensures Ids(Upserted(rs, result)) == Ids(rs) + {result.id}
  {
    var out := Upserted(rs, result);
    match FindId(rs, result.id)
    case Some(i) =>
      forall id | id in Ids(rs) ensures id in Ids(out) {
        var j :| 0 <= j < |rs| && rs[j].id == id;
        if j != i {
          assert out[j] == rs[j];
        }
        assert out[j].id in Ids(out);
      }
    case None =>
  }

  /** Upserting keeps the ids unique. */
  lemma UpsertKeepsUnique(rs: seq<Record>, result: Record)
    requires UniqueIds(rs)
    ensures UniqueIds(Upserted(rs, result))
  {
  }

  /** Upserting the same record twice is the same as once. */
  lemma UpsertIdempotent(rs: seq<Record>, result: Record)
    ensures Upserted(Upserted(rs, result), result) == Upserted(rs, result)
  {
    UpsertLaterWins(rs, result, result);
  }

  /** Of two upserts with the same id, the later one wins, in the place the
      first one took. */
  lemma UpsertLaterWins(rs: seq<Record>, first: Record, second: Record)
    requires first.id == second.id
    ensures Upserted(Upserted(rs, first), second) == Upserted(rs, second)
  {
    var mid := Upserted(rs, first);
    match FindId(rs, first.id)
    case Some(i) =>
      FindFirst(mid, second.id, i);
    case None =>
      FindFirst(mid, second.id, |rs|);
  }
}
