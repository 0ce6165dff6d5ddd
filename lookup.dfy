/**
 * The batch lookup with per-item fallback of `twitter_functions.py`
 * (`lookup_users_from_ids` and `lookup_users_from_handles`, which differ only
 * in the keyword they pass to the remote call). The remote service is given
 * as two oracles: a bulk lookup of a chunk and a lookup of one identifier.
 */
module Lookup {
  import opened Wrappers
  import opened UserRecords
  import opened Batching

  /** The number of identifiers `grouper` puts in one bulk request. */
  const BatchSize := 100

  /** What a lookup has gathered: `ret_dict`, `total_processed` and `failures`. */
  datatype Tally = Tally(users: map<Value, UserRecord>, processed: nat, failures: nat)

  /**
   * How a lookup ends: it returns what it gathered, or a record built after a
   * successful single-item retry raised out of it (that call is outside the
   * inner `try`, so nothing catches it).
   */
  datatype Outcome = Returned(tally: Tally) | Raised

  /** The chunks the loop works on: the groups of `grouper(100, ids)`, `None`s dropped. */
  function Chunks<Id>(ids: seq<Option<Id>>): seq<seq<Id>>
  {
    FilterEach(Grouper(BatchSize, ids, None))
  }

  /**
   * The chunks hold every present identifier once, in input order, at most
   * 100 to a chunk; every `None`, the input's own included, is dropped.
   */
  lemma ChunksCoverInput<Id>(ids: seq<Option<Id>>)
    ensures Flatten(Chunks(ids)) == Present(ids)
    ensures forall c :: c in Chunks(ids) ==> |c| <= BatchSize
  {
    var groups := Grouper(BatchSize, ids, None);
    var pads := |Flatten(groups)| - |ids|;
    FlattenFilterEach(groups);
    PresentAppend(ids, Repeat(None, pads));
    PresentOfPads<Id>(pads);
    forall c | c in Chunks(ids) ensures |c| <= BatchSize {
      var i :| 0 <= i < |groups| && c == Present(groups[i]);
      assert groups[i] in groups;
    }
  }

  // ---------------------------------------------------------------------
  // The bulk call's record loop (lines 131-132)
  // ---------------------------------------------------------------------

  /** The `'id'` values of the objects that have one. */
  function IdsOf(raws: seq<Raw>): set<Value>
  {
    set i | 0 <= i < |raws| && "id" in raws[i] :: raws[i]["id"]
  }

  /** No object after position `i` carries the same `'id'` as the one at `i`. */
  ghost predicate LastWithId(raws: seq<Raw>, i: int)
    requires 0 <= i < |raws| && "id" in raws[i]
  {
    forall j :: i < j < |raws| && "id" in raws[j] ==> raws[j]["id"] != raws[i]["id"]
  }

  /**
   * Stores each object's record under its `'id'`, in order, later ones
   * overwriting earlier ones; stops at the first object whose record cannot
   * be built. Gives the map and whether every record was built.
   */
  function StoreBatch(users: map<Value, UserRecord>, raws: seq<Raw>): (map<Value, UserRecord>, bool)
    decreases |raws|
  {
    if raws == [] then (users, true)
    else match BuildUserRecord(raws[0])
      case None => (users, false)
      case Some(rec) => StoreBatch(users[raws[0]["id"] := rec], raws[1..])
  }

  /** The position of the first object that has no record, or the length when there is none. */
  function FirstUnbuildable(raws: seq<Raw>): (f: nat)
    ensures f <= |raws|
    ensures forall i :: 0 <= i < f ==> BuildUserRecord(raws[i]).Some?
    ensures f < |raws| ==> BuildUserRecord(raws[f]).None?
  {
    if raws == [] || BuildUserRecord(raws[0]).None? then 0
    else 1 + FirstUnbuildable(raws[1..])
  }

  lemma IdsOfCons(raws: seq<Raw>)
    requires raws != [] && "id" in raws[0]
    ensures IdsOf(raws) == {raws[0]["id"]} + IdsOf(raws[1..])
  {
    var rest := raws[1..];
    forall v | v in IdsOf(raws) ensures v in {raws[0]["id"]} + IdsOf(rest) {
      var i :| 0 <= i < |raws| && "id" in raws[i] && raws[i]["id"] == v;
      if i > 0 { assert rest[i - 1] == raws[i]; }
    }
    forall v | v in IdsOf(rest) ensures v in IdsOf(raws) {
      var i :| 0 <= i < |rest| && "id" in rest[i] && rest[i]["id"] == v;
      assert raws[i + 1] == rest[i];
    }
  }

  /**
   * When every record builds, the loop completes, the map gains exactly the
   * objects' `'id'`s, and every entry under another key is left as it was.
   */
  lemma {:induction false} StoreBatchComplete(users: map<Value, UserRecord>, raws: seq<Raw>)
    requires forall i :: 0 <= i < |raws| ==> BuildUserRecord(raws[i]).Some?
    ensures StoreBatch(users, raws).1
    ensures StoreBatch(users, raws).0.Keys == users.Keys + IdsOf(raws)
    ensures forall k :: k in users && k !in IdsOf(raws) ==> StoreBatch(users, raws).0[k] == users[k]
    decreases |raws|
  {
    if raws != [] {
      var rec := BuildUserRecord(raws[0]).value;
      var rest := raws[1..];
      forall i | 0 <= i < |rest| ensures BuildUserRecord(rest[i]).Some? {
        assert rest[i] == raws[i + 1];
      }
      StoreBatchComplete(users[raws[0]["id"] := rec], rest);
      IdsOfCons(raws);
    }
  }

  /** When every record builds, each `'id'` holds the record of the last object carrying it. */
  lemma {:induction false} StoreBatchLastWins(users: map<Value, UserRecord>, raws: seq<Raw>)
    requires forall i :: 0 <= i < |raws| ==> BuildUserRecord(raws[i]).Some?
    ensures forall i :: 0 <= i < |raws| && "id" in raws[i] && LastWithId(raws, i) ==>
      raws[i]["id"] in StoreBatch(users, raws).0 &&
      StoreBatch(users, raws).0[raws[i]["id"]] == BuildUserRecord(raws[i]).value
    decreases |raws|
  {
    if raws != [] {
      var rec := BuildUserRecord(raws[0]).value;
      var id := raws[0]["id"];
      var rest := raws[1..];
      forall i | 0 <= i < |rest| ensures BuildUserRecord(rest[i]).Some? {
        assert rest[i] == raws[i + 1];
      }
      StoreBatchLastWins(users[id := rec], rest);
      StoreBatchComplete(users[id := rec], rest);
      var out := StoreBatch(users, raws).0;
      assert out == StoreBatch(users[id := rec], rest).0;
      forall i | 0 <= i < |raws| && "id" in raws[i] && LastWithId(raws, i)
        ensures out[raws[i]["id"]] == BuildUserRecord(raws[i]).value
      {
        if i > 0 {
          LastWithIdTail(raws, i);
        } else {
          LastWithIdHead(raws);
        }
      }
    }
  }

  lemma LastWithIdTail(raws: seq<Raw>, i: int)
    requires 0 < i < |raws| && "id" in raws[i] && LastWithId(raws, i)
    ensures raws[1..][i - 1] == raws[i] && LastWithId(raws[1..], i - 1)
  {
    forall j | 0 <= j < |raws| - 1 ensures raws[1..][j] == raws[j + 1] { }
  }

  lemma LastWithIdHead(raws: seq<Raw>)
    requires raws != [] && "id" in raws[0] && LastWithId(raws, 0)
    ensures raws[0]["id"] !in IdsOf(raws[1..])
  {
    forall j | 0 <= j < |raws| - 1 ensures raws[1..][j] == raws[j + 1] { }
  }

  /**
   * The record loop keeps what it stored before the first object without a
   * record, and reports completion exactly when there is no such object.
   */
  lemma {:induction false} StoreBatchKeepsPrefix(users: map<Value, UserRecord>, raws: seq<Raw>)
    ensures StoreBatch(users, raws).1 <==> FirstUnbuildable(raws) == |raws|
    ensures StoreBatch(users, raws).0 == StoreBatch(users, raws[..FirstUnbuildable(raws)]).0
    decreases |raws|
  {
    if raws != [] && BuildUserRecord(raws[0]).Some? {
      var rec := BuildUserRecord(raws[0]).value;
      var f := FirstUnbuildable(raws);
      StoreBatchKeepsPrefix(users[raws[0]["id"] := rec], raws[1..]);
      assert raws[..f][1..] == raws[1..][..f - 1];
    }
  }

  // ---------------------------------------------------------------------
  // The per-item fallback (lines 133-146)
  // ---------------------------------------------------------------------

  /**
   * Retries every identifier of the chunk alone, in order, with no early
   * exit: a failing call counts one failure and stores nothing, a successful
   * one counts one processed item and stores its record under its `'id'`,
   * and a record that cannot be built raises out of the whole lookup.
   */
  function Fallback<Id>(t: Tally, chunk: seq<Id>, single: Id -> Reply<Raw>): Outcome
    decreases |chunk|
  {
    if chunk == [] then Returned(t)
    else match single(chunk[0])
      case Fail => Fallback(t.(failures := t.failures + 1), chunk[1..], single)
      case Ok(raw) =>
        match BuildUserRecord(raw)
        case None => Raised
        case Some(rec) =>
          Fallback(Tally(t.users[raw["id"] := rec], t.processed + 1, t.failures), chunk[1..], single)
  }

  /** The number of identifiers of the chunk whose single lookup fails. */
  function FailCount<Id>(chunk: seq<Id>, single: Id -> Reply<Raw>): (n: nat)
    ensures n <= |chunk|
  {
    if chunk == [] then 0
    else (if single(chunk[0]).Fail? then 1 else 0) + FailCount(chunk[1..], single)
  }

  /**
   * The count is zero exactly when every single lookup of the chunk succeeds,
   * and the chunk's length exactly when every one fails.
   */
  lemma {:induction false} FailCountExtremes<Id>(chunk: seq<Id>, single: Id -> Reply<Raw>)
    ensures FailCount(chunk, single) == 0 <==> forall k :: 0 <= k < |chunk| ==> single(chunk[k]).Ok?
    ensures FailCount(chunk, single) == |chunk| <==> forall k :: 0 <= k < |chunk| ==> single(chunk[k]).Fail?
    decreases |chunk|
  {
    if chunk != [] {
      FailCountExtremes(chunk[1..], single);
      forall k | 0 < k < |chunk| ensures chunk[1..][k - 1] == chunk[k] { }
    }
  }

  /** The `'id'`s of the objects the single lookups of the chunk return. */
  function AnsweredIds<Id>(chunk: seq<Id>, single: Id -> Reply<Raw>): set<Value>
  {
    set k | 0 <= k < |chunk| && single(chunk[k]).Ok? && "id" in single(chunk[k]).value
      :: single(chunk[k]).value["id"]
  }

  lemma AnsweredIdsCons<Id>(chunk: seq<Id>, single: Id -> Reply<Raw>)
    requires chunk != []
    ensures AnsweredIds(chunk, single) ==
      (if single(chunk[0]).Ok? && "id" in single(chunk[0]).value then {single(chunk[0]).value["id"]} else {})
      + AnsweredIds(chunk[1..], single)
  {
    var rest := chunk[1..];
    forall v | v in AnsweredIds(rest, single) ensures v in AnsweredIds(chunk, single) {
      var k :| 0 <= k < |rest| && single(rest[k]).Ok? && "id" in single(rest[k]).value
        && single(rest[k]).value["id"] == v;
      assert chunk[k + 1] == rest[k];
    }
    forall v | v in AnsweredIds(chunk, single) ensures v in
      (if single(chunk[0]).Ok? && "id" in single(chunk[0]).value then {single(chunk[0]).value["id"]} else {})
      + AnsweredIds(rest, single)
    {
      var k :| 0 <= k < |chunk| && single(chunk[k]).Ok? && "id" in single(chunk[k]).value
        && single(chunk[k]).value["id"] == v;
      if k > 0 { assert rest[k - 1] == chunk[k]; }
    }
  }

  /**
   * The fallback raises out of the lookup exactly when some identifier's
   * single lookup succeeds with an object that has no record.
   */
  lemma {:induction false} FallbackRaisesOnUnbuildable<Id>(t: Tally, chunk: seq<Id>, single: Id -> Reply<Raw>)
    ensures Fallback(t, chunk, single).Raised? <==>
      exists k :: 0 <= k < |chunk| && single(chunk[k]).Ok? && BuildUserRecord(single(chunk[k]).value).None?
    decreases |chunk|
  {
    if chunk != [] {
      var rest := chunk[1..];
      var next := match single(chunk[0])
        case Fail => t.(failures := t.failures + 1)
        case Ok(raw) =>
          if BuildUserRecord(raw).Some? then Tally(t.users[raw["id"] := BuildUserRecord(raw).value], t.processed + 1, t.failures)
          else t;
      FallbackRaisesOnUnbuildable(next, rest, single);
      if exists k :: 0 <= k < |rest| && single(rest[k]).Ok? && BuildUserRecord(single(rest[k]).value).None? {
        var k :| 0 <= k < |rest| && single(rest[k]).Ok? && BuildUserRecord(single(rest[k]).value).None?;
        assert chunk[k + 1] == rest[k];
      }
      if exists k :: 0 <= k < |chunk| && single(chunk[k]).Ok? && BuildUserRecord(single(chunk[k]).value).None? {
        var k :| 0 <= k < |chunk| && single(chunk[k]).Ok? && BuildUserRecord(single(chunk[k]).value).None?;
        if k > 0 { assert rest[k - 1] == chunk[k]; }
      }
    }
  }

  /**
   * A fallback that returns has retried every identifier: failures grew by
   * the number of failing lookups, processed by the number of the others,
   * and the map gained exactly the `'id'`s those others returned.
   */
  lemma {:induction false} FallbackRetriesEachItem<Id>(t: Tally, chunk: seq<Id>, single: Id -> Reply<Raw>)
    ensures Fallback(t, chunk, single).Returned? ==>
      var after := Fallback(t, chunk, single).tally;
      && after.failures == t.failures + FailCount(chunk, single)
      && after.processed == t.processed + |chunk| - FailCount(chunk, single)
      && after.users.Keys == t.users.Keys + AnsweredIds(chunk, single)
    decreases |chunk|
  {
    if chunk != [] {
      var rest := chunk[1..];
      AnsweredIdsCons(chunk, single);
      match single(chunk[0])
      case Fail =>
        FallbackRetriesEachItem(t.(failures := t.failures + 1), rest, single);
      case Ok(raw) =>
        match BuildUserRecord(raw)
        case None =>
        case Some(rec) =>
          FallbackRetriesEachItem(Tally(t.users[raw["id"] := rec], t.processed + 1, t.failures), rest, single);
    }
  }

  /**
   * A fallback that returns leaves the entry of every key that no single
   * lookup of the chunk answers with as it was.
   */
  lemma {:induction false} FallbackFrame<Id>(t: Tally, chunk: seq<Id>, single: Id -> Reply<Raw>)
    ensures Fallback(t, chunk, single).Returned? ==>
      var after := Fallback(t, chunk, single).tally;
      forall key :: key in t.users && key !in AnsweredIds(chunk, single) ==>
        key in after.users && after.users[key] == t.users[key]
    decreases |chunk|
  {
    if chunk != [] {
      var rest := chunk[1..];
      AnsweredIdsCons(chunk, single);
      match single(chunk[0])
      case Fail =>
        FallbackFrame(t.(failures := t.failures + 1), rest, single);
      case Ok(raw) =>
        match BuildUserRecord(raw)
        case None =>
        case Some(rec) =>
          FallbackFrame(Tally(t.users[raw["id"] := rec], t.processed + 1, t.failures), rest, single);
    }
  }

  /** The single lookup at `k` answers with an `'id'` that no later answer of the chunk carries. */
  ghost predicate LastAnswer<Id>(chunk: seq<Id>, single: Id -> Reply<Raw>, k: int)
    requires 0 <= k < |chunk|
  {
    && single(chunk[k]).Ok? && "id" in single(chunk[k]).value
    && forall j :: k < j < |chunk| && single(chunk[j]).Ok? && "id" in single(chunk[j]).value ==>
         single(chunk[j]).value["id"] != single(chunk[k]).value["id"]
  }

  /**
   * A fallback that returns stores under each answered `'id'` the record of
   * the last single lookup that answered with it.
   */
  lemma {:induction false} FallbackLastWins<Id>(t: Tally, chunk: seq<Id>, single: Id -> Reply<Raw>)
    ensures Fallback(t, chunk, single).Returned? ==>
      var after := Fallback(t, chunk, single).tally;
      forall k :: 0 <= k < |chunk| && LastAnswer(chunk, single, k) ==>
        && single(chunk[k]).value["id"] in after.users
        && BuildUserRecord(single(chunk[k]).value) == Some(after.users[single(chunk[k]).value["id"]])
    decreases |chunk|
  {
    if chunk != [] {
      var rest := chunk[1..];
      var next := match single(chunk[0])
        case Fail => t.(failures := t.failures + 1)
        case Ok(raw) =>
          if BuildUserRecord(raw).Some? then Tally(t.users[raw["id"] := BuildUserRecord(raw).value], t.processed + 1, t.failures)
          else t;
      if Fallback(t, chunk, single).Returned? {
        assert Fallback(t, chunk, single) == Fallback(next, rest, single);
        FallbackLastWins(next, rest, single);
        FallbackFrame(next, rest, single);
        var after := Fallback(t, chunk, single).tally;
        forall k | 0 <= k < |chunk| && LastAnswer(chunk, single, k)
          ensures single(chunk[k]).value["id"] in after.users
          ensures BuildUserRecord(single(chunk[k]).value) == Some(after.users[single(chunk[k]).value["id"]])
        {
          if k > 0 {
            assert rest[k - 1] == chunk[k];
            assert LastAnswer(rest, single, k - 1) by {
              forall j | k - 1 < j < |rest| ensures rest[j] == chunk[j + 1] { }
            }
          } else {
            var id := single(chunk[0]).value["id"];
            assert id !in AnsweredIds(rest, single) by {
              forall j | 0 <= j < |rest| ensures rest[j] == chunk[j + 1] { }
            }
          }
        }
      }
    }
  }

  // ---------------------------------------------------------------------
  // One chunk, and the whole lookup (lines 112-150)
  // ---------------------------------------------------------------------

  /**
   * One pass of the chunk loop: the bulk call; on success `len(chunk)` is
   * counted and the records are stored; if the call raises, or a record
   * cannot be built partway through, the whole chunk goes to the fallback,
   * keeping what was already stored and counted.
   */
  function LookupChunk<Id>(t: Tally, chunk: seq<Id>, bulk: seq<Id> -> Reply<seq<Raw>>,
                           single: Id -> Reply<Raw>): Outcome
  {
    match bulk(chunk)
    case Fail => Fallback(t, chunk, single)
    case Ok(raws) =>
      var stored := StoreBatch(t.users, raws);
      var counted := Tally(stored.0, t.processed + |chunk|, t.failures);
      if stored.1 then Returned(counted) else Fallback(counted, chunk, single)
  }

  /** The chunk loop from tally `t` on. */
  function LookupChunks<Id>(t: Tally, chunks: seq<seq<Id>>, bulk: seq<Id> -> Reply<seq<Raw>>,
                            single: Id -> Reply<Raw>): Outcome
    decreases |chunks|
  {
    if chunks == [] then Returned(t)
    else match LookupChunk(t, chunks[0], bulk, single)
      case Raised => Raised
      case Returned(next) => LookupChunks(next, chunks[1..], bulk, single)
  }

  /** The whole lookup, from an empty map and zero counters. */
  function Hydrate<Id>(ids: seq<Option<Id>>, bulk: seq<Id> -> Reply<seq<Raw>>,
                       single: Id -> Reply<Raw>): Outcome
  {
    LookupChunks(Tally(map[], 0, 0), Chunks(ids), bulk, single)
  }

  /**
   * A bulk call that succeeds and whose records all build stores each record
   * under its own `'id'`, the last one winning, counts `len(chunk)` however
   * few records came back, and counts no failure: an identifier the service
   * silently omits is neither stored nor counted as failed.
   */
  lemma BulkSuccessStoresEveryRecord<Id>(t: Tally, chunk: seq<Id>, bulk: seq<Id> -> Reply<seq<Raw>>,
                                         single: Id -> Reply<Raw>)
    requires bulk(chunk).Ok?
    requires forall i :: 0 <= i < |bulk(chunk).value| ==> BuildUserRecord(bulk(chunk).value[i]).Some?
    ensures LookupChunk(t, chunk, bulk, single).Returned?
    ensures var after := LookupChunk(t, chunk, bulk, single).tally;
      var raws := bulk(chunk).value;
      && after.processed == t.processed + |chunk|
      && after.failures == t.failures
      && after.users.Keys == t.users.Keys + IdsOf(raws)
      && (forall i :: 0 <= i < |raws| && "id" in raws[i] && LastWithId(raws, i) ==>
            after.users[raws[i]["id"]] == BuildUserRecord(raws[i]).value)
  {
    StoreBatchComplete(t.users, bulk(chunk).value);
    StoreBatchLastWins(t.users, bulk(chunk).value);
  }

  /**
   * When the bulk call succeeds but a record cannot be built partway, the
   * records stored before it stay, and the fallback runs on the whole chunk
   * after `len(chunk)` was already counted: the chunk is counted twice over.
   */
  lemma PartialBulkCountsChunkTwice<Id>(t: Tally, chunk: seq<Id>, bulk: seq<Id> -> Reply<seq<Raw>>,
                                        single: Id -> Reply<Raw>)
    requires bulk(chunk).Ok?
    requires FirstUnbuildable(bulk(chunk).value) < |bulk(chunk).value|
    ensures var raws := bulk(chunk).value;
      var kept := StoreBatch(t.users, raws[..FirstUnbuildable(raws)]).0;
      LookupChunk(t, chunk, bulk, single)
        == Fallback(Tally(kept, t.processed + |chunk|, t.failures), chunk, single)
    ensures LookupChunk(t, chunk, bulk, single).Returned? ==>
      var after := LookupChunk(t, chunk, bulk, single).tally;
      after.processed + after.failures == t.processed + t.failures + 2 * |chunk|
  {
    var raws := bulk(chunk).value;
    StoreBatchKeepsPrefix(t.users, raws);
    var kept := StoreBatch(t.users, raws[..FirstUnbuildable(raws)]).0;
    FallbackRetriesEachItem(Tally(kept, t.processed + |chunk|, t.failures), chunk, single);
  }

  // ---------------------------------------------------------------------
  // Where the map's entries come from
  // ---------------------------------------------------------------------

  /** Every object the single lookups of the chunk return. */
  function SingleAnswers<Id>(chunk: seq<Id>, single: Id -> Reply<Raw>): set<Raw>
  {
    if chunk == [] then {}
    else (if single(chunk[0]).Ok? then {single(chunk[0]).value} else {}) + SingleAnswers(chunk[1..], single)
  }

  /** Every object the oracles return for the chunks, in bulk or one at a time. */
  function Answers<Id>(chunks: seq<seq<Id>>, bulk: seq<Id> -> Reply<seq<Raw>>,
                       single: Id -> Reply<Raw>): set<Raw>
  {
    if chunks == [] then {}
    else
      (if bulk(chunks[0]).Ok? then set r | r in bulk(chunks[0]).value else {})
      + SingleAnswers(chunks[0], single) + Answers(chunks[1..], bulk, single)
  }

  /** Every entry is keyed by its record's `'id'` and is the record of some object in `answers`. */
  ghost predicate FromAnswers(users: map<Value, UserRecord>, answers: set<Raw>)
  {
    forall k :: k in users ==>
      users[k].id == k && exists raw :: raw in answers && BuildUserRecord(raw) == Some(users[k])
  }

  /** Storing the record of an answer under its own `'id'` keeps every entry traceable to an answer. */
  lemma FromAnswersStore(users: map<Value, UserRecord>, raw: Raw, rec: UserRecord, answers: set<Raw>)
    requires FromAnswers(users, answers)
    requires raw in answers && BuildUserRecord(raw) == Some(rec)
    ensures "id" in raw && FromAnswers(users[raw["id"] := rec], answers)
    ensures users.Keys <= users[raw["id"] := rec].Keys
  {
    var updated := users[raw["id"] := rec];
    forall k | k in updated
      ensures updated[k].id == k && exists r :: r in answers && BuildUserRecord(r) == Some(updated[k])
    {
      if k == raw["id"] {
        assert BuildUserRecord(raw) == Some(updated[k]);
      } else {
        assert updated[k] == users[k];
      }
    }
  }

  lemma {:induction false} StoreBatchFromAnswers(users: map<Value, UserRecord>, raws: seq<Raw>, answers: set<Raw>)
    requires FromAnswers(users, answers)
    requires forall r :: r in raws ==> r in answers
    ensures FromAnswers(StoreBatch(users, raws).0, answers)
    ensures users.Keys <= StoreBatch(users, raws).0.Keys
    decreases |raws|
  {
    if raws != [] && BuildUserRecord(raws[0]).Some? {
      var rec := BuildUserRecord(raws[0]).value;
      assert raws[0] in raws;
      FromAnswersStore(users, raws[0], rec, answers);
      assert forall r :: r in raws[1..] ==> r in raws;
      StoreBatchFromAnswers(users[raws[0]["id"] := rec], raws[1..], answers);
    }
  }

  lemma {:induction false} FallbackFromAnswers<Id>(t: Tally, chunk: seq<Id>, single: Id -> Reply<Raw>,
                                                   answers: set<Raw>)
    requires FromAnswers(t.users, answers)
    requires SingleAnswers(chunk, single) <= answers
    ensures Fallback(t, chunk, single).Returned? ==>
      var after := Fallback(t, chunk, single).tally;
      && FromAnswers(after.users, answers)
      && t.users.Keys <= after.users.Keys
      && t.processed <= after.processed && t.failures <= after.failures
    decreases |chunk|
  {
    if chunk != [] && Fallback(t, chunk, single).Returned? {
      var rest := chunk[1..];
      assert SingleAnswers(rest, single) <= answers;
      var next := t.(failures := t.failures + 1);
      if single(chunk[0]).Ok? {
        var raw := single(chunk[0]).value;
        var rec := BuildUserRecord(raw).value;
        FromAnswersStore(t.users, raw, rec, answers);
        next := Tally(t.users[raw["id"] := rec], t.processed + 1, t.failures);
      }
      assert Fallback(t, chunk, single) == Fallback(next, rest, single);
      FallbackFromAnswers(next, rest, single, answers);
    }
  }

  /** One pass of the chunk loop only adds records built from answers; keys and counters never decrease. */
  lemma LookupChunkFromAnswers<Id>(t: Tally, chunk: seq<Id>, bulk: seq<Id> -> Reply<seq<Raw>>,
                                   single: Id -> Reply<Raw>, answers: set<Raw>)
    requires FromAnswers(t.users, answers)
    requires bulk(chunk).Ok? ==> forall r :: r in bulk(chunk).value ==> r in answers
    requires SingleAnswers(chunk, single) <= answers
    ensures LookupChunk(t, chunk, bulk, single).Returned? ==>
      var after := LookupChunk(t, chunk, bulk, single).tally;
      && FromAnswers(after.users, answers)
      && t.users.Keys <= after.users.Keys
      && t.processed <= after.processed && t.failures <= after.failures
  {
    if bulk(chunk).Fail? {
      FallbackFromAnswers(t, chunk, single, answers);
    } else {
      var raws := bulk(chunk).value;
      StoreBatchFromAnswers(t.users, raws, answers);
      var stored := StoreBatch(t.users, raws);
      var counted := Tally(stored.0, t.processed + |chunk|, t.failures);
      if stored.1 {
        assert LookupChunk(t, chunk, bulk, single) == Returned(counted);
      } else {
        assert LookupChunk(t, chunk, bulk, single) == Fallback(counted, chunk, single);
        FallbackFromAnswers(counted, chunk, single, answers);
      }
    }
  }

  lemma {:induction false} LookupChunksFromAnswers<Id>(t: Tally, chunks: seq<seq<Id>>,
                                                       bulk: seq<Id> -> Reply<seq<Raw>>,
                                                       single: Id -> Reply<Raw>, answers: set<Raw>)
    requires FromAnswers(t.users, answers)
    requires Answers(chunks, bulk, single) <= answers
    ensures LookupChunks(t, chunks, bulk, single).Returned? ==>
      var after := LookupChunks(t, chunks, bulk, single).tally;
      && FromAnswers(after.users, answers)
      && t.users.Keys <= after.users.Keys
      && t.processed <= after.processed && t.failures <= after.failures
    decreases |chunks|
  {
    if chunks != [] && LookupChunks(t, chunks, bulk, single).Returned? {
      var chunk := chunks[0];
      assert SingleAnswers(chunk, single) <= answers;
      assert Answers(chunks[1..], bulk, single) <= answers;
      if bulk(chunk).Ok? {
        forall r | r in bulk(chunk).value ensures r in answers {
          assert r in Answers(chunks, bulk, single);
        }
      }
      LookupChunkFromAnswers(t, chunk, bulk, single, answers);
      var next := LookupChunk(t, chunk, bulk, single).tally;
      assert LookupChunks(t, chunks, bulk, single) == LookupChunks(next, chunks[1..], bulk, single);
      LookupChunksFromAnswers(next, chunks[1..], bulk, single, answers);
    }
  }

  /**
   * In both flows, entries are only added or overwritten, and every key of
   * the returned map is the `'id'` of an object the oracles returned, holding
   * that object's record.
   */
  lemma LookupOnlyStoresAnswers<Id>(ids: seq<Option<Id>>, bulk: seq<Id> -> Reply<seq<Raw>>,
                                    single: Id -> Reply<Raw>)
    ensures Hydrate(ids, bulk, single).Returned? ==>
      FromAnswers(Hydrate(ids, bulk, single).tally.users, Answers(Chunks(ids), bulk, single))
  {
    LookupChunksFromAnswers(Tally(map[], 0, 0), Chunks(ids), bulk, single, Answers(Chunks(ids), bulk, single));
  }

  // ---------------------------------------------------------------------
  // The imperative lookup
  // ---------------------------------------------------------------------

  /** The record loop of a successful bulk call (lines 131-132). */
  method StoreRecords(users: map<Value, UserRecord>, usersData: seq<Raw>)
    returns (stored: map<Value, UserRecord>, complete: bool)
    ensures (stored, complete) == StoreBatch(users, usersData)
  {
    stored, complete := users, true;
    var j := 0;
    while j < |usersData| && complete
      invariant 0 <= j <= |usersData|
      invariant complete ==> StoreBatch(stored, usersData[j..]) == StoreBatch(users, usersData)
      invariant !complete ==> StoreBatch(users, usersData) == (stored, false)
      decreases |usersData| - j, complete
    {
      assert usersData[j..][1..] == usersData[j + 1..];
      var built := BuildUserRecord(usersData[j]);
      if built.None? {
        complete := false;
      } else {
        stored := stored[usersData[j]["id"] := built.value];
        j := j + 1;
      }
    }
  }

  /** The per-item retry of a chunk whose bulk lookup failed (lines 136-146). */
  method RetryEach<Id>(t: Tally, chunk: seq<Id>, single: Id -> Reply<Raw>) returns (r: Outcome)
    ensures r == Fallback(t, chunk, single)
  {
    var users, processed, failures := t.users, t.processed, t.failures;
    var k := 0;
    while k < |chunk|
      invariant 0 <= k <= |chunk|
      invariant Fallback(Tally(users, processed, failures), chunk[k..], single) == Fallback(t, chunk, single)
    {
      assert chunk[k..][1..] == chunk[k + 1..];
      var goodPull := single(chunk[k]);
      if goodPull.Fail? {
        failures := failures + 1;
      } else {
        processed := processed + 1;
        var built := BuildUserRecord(goodPull.value);
        if built.None? {
          return Raised;
        }
        users := users[goodPull.value["id"] := built.value];
      }
      k := k + 1;
    }
    r := Returned(Tally(users, processed, failures));
  }

  /** The chunk loop from position `i` is one chunk followed by the loop from `i + 1`. */
  lemma LookupChunksStep<Id>(t: Tally, chunks: seq<seq<Id>>, i: nat, bulk: seq<Id> -> Reply<seq<Raw>>,
                             single: Id -> Reply<Raw>)
    requires i < |chunks|
    ensures LookupChunks(t, chunks[i..], bulk, single) ==
      match LookupChunk(t, chunks[i], bulk, single)
      case Raised => Raised
      case Returned(next) => LookupChunks(next, chunks[i + 1..], bulk, single)
  {
    assert chunks[i..][1..] == chunks[i + 1..];
  }

  /**
   * One pass of the chunk loop (lines 128-146): the bulk call, then the
   * per-item retry when the call or a record fails. It ends as `LookupChunk`
   * says.
   */
  method LookupOneChunk<Id>(t: Tally, chunk: seq<Id>, bulk: seq<Id> -> Reply<seq<Raw>>,
                            single: Id -> Reply<Raw>) returns (r: Outcome)
    ensures r == LookupChunk(t, chunk, bulk, single)
  {
    var users, processed, failures := t.users, t.processed, t.failures;
    var bulkFailed := false;
    var reply := bulk(chunk);
    if reply.Ok? {
      processed := processed + |chunk|;
      var complete;
      users, complete := StoreRecords(users, reply.value);
      bulkFailed := !complete;
    } else {
      bulkFailed := true;
    }
    if bulkFailed {
      r := RetryEach(Tally(users, processed, failures), chunk, single);
    } else {
      r := Returned(Tally(users, processed, failures));
    }
  }

  /**
   * The lookup loop, generic in the identifier type: cut the identifiers
   * into chunks of 100 and look each chunk up in turn, stopping only if a
   * record raises out of the retry. It ends as `Hydrate` says.
   */
  method LookupUsers<Id>(ids: seq<Option<Id>>, bulk: seq<Id> -> Reply<seq<Raw>>,
                         single: Id -> Reply<Raw>) returns (r: Outcome)
    ensures r == Hydrate(ids, bulk, single)
  {
    var tally := Tally(map[], 0, 0);
    var groups := Grouper(BatchSize, ids, None);
    ghost var chunks := FilterEach(groups);
    ghost var goal := Hydrate(ids, bulk, single);
    var i := 0;
    while i < |groups|
      invariant 0 <= i <= |groups| == |chunks|
      invariant LookupChunks(tally, chunks[i..], bulk, single) == goal
    {
      var chunk := Present(groups[i]);
      LookupChunksStep(tally, chunks, i, bulk, single);
      assert chunk == chunks[i];
      var step := LookupOneChunk(tally, chunk, bulk, single);
      if step.Raised? {
        assert goal == Raised;
        return Raised;
      }
      assert LookupChunks(step.tally, chunks[i + 1..], bulk, single) == goal;
      tally := step.tally;
      i := i + 1;
    }
    r := Returned(tally);
  }

  /** The remote client as far as the lookups use it: `lookup_users` by ids or by screen names. */
  datatype Api = Api(
    usersByIds: seq<int> -> Reply<seq<Raw>>, userById: int -> Reply<Raw>,
    usersByNames: seq<string> -> Reply<seq<Raw>>, userByName: string -> Reply<Raw>)

  /** `lookup_users_from_ids`: the lookup with numeric ids (`user_ids=`). */
  method LookupUsersFromIds(api: Api, ids: seq<Option<int>>) returns (r: Outcome)
    ensures r == Hydrate(ids, api.usersByIds, api.userById)
    ensures r.Returned? ==>
      FromAnswers(r.tally.users, Answers(Chunks(ids), api.usersByIds, api.userById))
  {
    r := LookupUsers(ids, api.usersByIds, api.userById);
    LookupOnlyStoresAnswers(ids, api.usersByIds, api.userById);
  }

  /** `lookup_users_from_handles`: the lookup with screen names (`screen_names=`). */
  method LookupUsersFromHandles(api: Api, handles: seq<Option<string>>) returns (r: Outcome)
    ensures r == Hydrate(handles, api.usersByNames, api.userByName)
    ensures r.Returned? ==>
      FromAnswers(r.tally.users, Answers(Chunks(handles), api.usersByNames, api.userByName))
  {
    r := LookupUsers(handles, api.usersByNames, api.userByName);
    LookupOnlyStoresAnswers(handles, api.usersByNames, api.userByName);
  }
}
