# Twitter user hydration and follower pulling, in Dafny

This project models the data-gathering core of `twitter_functions.py`:

- `UserRecord` and `build_user_record`: a 20-field record read out of a JSON
  user object. A missing key makes the build fail.
- `grouper`: the `zip_longest` recipe that cuts a sequence into groups of `n`
  and pads the last group.
- `lookup_users_from_ids` and `lookup_users_from_handles`: chunks of 100
  identifiers are looked up in bulk. A chunk whose bulk call fails, or whose
  records cannot all be built, is retried one identifier at a time. The two
  functions differ only in the keyword passed to the remote call, so both are
  one generic flow (`Lookup.LookupUsers`) over the identifier type, with a
  thin wrapper for each.
- `gather_followers`: pages through each root's followers up to a limit. A
  root whose paging raises `TweepError` is skipped. Each finished root's list
  is appended to a file, one `root<TAB>follower` line per follower.

The remote service is a parameter. A bulk lookup is a function from a chunk
to `Fail` or `Ok(objects)`. A single lookup is a function from one
identifier to `Fail` or `Ok(object)`. A follower cursor is a function from a
root to its list of pages plus whether a `TweepError` follows the last page.
The output file is the sequence of `(root, follower)` lines appended to it.

Each `for` loop of the source (the chunk loop, the record loop, the
per-item retry, the paging loop, the file write and the root loop) is a
method proved equal to a specification function. The list comprehension
that drops `None`s is a function. The behaviour the code promises, and some
quirks it has, are proved as lemmas about those functions:

- A bulk call counts `len(chunk)` whatever came back. Identifiers the
  service silently omits are neither stored nor counted as failures.
- A record that fails to build partway through a bulk reply keeps the
  entries stored before it. The whole chunk is then retried, so it is
  counted twice.
- A record that fails to build after a successful single retry escapes the
  function (`Lookup.Outcome.Raised`).
- The `None` filter drops `None`s that were in the input, not only the
  padding.
- Entries are keyed by the object's own `'id'`, and a later object
  overwrites an earlier one with the same id. This holds both in the bulk
  path and in the per-item retry.
- A root listed twice extends its list again, with other roots in between
  or not. With a file, the second write emits the whole accumulated list
  once more.

An identifier that the bulk call omits without raising is neither stored
nor counted as a failure (`Lookup.BulkSuccessStoresEveryRecord`).

## Model

| member | source | states |
|---|---|---|
| UserRecords.Field | twitter_functions.py:19-52 | definition: the record field that carries each of the 20 JSON keys, as `build_user_record` pairs them |
| UserRecords.ToRaw | twitter_functions.py:19-24 | definition: the JSON object a record reads back as, holding exactly the 20 keys |
| UserRecords.BuildUserRecord | twitter_functions.py:26-52 | a record is built exactly when every one of the 20 keys is present; each field equals the object's value under its key, and the record's `id` is the object's `'id'` |
| UserRecords.BuildToRaw | twitter_functions.py:19-52 | building from a record's own JSON object gives that record back |
| UserRecords.BuildFromFields | twitter_functions.py:26-52 | an object whose 20 keys carry a record's fields builds that record |
| UserRecords.FieldsDetermineRecord | twitter_functions.py:19-24 | two records that agree on every one of the 20 fields are the same record |
| UserRecords.ToRawBuild | twitter_functions.py:26-52 | for an object holding all 20 keys, the built record reads back as the object restricted to those keys; extra keys are ignored |
| UserRecords.BuildDeterminedByFields | twitter_functions.py:26-52 | two objects that agree on the 20 keys build the same record |
| Batching.Repeat | twitter_functions.py:80 | the fill is `count` copies of the pad value |
| Batching.Grouper | twitter_functions.py:73-80 | no groups for `n <= 0`; otherwise every group has exactly `n` items, the groups laid end to end are the input followed by fewer than `n` pads, and an empty input gives no group |
| Batching.GrouperCount | twitter_functions.py:73-80 | the number of groups `k` is the least with `k * n >= len(input)` |
| Batching.GrouperExample | twitter_functions.py:78 | `grouper(3, 'abcdefg', 'x')` gives `abc`, `def`, `gxx` |
| Batching.Flatten | twitter_functions.py:79-80 | definition: the groups laid end to end, first group first |
| Batching.FlattenAppend | twitter_functions.py:79-80 | laying out two runs of groups is laying out each in turn |
| Batching.FlattenLength | twitter_functions.py:79-80 | `k` groups of `n` items lay out to `k * n` items |
| Batching.Present | twitter_functions.py:123 | dropping `None`s never lengthens a chunk |
| Batching.PresentAppend | twitter_functions.py:123 | the `None` filter distributes over concatenation |
| Batching.PresentOfPads | twitter_functions.py:121-123 | the padding is dropped entirely |
| Batching.PresentKeepsValues | twitter_functions.py:123 | a value survives the filter exactly when it was present in the input |
| Batching.PresentOfSomes | twitter_functions.py:123 | an input with no `None` filters back to exactly its values, once each and in input order |
| Batching.FilterEach | twitter_functions.py:120-123 | each chunk is its group with the `None`s dropped |
| Batching.FlattenFilterEach | twitter_functions.py:120-123 | filtering each group and laying them out is filtering the laid-out groups |
| Lookup.Chunks | twitter_functions.py:118-123 | definition: the groups of `grouper(100, ids)` padded with `None`, each with its `None`s dropped |
| Lookup.ChunksCoverInput | twitter_functions.py:118-123 | the chunks hold every present identifier once, in input order, at most 100 to a chunk; every `None` is dropped |
| Lookup.IdsOf | twitter_functions.py:131-132 | definition: the `'id'` values of the reply's objects that have one |
| Lookup.StoreBatch | twitter_functions.py:131-132 | definition: stores each object's record under its `'id'`, in order, a later object overwriting an earlier one; stops at the first object that cannot be built; gives the map and whether every record built |
| Lookup.FirstUnbuildable | twitter_functions.py:131-132 | the position of the first object whose record cannot be built, every object before it buildable |
| Lookup.IdsOfCons | twitter_functions.py:131-132 | the ids of a reply are its first object's id plus the ids of the rest |
| Lookup.StoreBatchComplete | twitter_functions.py:131-132 | when every record builds, the loop completes, the keys become the old keys plus the reply's ids, and keys the reply does not name keep their records |
| Lookup.LastWithIdTail | twitter_functions.py:131-132 | the last object carrying an id, if not the first, is still the last one carrying it among the objects after the first |
| Lookup.LastWithIdHead | twitter_functions.py:131-132 | when the first object is the last one carrying its id, no later object carries that id |
| Lookup.LastWithId | twitter_functions.py:131-132 | definition: no later object of the reply carries the same `'id'` as the one at a position |
| Lookup.StoreBatchLastWins | twitter_functions.py:131-132 | each id of the reply maps to the record of the last object carrying it |
| Lookup.StoreBatchKeepsPrefix | twitter_functions.py:128-133 | the loop completes exactly when every record builds; otherwise the entries stored before the failing object stay in the map |
| Lookup.Fallback | twitter_functions.py:136-146 | definition: retries every identifier alone, in order; a failing call adds one failure and stores nothing, a successful one adds one processed item and stores its record under its `'id'`, and an unbuildable record raises out of the lookup |
| Lookup.FailCount | twitter_functions.py:142-143 | at most one failure per identifier of the chunk |
| Lookup.FailCountExtremes | twitter_functions.py:136-143 | the failure count is zero exactly when every single lookup succeeds, and the chunk's length exactly when every one fails |
| Lookup.AnsweredIds | twitter_functions.py:136-146 | definition: the `'id'`s of the objects the successful single lookups return |
| Lookup.AnsweredIdsCons | twitter_functions.py:136-146 | the ids answered for a chunk are the first identifier's answer id plus those of the rest |
| Lookup.FallbackRaisesOnUnbuildable | twitter_functions.py:136-146 | the per-item retry raises exactly when some successful single lookup returns an object that cannot be built |
| Lookup.FallbackFrame | twitter_functions.py:136-146 | when the retry returns, every key that no single lookup of the chunk answers with keeps its entry |
| Lookup.LastAnswer | twitter_functions.py:136-146 | definition: the single lookup at a position answers with an `'id'` that no later answer of the chunk carries |
| Lookup.FallbackLastWins | twitter_functions.py:136-146 | when the retry returns, each answered id holds the record of the last single lookup that answered with it |
| Lookup.FallbackRetriesEachItem | twitter_functions.py:136-146 | when the retry returns, each failed identifier adds one failure, each other adds one to the processed count, and the keys become the old keys plus the answered ids |
| Lookup.LookupChunk | twitter_functions.py:128-146 | definition: the bulk call; on success `len(chunk)` is counted and the records stored with `StoreBatch`; when the call fails, or a record cannot be built partway, `Fallback` runs on the whole chunk from what was already stored and counted |
| Lookup.LookupChunks | twitter_functions.py:120-146 | definition: `LookupChunk` on each chunk in turn, carrying the map and counters; a raise ends the whole loop |
| Lookup.Hydrate | twitter_functions.py:112-150 | definition: `LookupChunks` over `Chunks(ids)` from an empty map and zero counters |
| Lookup.BulkSuccessStoresEveryRecord | twitter_functions.py:128-132 | a bulk reply whose records all build counts `len(chunk)` however many objects came back, adds no failure, and stores each object under its own id, the last one winning |
| Lookup.PartialBulkCountsChunkTwice | twitter_functions.py:128-146 | a bulk reply with an unbuildable record keeps the earlier entries and runs the retry on the whole chunk after `len(chunk)` was counted, so processed plus failures grows by twice the chunk size |
| Lookup.SingleAnswers | twitter_functions.py:136-141 | definition: every object the single lookups of a chunk return |
| Lookup.Answers | twitter_functions.py:120-141 | definition: every object the oracles return for the chunks, in bulk or one at a time |
| Lookup.FromAnswers | twitter_functions.py:131-146 | definition: every entry is keyed by its record's `'id'` and is the record of some given object |
| Lookup.FromAnswersStore | twitter_functions.py:131-132 | storing the record of an answer under its own `'id'` keeps every entry built from an answer and keyed by its id, and drops no key |
| Lookup.StoreBatchFromAnswers | twitter_functions.py:131-132 | the record loop only adds entries built from reply objects, each keyed by its own id |
| Lookup.FallbackFromAnswers | twitter_functions.py:136-146 | the retry only adds entries built from single-lookup answers; keys and counters never decrease |
| Lookup.LookupChunkFromAnswers | twitter_functions.py:128-146 | one pass of the chunk loop only adds entries built from the answers for that chunk; keys and counters never decrease |
| Lookup.LookupChunksFromAnswers | twitter_functions.py:120-146 | over all chunks, every entry is keyed by its record's id and built from some object the oracles give for the chunks or their identifiers; keys and counters never decrease |
| Lookup.LookupOnlyStoresAnswers | twitter_functions.py:100-150 | every entry of the returned map is keyed by its record's id and is the record of an object the oracles give for the input's chunks or identifiers |
| Lookup.StoreRecords | twitter_functions.py:131-132 | the record loop ends as `StoreBatch` says: the entries stored and whether every record built |
| Lookup.RetryEach | twitter_functions.py:136-146 | the per-item loop ends as `Fallback` says, raising out of the function on an unbuildable record |
| Lookup.LookupChunksStep | twitter_functions.py:120-146 | the chunk loop from one chunk on is that chunk followed by the loop from the next |
| Lookup.LookupOneChunk | twitter_functions.py:128-146 | one pass of the chunk loop ends as `LookupChunk` says |
| Lookup.LookupUsers | twitter_functions.py:112-150 | the whole lookup over the chunks of `grouper(100, ids)` ends as `Hydrate` says |
| Lookup.LookupUsersFromIds | twitter_functions.py:100-150 | lookup by id ends as `Hydrate` says, and its map holds only records built from oracle answers for its chunks or identifiers, keyed by their ids |
| Lookup.LookupUsersFromHandles | twitter_functions.py:153-203 | lookup by screen name ends as `Hydrate` says, and its map holds only records built from oracle answers for its chunks or screen names, keyed by their ids |
| Followers.Capped | twitter_functions.py:223 | definition: `follower_limit` as a truth test, so `None` and `0` set no cap |
| Followers.Over | twitter_functions.py:219-223 | definition: after the first `k` pages the pulled count is strictly over a set cap |
| Followers.ReadFrom | twitter_functions.py:218-224 | from page `k` on, the pages read stop at the first page after which the pulled count is over the limit, or at the last page |
| Followers.PagesRead | twitter_functions.py:218-224 | at least one page is read when there is one; no page before the last one read puts the count over the limit; reading stops at the end or just after the count goes over; with no limit (`None` or `0`) every page is read |
| Followers.Raises | twitter_functions.py:217-231 | definition: the cursor raises `TweepError` after its last page and the loop did not break before reaching it |
| Followers.Entry | twitter_functions.py:212-220 | definition: a root's list, empty when it has none, as the `defaultdict(list)` reads it |
| Followers.Appended | twitter_functions.py:220 | definition: the root's list extended with each page in turn; the entry is created once a page arrives |
| Followers.Lines | twitter_functions.py:228-229 | one line per follower |
| Followers.LinesPointwise | twitter_functions.py:228-229 | line `i` pairs the root with its `i`-th follower, so the lines follow list order |
| Followers.PullRoot | twitter_functions.py:214-229 | definition: one root: its pages read appended to its list; then, unless paging raised, and when a file is set, its whole list (created empty if missing) written out line by line |
| Followers.PullAll | twitter_functions.py:214-234 | definition: `PullRoot` on each root in turn, carrying the map and the file |
| Followers.Gather | twitter_functions.py:207-234 | definition: `PullAll` over the ids from an empty map and an empty file |
| Followers.Pulled | twitter_functions.py:218-220 | definition: the followers of the pages read, laid end to end |
| Followers.HasEntry | twitter_functions.py:218-228 | definition: a root pulled for the first time gets an entry when a page arrived or its list is written |
| Followers.Distinct | twitter_functions.py:214 | definition: no root is listed twice |
| Followers.RaisedRootKeepsPages | twitter_functions.py:217-232 | a root whose paging raises keeps every page it got, in order, and writes nothing to the file |
| Followers.PullRootAny | twitter_functions.py:214-229 | one root, whatever the map holds: if it already has an entry, or a page arrives, or its list is written, its entry becomes the old list followed by the followers of the pages it read; the file gains the whole accumulated list exactly when a file is set and the paging finished |
| Followers.YieldOf | twitter_functions.py:214-229 | definition: what a root's paging yields: its pulled followers, whether it gets an entry, and whether its list is written (a file is set and paging finished) |
| Followers.Yields | twitter_functions.py:214-218 | definition: each root's yield, through its own cursor |
| Followers.Step | twitter_functions.py:214-229 | definition: one root's effect given its yield: its list extended by what it pulled when it has or gets an entry, and its whole list written when the yield says so |
| Followers.Steps | twitter_functions.py:214-234 | definition: `Step` on each root in turn |
| Followers.WrittenLines | twitter_functions.py:226-229 | definition: the lines of each root whose list is written, in root order, each root's own pulled followers |
| Followers.PullRootStep | twitter_functions.py:214-229 | one root acts on the map and the file only through what its paging yields: the followers pulled, whether it gets an entry, and whether its list is written; a written list always has an entry |
| Followers.PullAllSteps | twitter_functions.py:214-234 | the root loop is the same loop run on each root's yield |
| Followers.StepFresh | twitter_functions.py:214-229 | a root with no entry yet ends with exactly the followers it pulled, if it keeps an entry, and writes exactly those |
| Followers.StepTwice | twitter_functions.py:214-229 | the same root stepped twice with the same yield holds its old list and the pulled followers twice, and writes the list after each step |
| Followers.FreshRest | twitter_functions.py:214-220 | after one root of a distinct run, the remaining roots are still distinct and still have no entry |
| Followers.StepsDistinctLines | twitter_functions.py:214-229 | over distinct roots not pulled before, the file gains the lines of each root whose list is written, in root order |
| Followers.GatherDistinctRoots | twitter_functions.py:207-234 | on distinct roots the map is keyed by roots only, each present exactly when `HasEntry` holds and holding the followers of the pages it read, and the file holds the finished roots' lines in root order |
| Followers.StepsDistinct | twitter_functions.py:214-234 | over distinct roots not pulled before, entries already present are untouched, every new key is a root, and each root has an entry exactly when its yield keeps one, holding exactly what it pulled |
| Followers.StepsKeys | twitter_functions.py:214-234 | over any roots, repeats included, a key is a key from before or a listed root whose yield keeps an entry |
| Followers.StepsEntries | twitter_functions.py:214-234 | over any roots, repeats included, each entry is the old list followed by the root's pulled followers once per time the root is listed |
| Followers.EntriesStep | twitter_functions.py:214-220 | one root's step keeps the per-root entry account of `StepsEntries` |
| Followers.FlattenRepeatCons | twitter_functions.py:220 | one more repeat of a list puts that list in front |
| Followers.GatherRepeatedRoots | twitter_functions.py:207-234 | on any roots, the keys are exactly the listed roots that get an entry, and each holds its pulled followers once per time it is listed |
| Followers.DuplicateRootRewritesList | twitter_functions.py:214-229 | a root pulled twice in a row, whatever it held before and whether or not paging raises, gets its pulled followers appended twice; with a file and no error, the file gets the list after the first pull and then the whole list after the second |
| Followers.StepsOfThree | twitter_functions.py:214 | the root loop over three roots is their three steps in order |
| Followers.StepsAroundAnother | twitter_functions.py:214-229 | steps of `a`, `b`, `a` from the empty state leave `a` with its pulled followers twice, exactly when it keeps an entry, and write `a`'s list, `b`'s list and `a`'s doubled list, each when written |
| Followers.RootRepeatedAroundAnother | twitter_functions.py:207-234 | on roots `[a, b, a]` with a file, `a` holds its followers twice, and the file gets `a`'s list, then `b`'s, then `a`'s doubled list, each only when that root's paging finished |
| Followers.FlattenSnoc | twitter_functions.py:219-220 | reading one more page appends that page's followers |
| Followers.LinesSnoc | twitter_functions.py:228-229 | writing one more follower appends its line |
| Followers.PullAllStep | twitter_functions.py:214 | the root loop from one root on is that root followed by the loop from the next |
| Followers.PullPages | twitter_functions.py:216-224 | the paging loop ends with `Appended` over the first `PagesRead` pages and reports a raise exactly when `Raises` holds |
| Followers.AppendLines | twitter_functions.py:226-229 | the file write appends exactly `Lines` of the root's list |
| Followers.GatherFollowers | twitter_functions.py:207-234 | the puller ends with the map and the file lines `Gather` gives; the limit defaults to 10000 and the file name to none |

## Left out

- `initialize_twitter` (lines 86-97): authentication and client set-up. The service is a parameter instead.
- The console logging and the timestamps that `datetime.now()` produces: they have no effect on the results.
- `write_user_rec_headers`, `write_user_rec` and `parse_it`: text formatting for output files, outside the lookup and pulling logic.
- Real file I/O: the file is the sequence of lines appended to it. Errors opening the file are not modelled.
- The `tweepy` calls themselves: each is an oracle. What the single-item call really returns for a scalar argument is not modelled; the model takes it to be one JSON user object.
- Rate-limit waiting inside the client: it is a time delay with no effect on results.
- The cursor is a function of the root, so a root listed twice gets the same pages both times.
- JSON values are scalars only: null, booleans, integers and strings. Nested objects and floats are not modelled.
- Dictionary order: `ret_dict` in both lookups and in `gather_followers` iterates in the order keys were first inserted. A Dafny `map` has no order, so the model does not say in which order a caller sees the keys.
- The `defaultdict(UserRecord)` default factory is never reached by the code, so the map is a plain map.
- Key merging across types: Python treats `1`, `1.0` and `True` as the same dictionary key, so `ret_dict` would merge an `'id'` of `1` with one of `true`. A `map` over `Value` keeps them apart. Real user ids are integers, so this does not arise.
- Followers.GatherFollowers: the file name's value is not used, only whether one is set. All lines go to one sequence.
