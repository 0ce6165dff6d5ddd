/**
 * `gather_followers` of `twitter_functions.py`: for each root, page through
 * its followers until the pages run out or the pulled count goes over the
 * limit, skip the rest of a root whose paging raises, and append one
 * `root<TAB>follower` line per follower to a file for each root whose paging
 * finished. The cursor is given as a finite list of pages; the file as the
 * sequence of lines appended to it.
 */
module Followers {
  import opened Wrappers
  import opened Batching

  /**
   * One root's `tweepy.Cursor(...).pages()`: the pages it yields, in order;
   * when `fails` is set, the request after the last page raises `TweepError`.
   */
  datatype Cursor<Id> = Cursor(pages: seq<seq<Id>>, fails: bool)

  /** What the puller returns and writes: `ret_dict` and the lines appended to the file. */
  datatype Pull<Id> = Pull(followers: map<Id, seq<Id>>, lines: seq<(Id, Id)>)

  /** `follower_limit` read as Python's truth test: `None` and `0` set no cap. */
  predicate Capped(limit: Option<int>)
  {
    limit.Some? && limit.value != 0
  }

  /** After the first `k` pages the pulled count is over a set limit. */
  predicate Over<Id>(pages: seq<seq<Id>>, limit: Option<int>, k: nat)
    requires k <= |pages|
  {
    Capped(limit) && |Flatten(pages[..k])| > limit.value
  }

  function ReadFrom<Id>(pages: seq<seq<Id>>, limit: Option<int>, k: nat): (r: nat)
    requires 1 <= k <= |pages|
    ensures k <= r <= |pages|
    ensures forall m :: k <= m < r ==> !Over(pages, limit, m)
    ensures r == |pages| || Over(pages, limit, r)
    decreases |pages| - k
  {
    if Over(pages, limit, k) || k == |pages| then k else ReadFrom(pages, limit, k + 1)
  }

  /**
   * How many pages the loop reads: every page up to and including the first
   * one that takes the pulled count strictly over the limit, or all of them.
   */
  function PagesRead<Id>(pages: seq<seq<Id>>, limit: Option<int>): (r: nat)
    ensures r <= |pages|
    ensures pages != [] ==> 1 <= r
    ensures forall m :: 1 <= m < r ==> !Over(pages, limit, m)
    ensures r == |pages| || Over(pages, limit, r)
    ensures !Capped(limit) ==> r == |pages|
  {
    if pages == [] then 0 else ReadFrom(pages, limit, 1)
  }

  /** The paging of a root raises: the cursor fails and the loop did not break before it. */
  predicate Raises<Id>(c: Cursor<Id>, limit: Option<int>)
  {
    var r := PagesRead(c.pages, limit);
    c.fails && !(1 <= r && Over(c.pages, limit, r))
  }

  /** The list of `root`, empty when it has none. */
  function Entry<Id>(m: map<Id, seq<Id>>, root: Id): seq<Id>
  {
    if root in m then m[root] else []
  }

  /** `ret_dict[root].extend(page)` for each of `pages`; the entry exists once a page arrived. */
  function Appended<Id>(m: map<Id, seq<Id>>, root: Id, pages: seq<seq<Id>>): map<Id, seq<Id>>
  {
    if pages == [] then m else m[root := Entry(m, root) + Flatten(pages)]
  }

  /** The file lines for `root`, one per follower, in list order. */
  function Lines<Id>(root: Id, followers: seq<Id>): (lines: seq<(Id, Id)>)
    ensures |lines| == |followers|
  {
    if followers == [] then [] else [(root, followers[0])] + Lines(root, followers[1..])
  }

  /** Line `i` of a root's lines pairs the root with its `i`-th follower. */
  lemma {:induction false} LinesPointwise<Id>(root: Id, followers: seq<Id>)
    ensures forall i :: 0 <= i < |followers| ==> Lines(root, followers)[i] == (root, followers[i])
    decreases |followers|
  {
    if followers != [] {
      LinesPointwise(root, followers[1..]);
    }
  }

  /**
   * One root: its pages appended to its list; then, unless paging raised and
   * when a file is set, its whole list (created empty if missing) written out.
   */
  function PullRoot<Id>(s: Pull<Id>, root: Id, c: Cursor<Id>, limit: Option<int>, toFile: bool): Pull<Id>
  {
    var m := Appended(s.followers, root, c.pages[..PagesRead(c.pages, limit)]);
    if Raises(c, limit) || !toFile then Pull(m, s.lines)
    else Pull(m[root := Entry(m, root)], s.lines + Lines(root, Entry(m, root)))
  }

  /** The root loop from state `s` on. */
  function PullAll<Id>(s: Pull<Id>, roots: seq<Id>, cursorOf: Id -> Cursor<Id>, limit: Option<int>,
                       toFile: bool): Pull<Id>
    decreases |roots|
  {
    if roots == [] then s
    else PullAll(PullRoot(s, roots[0], cursorOf(roots[0]), limit, toFile), roots[1..], cursorOf, limit, toFile)
  }

  /** The whole puller, from an empty map and an empty file. */
  function Gather<Id>(ids: seq<Id>, cursorOf: Id -> Cursor<Id>, limit: Option<int>, toFile: bool): Pull<Id>
  {
    PullAll(Pull(map[], []), ids, cursorOf, limit, toFile)
  }

  /** The followers the root's paging appends: the pages it read, laid end to end. */
  function Pulled<Id>(c: Cursor<Id>, limit: Option<int>): seq<Id>
  {
    Flatten(c.pages[..PagesRead(c.pages, limit)])
  }

  /** A root pulled for the first time ends up with an entry: it got a page, or its list was written out. */
  predicate HasEntry<Id>(c: Cursor<Id>, limit: Option<int>, toFile: bool)
  {
    PagesRead(c.pages, limit) >= 1 || (toFile && !Raises(c, limit))
  }

  /** No root occurs twice. */
  ghost predicate Distinct<Id>(roots: seq<Id>)
  {
    forall i, j :: 0 <= i < j < |roots| ==> roots[i] != roots[j]
  }

  /**
   * A `TweepError` keeps every page the root got before it, in order, and
   * writes nothing to the file.
   */
  lemma RaisedRootKeepsPages<Id>(s: Pull<Id>, root: Id, c: Cursor<Id>, limit: Option<int>, toFile: bool)
    requires Raises(c, limit)
    ensures PullRoot(s, root, c, limit, toFile) == Pull(Appended(s.followers, root, c.pages), s.lines)
  {
    assert c.pages[..PagesRead(c.pages, limit)] == c.pages;
  }

  /**
   * One root, whatever is already there: if it already has an entry, or gets
   * a page, or its list is written, its entry becomes the old one followed by
   * the followers of the pages it read; the file gains the whole accumulated
   * list exactly when a file is set and its paging finished without error.
   */
  lemma PullRootAny<Id>(s: Pull<Id>, root: Id, c: Cursor<Id>, limit: Option<int>, toFile: bool)
    ensures PullRoot(s, root, c, limit, toFile).followers ==
      if root in s.followers || HasEntry(c, limit, toFile)
      then s.followers[root := Entry(s.followers, root) + Pulled(c, limit)]
      else s.followers
    ensures PullRoot(s, root, c, limit, toFile).lines ==
      s.lines + if toFile && !Raises(c, limit) then Lines(root, Entry(s.followers, root) + Pulled(c, limit)) else []
  {
    var r := PagesRead(c.pages, limit);
    var e := Entry(s.followers, root);
    if r == 0 {
      assert c.pages[..r] == [];
      assert Pulled(c, limit) == [];
      assert e + [] == e;
      if root in s.followers {
        assert s.followers[root := e] == s.followers;
      }
    } else {
      assert |c.pages[..r]| == r;
      assert Appended(s.followers, root, c.pages[..r]) == s.followers[root := e + Pulled(c, limit)];
    }
  }

  /**
   * What one root's paging yields for the puller: the followers it pulled,
   * whether it ends up with an entry, and whether its list is written out.
   */
  datatype Yield<Id> = Yield(pulled: seq<Id>, kept: bool, written: bool)

  /** The yield of a cursor: its pulled followers; an entry when `HasEntry`; written when a file is set and paging finished. */
  function YieldOf<Id>(c: Cursor<Id>, limit: Option<int>, toFile: bool): Yield<Id>
  {
    Yield(Pulled(c, limit), HasEntry(c, limit, toFile), toFile && !Raises(c, limit))
  }

  /** The yield of every root, through its cursor. */
  function Yields<Id>(cursorOf: Id -> Cursor<Id>, limit: Option<int>, toFile: bool): Id -> Yield<Id>
  {
    x => YieldOf(cursorOf(x), limit, toFile)
  }

  /** What one root does to the state, given its yield. */
  function Step<Id>(s: Pull<Id>, root: Id, y: Yield<Id>): Pull<Id>
  {
    var e := Entry(s.followers, root);
    Pull(if root in s.followers || y.kept then s.followers[root := e + y.pulled] else s.followers,
         s.lines + if y.written then Lines(root, e + y.pulled) else [])
  }

  /** The root loop from state `s` on, given each root's yield. */
  function Steps<Id>(s: Pull<Id>, roots: seq<Id>, yieldOf: Id -> Yield<Id>): Pull<Id>
    decreases |roots|
  {
    if roots == [] then s else Steps(Step(s, roots[0], yieldOf(roots[0])), roots[1..], yieldOf)
  }

  /** The file lines of roots each pulled once: a root's lines when its list is written. */
  function WrittenLines<Id>(roots: seq<Id>, yieldOf: Id -> Yield<Id>): seq<(Id, Id)>
  {
    if roots == [] then []
    else
      (if yieldOf(roots[0]).written then Lines(roots[0], yieldOf(roots[0]).pulled) else [])
      + WrittenLines(roots[1..], yieldOf)
  }

  /** `PullRoot` is `Step` on what the root's paging yields; a written list always has an entry. */
  lemma PullRootStep<Id>(s: Pull<Id>, root: Id, c: Cursor<Id>, limit: Option<int>, toFile: bool)
    ensures PullRoot(s, root, c, limit, toFile) == Step(s, root, YieldOf(c, limit, toFile))
    ensures YieldOf(c, limit, toFile).written ==> YieldOf(c, limit, toFile).kept
  {
    PullRootAny(s, root, c, limit, toFile);
  }

  /** The root loop is `Steps` on the yields of the roots' cursors. */
  lemma {:induction false} PullAllSteps<Id>(s: Pull<Id>, roots: seq<Id>, cursorOf: Id -> Cursor<Id>,
                                            limit: Option<int>, toFile: bool)
    ensures PullAll(s, roots, cursorOf, limit, toFile) == Steps(s, roots, Yields(cursorOf, limit, toFile))
    decreases |roots|
  {
    if roots != [] {
      PullRootStep(s, roots[0], cursorOf(roots[0]), limit, toFile);
      PullAllSteps(PullRoot(s, roots[0], cursorOf(roots[0]), limit, toFile), roots[1..], cursorOf, limit, toFile);
    }
  }

  /** Two steps of the same root with the same yield. */
  lemma StepTwice<Id>(s: Pull<Id>, root: Id, y: Yield<Id>)
    requires y.written ==> y.kept
    ensures var e, p := Entry(s.followers, root), y.pulled;
      Step(Step(s, root, y), root, y) ==
      Pull(if root in s.followers || y.kept then s.followers[root := e + p + p] else s.followers,
           s.lines + if y.written then Lines(root, e + p) + Lines(root, e + p + p) else [])
  {
    var e := Entry(s.followers, root);
    var once := Step(s, root, y);
    if root in s.followers || y.kept {
      assert Entry(once.followers, root) == e + y.pulled;
    }
    if y.written {
      assert once.lines + Lines(root, e + y.pulled + y.pulled)
          == s.lines + (Lines(root, e + y.pulled) + Lines(root, e + y.pulled + y.pulled));
    }
  }

  /** A step of a root with no entry yet: its entry, if any, is exactly what it pulled. */
  lemma StepFresh<Id>(s: Pull<Id>, root: Id, y: Yield<Id>)
    requires root !in s.followers
    ensures Step(s, root, y).followers == if y.kept then s.followers[root := y.pulled] else s.followers
    ensures Step(s, root, y).lines == s.lines + if y.written then Lines(root, y.pulled) else []
  {
    assert Entry(s.followers, root) + y.pulled == y.pulled;
  }

  /** The state after one step on distinct roots: the next roots are still fresh and distinct. */
  lemma FreshRest<Id>(s: Pull<Id>, roots: seq<Id>, y: Yield<Id>)
    requires roots != [] && Distinct(roots)
    requires forall i :: 0 <= i < |roots| ==> roots[i] !in s.followers
    ensures Distinct(roots[1..])
    ensures forall i :: 0 <= i < |roots| - 1 ==> roots[1..][i] !in Step(s, roots[0], y).followers
  {
    var rest := roots[1..];
    StepFresh(s, roots[0], y);
    forall i | 0 <= i < |rest| ensures rest[i] !in Step(s, roots[0], y).followers {
      assert rest[i] == roots[i + 1] && roots[0] != roots[i + 1] && roots[i + 1] !in s.followers;
    }
    forall i, j | 0 <= i < j < |rest| ensures rest[i] != rest[j] {
      assert rest[i] == roots[i + 1] && rest[j] == roots[j + 1];
    }
  }

  /**
   * The file lines of distinct roots not pulled before: the lines of each
   * root whose list is written, in root order.
   */
  lemma {:induction false} StepsDistinctLines<Id>(s: Pull<Id>, roots: seq<Id>, yieldOf: Id -> Yield<Id>)
    requires Distinct(roots)
    requires forall i :: 0 <= i < |roots| ==> roots[i] !in s.followers
    ensures Steps(s, roots, yieldOf).lines == s.lines + WrittenLines(roots, yieldOf)
    decreases |roots|
  {
    if roots != [] {
      var root, rest := roots[0], roots[1..];
      var next := Step(s, root, yieldOf(root));
      StepFresh(s, root, yieldOf(root));
      FreshRest(s, roots, yieldOf(root));
      StepsDistinctLines(next, rest, yieldOf);
      var own := if yieldOf(root).written then Lines(root, yieldOf(root).pulled) else [];
      assert (s.lines + own) + WrittenLines(rest, yieldOf) == s.lines + (own + WrittenLines(rest, yieldOf));
    }
  }

  /**
   * With every root distinct and not pulled before, entries already present
   * are untouched, no new key is anything but a root, and each root has an
   * entry exactly when its yield keeps one, holding exactly what it pulled.
   */
  lemma {:induction false} StepsDistinct<Id>(s: Pull<Id>, roots: seq<Id>, yieldOf: Id -> Yield<Id>)
    requires Distinct(roots)
    requires forall i :: 0 <= i < |roots| ==> roots[i] !in s.followers
    ensures var after := Steps(s, roots, yieldOf).followers;
      && (forall k :: k in s.followers ==> k in after && after[k] == s.followers[k])
      && (forall k :: k in after ==> k in s.followers || k in roots)
      && (forall i :: 0 <= i < |roots| ==> (roots[i] in after <==> yieldOf(roots[i]).kept))
      && (forall i :: 0 <= i < |roots| && roots[i] in after ==> after[roots[i]] == yieldOf(roots[i]).pulled)
    decreases |roots|
  {
    if roots != [] {
      var root, rest := roots[0], roots[1..];
      var next := Step(s, root, yieldOf(root));
      StepFresh(s, root, yieldOf(root));
      FreshRest(s, roots, yieldOf(root));
      StepsDistinct(next, rest, yieldOf);
      var after := Steps(next, rest, yieldOf).followers;
      forall i | 0 <= i < |roots|
        ensures roots[i] in after <==> yieldOf(roots[i]).kept
        ensures roots[i] in after ==> after[roots[i]] == yieldOf(roots[i]).pulled
      {
        if i > 0 {
          assert roots[i] == rest[i - 1];
        } else {
          assert root !in rest;
        }
      }
      forall k | k in after ensures k in s.followers || k in roots {
        if k !in s.followers && k !in rest {
          assert k == root;
        }
      }
    }
  }

  /**
   * `gather_followers` on distinct roots: each root maps to the followers of
   * the pages it read, keys are roots only, and the file lines are those of
   * the roots whose paging finished, in root order.
   */
  lemma GatherDistinctRoots<Id>(ids: seq<Id>, cursorOf: Id -> Cursor<Id>, limit: Option<int>, toFile: bool)
    requires Distinct(ids)
    ensures var g := Gather(ids, cursorOf, limit, toFile);
      && g.lines == WrittenLines(ids, Yields(cursorOf, limit, toFile))
      && (forall k :: k in g.followers ==> k in ids)
      && (forall i :: 0 <= i < |ids| ==> (ids[i] in g.followers <==> HasEntry(cursorOf(ids[i]), limit, toFile)))
      && (forall i :: 0 <= i < |ids| && ids[i] in g.followers ==>
            g.followers[ids[i]] == Pulled(cursorOf(ids[i]), limit))
  {
    var s: Pull<Id> := Pull(map[], []);
    PullAllSteps(s, ids, cursorOf, limit, toFile);
    StepsDistinctLines(s, ids, Yields(cursorOf, limit, toFile));
    StepsDistinct(s, ids, Yields(cursorOf, limit, toFile));
  }

  /**
   * Any roots, repeats included: a key is a key from before or a root whose
   * yield keeps an entry.
   */
  lemma {:induction false} StepsKeys<Id>(s: Pull<Id>, roots: seq<Id>, yieldOf: Id -> Yield<Id>)
    ensures var after := Steps(s, roots, yieldOf).followers;
      forall x :: x in after <==> x in s.followers || (x in roots && yieldOf(x).kept)
    decreases |roots|
  {
    if roots != [] {
      var root, rest := roots[0], roots[1..];
      StepsKeys(Step(s, root, yieldOf(root)), rest, yieldOf);
      assert forall x :: x in roots <==> x == root || x in rest;
    }
  }

  /**
   * Any roots, repeats included: a root's list is its old list followed by
   * its pulled followers once per time it occurs among the roots.
   */
  lemma {:induction false} StepsEntries<Id>(s: Pull<Id>, roots: seq<Id>, yieldOf: Id -> Yield<Id>)
    ensures var after := Steps(s, roots, yieldOf).followers;
      forall x :: x in after ==>
        after[x] == Entry(s.followers, x) + Flatten(Repeat(yieldOf(x).pulled, multiset(roots)[x]))
    decreases |roots|
  {
    if roots == [] {
      forall x ensures Entry(s.followers, x) + [] == Entry(s.followers, x) { }
    } else {
      var root, rest := roots[0], roots[1..];
      var next := Step(s, root, yieldOf(root));
      StepsEntries(next, rest, yieldOf);
      StepsKeys(next, rest, yieldOf);
      assert roots == [root] + rest;
      EntriesStep(s.followers, next.followers, Steps(next, rest, yieldOf).followers, root, rest, yieldOf);
    }
  }

  /** One step of `StepsEntries`, over the maps alone. */
  lemma EntriesStep<Id>(before: map<Id, seq<Id>>, next: map<Id, seq<Id>>, after: map<Id, seq<Id>>, root: Id,
                        rest: seq<Id>, yieldOf: Id -> Yield<Id>)
    requires next == if root in before || yieldOf(root).kept
                     then before[root := Entry(before, root) + yieldOf(root).pulled] else before
    requires forall x :: x in after <==> x in next || (x in rest && yieldOf(x).kept)
    requires forall x :: x in after ==>
      after[x] == Entry(next, x) + Flatten(Repeat(yieldOf(x).pulled, multiset(rest)[x]))
    ensures forall x :: x in after ==>
      after[x] == Entry(before, x) + Flatten(Repeat(yieldOf(x).pulled, multiset([root] + rest)[x]))
  {
    forall x | x in after
      ensures after[x] == Entry(before, x) + Flatten(Repeat(yieldOf(x).pulled, multiset([root] + rest)[x]))
    {
      var p, n := yieldOf(x).pulled, multiset(rest)[x];
      if x == root {
        assert Entry(next, x) == Entry(before, x) + p;
        FlattenRepeatCons(p, n);
        assert multiset([root] + rest)[x] == n + 1;
      } else {
        assert multiset([root] + rest)[x] == n;
      }
    }
  }

  lemma FlattenRepeatCons<T>(p: seq<T>, n: nat)
    ensures Flatten(Repeat(p, n + 1)) == p + Flatten(Repeat(p, n))
  {
    assert Repeat(p, n + 1)[1..] == Repeat(p, n);
  }

  /**
   * `gather_followers` on any roots, repeats included: the keys are the
   * roots that get an entry, and each holds its pulled followers once per
   * time it is listed.
   */
  lemma GatherRepeatedRoots<Id>(ids: seq<Id>, cursorOf: Id -> Cursor<Id>, limit: Option<int>, toFile: bool)
    ensures var g := Gather(ids, cursorOf, limit, toFile).followers;
      && (forall x :: x in g <==> x in ids && HasEntry(cursorOf(x), limit, toFile))
      && (forall x :: x in g ==> g[x] == Flatten(Repeat(Pulled(cursorOf(x), limit), multiset(ids)[x])))
  {
    var s: Pull<Id> := Pull(map[], []);
    var y := Yields(cursorOf, limit, toFile);
    PullAllSteps(s, ids, cursorOf, limit, toFile);
    StepsKeys(s, ids, y);
    StepsEntries(s, ids, y);
    forall x ensures Entry(s.followers, x) + Flatten(Repeat(y(x).pulled, multiset(ids)[x]))
                  == Flatten(Repeat(Pulled(cursorOf(x), limit), multiset(ids)[x]))
    { }
  }

  /**
   * A root pulled twice in a row is paged twice into the same list, whatever
   * it held before; with a file and no error, its second write emits the
   * whole accumulated list again.
   */
  lemma DuplicateRootRewritesList<Id>(s: Pull<Id>, root: Id, c: Cursor<Id>, limit: Option<int>, toFile: bool)
    ensures var twice := PullRoot(PullRoot(s, root, c, limit, toFile), root, c, limit, toFile);
      var e, p := Entry(s.followers, root), Pulled(c, limit);
      && twice.followers == (if root in s.followers || HasEntry(c, limit, toFile)
                             then s.followers[root := e + p + p] else s.followers)
      && twice.lines == s.lines + (if toFile && !Raises(c, limit) then Lines(root, e + p) + Lines(root, e + p + p) else [])
  {
    var once := PullRoot(s, root, c, limit, toFile);
    PullRootStep(s, root, c, limit, toFile);
    PullRootStep(once, root, c, limit, toFile);
    StepTwice(s, root, YieldOf(c, limit, toFile));
  }

  /** The root loop over three roots is three steps. */
  lemma StepsOfThree<Id>(s: Pull<Id>, a: Id, b: Id, c: Id, yieldOf: Id -> Yield<Id>)
    ensures Steps(s, [a, b, c], yieldOf) == Step(Step(Step(s, a, yieldOf(a)), b, yieldOf(b)), c, yieldOf(c))
  {
    var s1 := Step(s, a, yieldOf(a));
    var s2 := Step(s1, b, yieldOf(b));
    assert [a, b, c][1..] == [b, c] && [b, c][1..] == [c] && [c][1..] == [];
    assert Steps(s, [a, b, c], yieldOf) == Steps(s1, [b, c], yieldOf);
    assert Steps(s1, [b, c], yieldOf) == Steps(s2, [c], yieldOf);
  }

  /** Steps of `a`, then `b`, then `a` again with the same yield, from the empty state. */
  lemma StepsAroundAnother<Id>(a: Id, b: Id, ya: Yield<Id>, yb: Yield<Id>)
    requires a != b && (ya.written ==> ya.kept)
    ensures var s3 := Step(Step(Step(Pull(map[], []), a, ya), b, yb), a, ya);
      && (a in s3.followers <==> ya.kept)
      && (a in s3.followers ==> s3.followers[a] == ya.pulled + ya.pulled)
      && s3.lines == (if ya.written then Lines(a, ya.pulled) else []) + (if yb.written then Lines(b, yb.pulled) else [])
                     + (if ya.written then Lines(a, ya.pulled + ya.pulled) else [])
  {
    var s0: Pull<Id> := Pull(map[], []);
    StepFresh(s0, a, ya);
    var s1 := Step(s0, a, ya);
    assert s1.lines == if ya.written then Lines(a, ya.pulled) else [];
    StepFresh(s1, b, yb);
    var s2 := Step(s1, b, yb);
    assert Entry(s2.followers, a) == if ya.kept then ya.pulled else [];
    assert s2.lines == s1.lines + if yb.written then Lines(b, yb.pulled) else [];
  }

  /**
   * `gather_followers` on `[a, b, a]` with a file: `a`'s list holds its
   * followers twice, and the file gets `a`'s list, then `b`'s, then `a`'s
   * doubled list, each only when that root's paging finished.
   */
  lemma RootRepeatedAroundAnother<Id>(a: Id, b: Id, cursorOf: Id -> Cursor<Id>, limit: Option<int>)
    requires a != b
    ensures var g := Gather([a, b, a], cursorOf, limit, true);
      var p, q := Pulled(cursorOf(a), limit), Pulled(cursorOf(b), limit);
      var finished := !Raises(cursorOf(a), limit);
      && (a in g.followers <==> HasEntry(cursorOf(a), limit, true))
      && (a in g.followers ==> g.followers[a] == p + p)
      && g.lines == (if finished then Lines(a, p) else [])
                    + (if !Raises(cursorOf(b), limit) then Lines(b, q) else [])
                    + (if finished then Lines(a, p + p) else [])
  {
    PullAllSteps(Pull(map[], []), [a, b, a], cursorOf, limit, true);
    PullRootStep(Pull(map[], []), a, cursorOf(a), limit, true);
    var y := Yields(cursorOf, limit, true);
    StepsOfThree(Pull(map[], []), a, b, a, y);
    StepsAroundAnother(a, b, y(a), y(b));
  }

  lemma FlattenSnoc<T>(groups: seq<seq<T>>, j: nat)
    requires j < |groups|
    ensures Flatten(groups[..j + 1]) == Flatten(groups[..j]) + groups[j]
  {
    assert groups[..j + 1] == groups[..j] + [groups[j]];
    FlattenAppend(groups[..j], [groups[j]]);
    assert Flatten([groups[j]]) == groups[j] + Flatten<T>([]);
  }

  lemma LinesSnoc<Id>(root: Id, followers: seq<Id>, k: nat)
    requires k < |followers|
    ensures Lines(root, followers[..k + 1]) == Lines(root, followers[..k]) + [(root, followers[k])]
  {
    LinesPointwise(root, followers[..k + 1]);
    LinesPointwise(root, followers[..k]);
    var a, b := Lines(root, followers[..k + 1]), Lines(root, followers[..k]) + [(root, followers[k])];
    assert |a| == |b|;
    forall i | 0 <= i < |a| ensures a[i] == b[i] {
      if i < k { assert b[i] == Lines(root, followers[..k])[i]; }
    }
  }

  /** The root loop from position `i` is one root followed by the loop from `i + 1`. */
  lemma PullAllStep<Id>(s: Pull<Id>, roots: seq<Id>, i: nat, cursorOf: Id -> Cursor<Id>,
                        limit: Option<int>, toFile: bool)
    requires i < |roots|
    ensures PullAll(s, roots[i..], cursorOf, limit, toFile)
         == PullAll(PullRoot(s, roots[i], cursorOf(roots[i]), limit, toFile), roots[i + 1..], cursorOf, limit, toFile)
  {
    assert roots[i..][1..] == roots[i + 1..];
  }

  /**
   * The paging loop of one root (lines 216-224): extend the root's list page
   * by page and stop after the page that takes the pulled count over the
   * limit. Reports whether fetching a page raised.
   */
  method PullPages<Id>(followers: map<Id, seq<Id>>, root: Id, c: Cursor<Id>, limit: Option<int>)
    returns (updated: map<Id, seq<Id>>, raised: bool)
    ensures updated == Appended(followers, root, c.pages[..PagesRead(c.pages, limit)])
    ensures raised == Raises(c, limit)
  {
    updated, raised := followers, false;
    var pulled := 0;
    var j := 0;
    var done := false;
    while !done
      invariant 0 <= j <= |c.pages|
      invariant pulled == |Flatten(c.pages[..j])|
      invariant updated == Appended(followers, root, c.pages[..j])
      invariant !done ==> !raised && forall m :: 1 <= m <= j ==> !Over(c.pages, limit, m)
      invariant done ==> j == PagesRead(c.pages, limit) && raised == Raises(c, limit)
      decreases |c.pages| - j, !done
    {
      if j == |c.pages| {
        raised := c.fails;
        done := true;
        assert 1 <= j ==> !Over(c.pages, limit, j);
      } else {
        var page := c.pages[j];
        FlattenSnoc(c.pages, j);
        assert c.pages[..j] == [] ==> updated == followers && Flatten(c.pages[..j]) == [];
        assert Entry(updated, root) == Entry(followers, root) + Flatten(c.pages[..j]);
        pulled := pulled + |page|;
        updated := updated[root := Entry(updated, root) + page];
        assert Entry(followers, root) + Flatten(c.pages[..j]) + page
            == Entry(followers, root) + Flatten(c.pages[..j + 1]);
        assert updated == Appended(followers, root, c.pages[..j + 1]);
        j := j + 1;
        if Capped(limit) && pulled > limit.value {
          done := true;
          assert Over(c.pages, limit, j);
        }
      }
    }
  }

  /** The file write of lines 227-229: one `root<TAB>follower` line per follower, in order. */
  method AppendLines<Id>(file: seq<(Id, Id)>, root: Id, written: seq<Id>) returns (appended: seq<(Id, Id)>)
    ensures appended == file + Lines(root, written)
  {
    appended := file;
    var k := 0;
    while k < |written|
      invariant 0 <= k <= |written|
      invariant appended == file + Lines(root, written[..k])
    {
      LinesSnoc(root, written, k);
      appended := appended + [(root, written[k])];
      k := k + 1;
    }
    assert written[..k] == written;
  }

  /**
   * `gather_followers`: pull each root in turn; a root whose paging raises
   * keeps the pages it got and writes nothing; with a file name, every other
   * root's list is appended to the file line by line. It ends as `Gather` says.
   */
  method GatherFollowers<Id>(ids: seq<Id>, cursorOf: Id -> Cursor<Id>, followerLimit: Option<int> := Some(10000),
                             fileName: Option<string> := None)
    returns (followers: map<Id, seq<Id>>, lines: seq<(Id, Id)>)
    ensures Pull(followers, lines) == Gather(ids, cursorOf, followerLimit, fileName.Some?)
  {
    followers, lines := map[], [];
    ghost var goal := Gather(ids, cursorOf, followerLimit, fileName.Some?);
    var i := 0;
    while i < |ids|
      invariant 0 <= i <= |ids|
      invariant PullAll(Pull(followers, lines), ids[i..], cursorOf, followerLimit, fileName.Some?) == goal
    {
      var root := ids[i];
      PullAllStep(Pull(followers, lines), ids, i, cursorOf, followerLimit, fileName.Some?);
      ghost var before := Pull(followers, lines);
      var raised;
      followers, raised := PullPages(followers, root, cursorOf(root), followerLimit);
      if !raised && fileName.Some? {
        var written := Entry(followers, root);
        followers := followers[root := written];
        lines := AppendLines(lines, root, written);
      }
      assert Pull(followers, lines) == PullRoot(before, root, cursorOf(root), followerLimit, fileName.Some?);
      i := i + 1;
    }
  }
}
