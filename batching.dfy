/**
 * `grouper` of `twitter_functions.py`: cut a sequence into groups of exactly
 * `n`, padding the last group, and the `None` filter the lookups apply to
 * each group.
 */
module Batching {
  import opened Wrappers

  /** `count` copies of `pad`. */
  function Repeat<T>(pad: T, count: nat): (r: seq<T>)
    ensures |r| == count
    ensures forall i :: 0 <= i < count ==> r[i] == pad
  {
    if count == 0 then [] else [pad] + Repeat(pad, count - 1)
  }

  /** The groups laid end to end. */
  function Flatten<T>(groups: seq<seq<T>>): (r: seq<T>)
  {
    if groups == [] then [] else groups[0] + Flatten(groups[1..])
  }

  lemma {:induction false} FlattenAppend<T>(a: seq<seq<T>>, b: seq<seq<T>>)
    ensures Flatten(a + b) == Flatten(a) + Flatten(b)
  {
    if a == [] {
      assert a + b == b;
    } else {
      assert (a + b)[1..] == a[1..] + b;
      FlattenAppend(a[1..], b);
    }
  }

  /**
   * `grouper(n, xs, pad)`: groups of exactly `n` items taken in order, the
   * last one filled up with `pad`. With `n <= 0` there is no group at all,
   * as `zip_longest` of no iterators yields nothing. Laid end to end the
   * groups are `xs` followed by fewer than `n` pads.
   */
  function Grouper<T>(n: int, xs: seq<T>, pad: T): (groups: seq<seq<T>>)
    ensures n <= 0 ==> groups == []
    ensures forall i :: 0 <= i < |groups| ==> |groups[i]| == n
    ensures n > 0 ==> |xs| <= |Flatten(groups)| < |xs| + n
    ensures n > 0 ==> Flatten(groups) == xs + Repeat(pad, |Flatten(groups)| - |xs|)
    ensures n > 0 && xs == [] ==> groups == []
    decreases |xs|
  {
    if n <= 0 || xs == [] then []
    else if |xs| <= n then
      assert Flatten([xs + Repeat(pad, n - |xs|)]) == xs + Repeat(pad, n - |xs|);
      [xs + Repeat(pad, n - |xs|)]
    else
      var rest := Grouper(n, xs[n..], pad);
      assert xs == xs[..n] + xs[n..];
      assert ([xs[..n]] + rest)[1..] == rest;
      [xs[..n]] + rest
  }

  lemma {:induction false} FlattenLength<T>(groups: seq<seq<T>>, n: int)
    requires forall i :: 0 <= i < |groups| ==> |groups[i]| == n
    ensures |Flatten(groups)| == |groups| * n
  {
    if groups != [] {
      forall i | 0 <= i < |groups| - 1 ensures |groups[1..][i]| == n {
        assert groups[1..][i] == groups[i + 1];
      }
      FlattenLength(groups[1..], n);
      assert |groups| * n == (|groups| - 1) * n + n;
    }
  }

  /**
   * `grouper` makes ceil(|xs| / n) groups: the least number of groups of `n`
   * slots that holds every item.
   */
  lemma GrouperCount<T>(n: int, xs: seq<T>, pad: T)
    requires n > 0
    ensures var k := |Grouper(n, xs, pad)|; k * n - n < |xs| <= k * n
  {
    FlattenLength(Grouper(n, xs, pad), n);
  }

  /** The example of the source's own comment: 'abcdefg' in threes, padded with 'x'. */
  lemma GrouperExample()
    ensures Grouper(3, "abcdefg", 'x') == ["abc", "def", "gxx"]
  {
    assert "abcdefg"[..3] == "abc" && "abcdefg"[3..] == "defg";
    assert "defg"[..3] == "def" && "defg"[3..] == "g";
    assert Repeat('x', 2) == "xx" by {
      assert Repeat('x', 0) == [];
      assert Repeat('x', 1) == "x";
    }
    assert "g" + "xx" == "gxx";
    assert Grouper(3, "g", 'x') == ["gxx"];
    assert Grouper(3, "defg", 'x') == ["def", "gxx"];
  }

  /** The present values of `xs`, in order: `[a for a in xs if a is not None]`. */
  function Present<T>(xs: seq<Option<T>>): (r: seq<T>)
    ensures |r| <= |xs|
  {
    if xs == [] then []
    else if xs[0].None? then Present(xs[1..])
    else [xs[0].value] + Present(xs[1..])
  }

  lemma {:induction false} PresentAppend<T>(a: seq<Option<T>>, b: seq<Option<T>>)
    ensures Present(a + b) == Present(a) + Present(b)
  {
    if a != [] {
      assert (a + b)[1..] == a[1..] + b;
      PresentAppend(a[1..], b);
    } else {
      assert a + b == b;
    }
  }

  lemma {:induction false} PresentOfPads<T>(count: nat)
    ensures Present(Repeat<Option<T>>(None, count)) == []
  {
    if count > 0 {
      assert Repeat<Option<T>>(None, count)[1..] == Repeat(None, count - 1);
      PresentOfPads<T>(count - 1);
    }
  }

  /** Every value `Present` keeps is one of the input's, and every present input survives. */
  lemma {:induction false} PresentKeepsValues<T>(xs: seq<Option<T>>, x: T)
    ensures x in Present(xs) <==> Some(x) in xs
  {
    if xs != [] {
      PresentKeepsValues(xs[1..], x);
      assert xs == [xs[0]] + xs[1..];
    }
  }

  /** An input with no `None` filters back to exactly its values, once each and in order. */
  lemma {:induction false} PresentOfSomes<T>(ys: seq<T>)
    ensures Present(seq(|ys|, i requires 0 <= i < |ys| => Some(ys[i]))) == ys
    decreases |ys|
  {
    if ys != [] {
      var xs := seq(|ys|, i requires 0 <= i < |ys| => Some(ys[i]));
      PresentOfSomes(ys[1..]);
      assert xs[1..] == seq(|ys[1..]|, i requires 0 <= i < |ys[1..]| => Some(ys[1..][i]));
      assert ys == [ys[0]] + ys[1..];
    }
  }

  /** The filtered groups, one per group of `grouper`. */
  function FilterEach<T>(groups: seq<seq<Option<T>>>): (r: seq<seq<T>>)
    ensures |r| == |groups|
    ensures forall i :: 0 <= i < |groups| ==> r[i] == Present(groups[i])
  {
    if groups == [] then [] else [Present(groups[0])] + FilterEach(groups[1..])
  }

  lemma {:induction false} FlattenFilterEach<T>(groups: seq<seq<Option<T>>>)
    ensures Flatten(FilterEach(groups)) == Present(Flatten(groups))
  {
    if groups != [] {
      FlattenFilterEach(groups[1..]);
      PresentAppend(groups[0], Flatten(groups[1..]));
      assert FilterEach(groups)[1..] == FilterEach(groups[1..]);
    }
  }
}
