/** Putting the results of one batch of images together (internal/app/image_pool.go, lines 415-453). */
module ImageBatch {
  import opened Common

  datatype Batch<I, E> = Images(images: seq<I>) | Broken(error: E)

  /** The first image of every result that has one, in order. */
  function Firsts<I>(results: seq<seq<I>>): seq<I> {
    if results == [] then []
    else
      var last := results[|results| - 1];
      Firsts(results[..|results| - 1]) + if last == [] then [] else [last[0]]
  }

  lemma FirstsGrow<I>(results: seq<seq<I>>, i: nat)
    requires i < |results|
    ensures Firsts(results[..i + 1]) == Firsts(results[..i]) + if results[i] == [] then [] else [results[i][0]]
  {
    assert results[..i + 1][..i] == results[..i];
  }

  /** Every image is the first of its result, and no result with an image is left out. */
  lemma {:induction false} FirstsAre<I>(results: seq<seq<I>>)
    ensures forall x :: x in Firsts(results) <==>
                  exists i :: 0 <= i < |results| && results[i] != [] && results[i][0] == x
  {
    if results != [] {
      var n := |results| - 1;
      FirstsAre(results[..n]);
      forall x ensures x in Firsts(results) <==>
              exists i :: 0 <= i < |results| && results[i] != [] && results[i][0] == x {
        if i :| 0 <= i < |results| && results[i] != [] && results[i][0] == x {
          assert i < n ==> results[..n][i] == results[i];
        }
        if x in Firsts(results[..n]) {
          var i :| 0 <= i < |results[..n]| && results[..n][i] != [] && results[..n][i][0] == x;
          assert results[i] == results[..n][i];
        }
      }
    }
  }

  /** The k-th image kept is the first one of the result at places[k]. */
  ghost predicate FirstsAt<I>(results: seq<seq<I>>, places: seq<nat>) {
    && |places| == |Firsts(results)|
    && forall k :: 0 <= k < |places| ==>
         places[k] < |results| && results[places[k]] != [] && Firsts(results)[k] == results[places[k]][0]
  }

  lemma FirstsAtGrow<I>(results: seq<seq<I>>, last: seq<I>, places: seq<nat>)
    requires FirstsAt(results, places)
    ensures FirstsAt(results + [last], if last == [] then places else places + [|results|])
  {
    var more := results + [last];
    assert more[..|results|] == results;
    assert Firsts(more) == Firsts(results) + if last == [] then [] else [last[0]];
    assert forall k :: 0 <= k < |places| ==> more[places[k]] == results[places[k]];
  }

  ghost predicate Increasing(places: seq<nat>) {
    forall k, l :: 0 <= k < l < |places| ==> places[k] < places[l]
  }

  /** No result with an image is left out. */
  ghost predicate AllIn<I>(results: seq<seq<I>>, places: seq<nat>) {
    forall i: nat :: i < |results| && results[i] != [] ==> i in places
  }

  lemma AllInGrow<I>(results: seq<seq<I>>, last: seq<I>, places: seq<nat>)
    requires AllIn(results, places)
    ensures AllIn(results + [last], if last == [] then places else places + [|results|])
  {
    var more := results + [last];
    assert forall i :: 0 <= i < |results| ==> more[i] == results[i];
  }

  lemma IncreasingGrow(places: seq<nat>, n: nat)
    requires Increasing(places) && forall k :: 0 <= k < |places| ==> places[k] < n
    ensures Increasing(places + [n])
  {
  }

  lemma OneMorePlace<I>(results: seq<seq<I>>, last: seq<I>, places: seq<nat>) returns (more: seq<nat>)
    requires FirstsAt(results, places) && Increasing(places) && AllIn(results, places)
    ensures FirstsAt(results + [last], more) && Increasing(more) && AllIn(results + [last], more)
  {
    FirstsAtGrow(results, last, places);
    AllInGrow(results, last, places);
    if last == [] {
      more := places;
    } else {
      IncreasingGrow(places, |results|);
      more := places + [|results|];
    }
  }

  /** The images kept are in the order of their results, one from each result that has one. */
  lemma {:induction false} FirstsInOrder<I>(results: seq<seq<I>>) returns (places: seq<nat>)
    ensures FirstsAt(results, places) && Increasing(places) && AllIn(results, places)
  {
    if results == [] {
      places := [];
    } else {
      var n := |results| - 1;
      places := FirstsInOrder(results[..n]);
      places := OneMorePlace(results[..n], results[n], places);
      SplitLast(results);
    }
  }

  function LastError<E>(errs: seq<Option<E>>): Option<E> {
    if errs == [] then None
    else if errs[|errs| - 1].Some? then errs[|errs| - 1]
    else LastError(errs[..|errs| - 1])
  }

  function FirstBlocking<E>(errs: seq<Option<E>>, blocks: E -> bool): Option<E> {
    if errs == [] then None
    else
      var e := errs[|errs| - 1];
      var before := FirstBlocking(errs[..|errs| - 1], blocks);
      if before.None? && e.Some? && blocks(e.value) then e else before
  }

  lemma ErrorsGrow<E>(errs: seq<Option<E>>, blocks: E -> bool, i: nat)
    requires i < |errs|
    ensures LastError(errs[..i + 1]) == if errs[i].Some? then errs[i] else LastError(errs[..i])
    ensures var before := FirstBlocking(errs[..i], blocks);
            FirstBlocking(errs[..i + 1], blocks)
            == if before.None? && errs[i].Some? && blocks(errs[i].value) then errs[i] else before
  {
    assert errs[..i + 1][..i] == errs[..i];
  }

  /** The last error is the one with no error after it. */
  lemma {:induction false} LastErrorIs<E>(errs: seq<Option<E>>, i: nat)
    requires i < |errs| && errs[i].Some? && forall j :: i < j < |errs| ==> errs[j].None?
    ensures LastError(errs) == errs[i]
  {
    if i < |errs| - 1 {
      LastErrorIs(errs[..|errs| - 1], i);
    }
  }

  /** The blocking error is the first one that must not be swallowed. */
  lemma {:induction false} FirstBlockingIs<E>(errs: seq<Option<E>>, blocks: E -> bool, i: nat)
    requires i <= |errs| && forall j :: 0 <= j < i && errs[j].Some? ==> !blocks(errs[j].value)
    requires i < |errs| ==> errs[i].Some? && blocks(errs[i].value)
    ensures FirstBlocking(errs, blocks) == if i == |errs| then None else errs[i]
  {
    if errs != [] {
      FirstBlockingIs(errs[..|errs| - 1], blocks, MinInt(i, |errs| - 1));
    }
  }

  /** collectImageBatchResults. An expired context wins, then the first error that must not be swallowed;
      any image beats the other errors; otherwise the last error, or the default one. */
  method Collect<I, E>(contextError: Option<E>, results: seq<seq<I>>, errs: seq<Option<E>>,
                         blocks: E -> bool, noImage: E)
    returns (b: Batch<I, E>)
    ensures b == if contextError.Some? then Broken(contextError.value)
                 else if FirstBlocking(errs, blocks).Some? then Broken(FirstBlocking(errs, blocks).value)
                 else if Firsts(results) != [] then Images(Firsts(results))
                 else if LastError(errs).Some? then Broken(LastError(errs).value)
                 else Broken(noImage)
  {
    var out: seq<I> := [];
    var lastErr: Option<E> := None;
    var blockingErr := contextError;
    var i := 0;
    while i < |results| || i < |errs|
      invariant 0 <= i && (i <= |results| || i <= |errs|)
      invariant out == Firsts(results[..MinInt(i, |results|)])
      invariant lastErr == LastError(errs[..MinInt(i, |errs|)])
      invariant blockingErr ==
                if contextError.Some? then contextError else FirstBlocking(errs[..MinInt(i, |errs|)], blocks)
      decreases |results| + |errs| - i
    {
      if i < |results| {
        FirstsGrow(results, i);
        if |results[i]| > 0 {
          out := out + [results[i][0]];
        }
      }
      if i < |errs| {
        ErrorsGrow(errs, blocks, i);
        if errs[i].Some? {
          lastErr := errs[i];
          if blockingErr.None? && blocks(errs[i].value) {
            blockingErr := errs[i];
          }
        }
      }
      i := i + 1;
    }
    assert results[..MinInt(i, |results|)] == results && errs[..MinInt(i, |errs|)] == errs;
    if blockingErr.Some? {
      return Broken(blockingErr.value);
    }
    if |out| > 0 {
      return Images(out);
    }
    if lastErr.Some? {
      return Broken(lastErr.value);
    }
    return Broken(noImage);
  }
}
