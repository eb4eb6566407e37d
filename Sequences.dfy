/** List plumbing shared by the three scripts: joining lists with `+=`, and a
    loop that appends one result per input until the first exception. */
module Sequences {
  import opened Wrappers

  /** The lists of `segs` joined in order, as repeated `all += seg` builds them. */
  function Concat<T>(segs: seq<seq<T>>): seq<T>
  {
    if segs == [] then [] else segs[0] + Concat(segs[1..])
  }

  /** The sum of the lengths of the lists in `segs`. */
  function TotalLength<T>(segs: seq<seq<T>>): nat
  {
    if segs == [] then 0 else |segs[0]| + TotalLength(segs[1..])
  }

  lemma {:induction false} ConcatAppend<T>(a: seq<seq<T>>, b: seq<seq<T>>)
    ensures Concat(a + b) == Concat(a) + Concat(b)
  {
    if a == [] {
      assert a + b == b;
    } else {
      assert (a + b)[1..] == a[1..] + b;
      ConcatAppend(a[1..], b);
    }
  }

  /** Joining the lists up to and including `segs[d]`. */
  lemma ConcatSnoc<T>(segs: seq<seq<T>>, d: nat)
    requires d < |segs|
    ensures Concat(segs[..d + 1]) == Concat(segs[..d]) + segs[d]
  {
    assert segs[..d + 1] == segs[..d] + [segs[d]];
    ConcatAppend(segs[..d], [segs[d]]);
    assert Concat([segs[d]]) == segs[d] + Concat([]);
  }

  lemma {:induction false} ConcatLength<T>(segs: seq<seq<T>>)
    ensures |Concat(segs)| == TotalLength(segs)
  {
    if segs != [] {
      ConcatLength(segs[1..]);
    }
  }

  /** Element `k` of list `s` lands at offset TotalLength(segs[..s]) + k:
      list order first, then the order within each list. */
  lemma {:induction false} ConcatAt<T>(segs: seq<seq<T>>, s: nat, k: nat)
    requires s < |segs| && k < |segs[s]|
    ensures TotalLength(segs[..s]) + k < |Concat(segs)|
    ensures Concat(segs)[TotalLength(segs[..s]) + k] == segs[s][k]
  {
    ConcatLength(segs);
    if s == 0 {
      assert segs[..0] == [];
    } else {
      ConcatAt(segs[1..], s - 1, k);
      assert segs[..s][1..] == segs[1..][..s - 1];
      assert segs[..s][0] == segs[0];
    }
  }

  /** Lists that all have length `n` join to a list of length |segs| * n. */
  lemma {:induction false} UniformLength<T>(segs: seq<seq<T>>, n: nat)
    requires forall i :: 0 <= i < |segs| ==> |segs[i]| == n
    ensures TotalLength(segs) == |segs| * n
  {
    if segs != [] {
      UniformLength(segs[1..], n);
      assert |segs| * n == n + (|segs| - 1) * n;
    }
  }

  /** What a loop that appends one result per input leaves behind: the results
      appended so far and, if an input raised, that input's error. The loop
      stops at the first error. */
  datatype Run<T, E> = Run(written: seq<T>, failure: Option<E>)

  function Stream<A, B, E>(f: A -> Result<B, E>, xs: seq<A>): Run<B, E>
    decreases |xs|
  {
    if xs == [] then Run([], None)
    else
      var prev := Stream(f, xs[..|xs| - 1]);
      if prev.failure.Some? then prev
      else match f(xs[|xs| - 1])
        case Failure(e) => Run(prev.written, Some(e))
        case Success(y) => Run(prev.written + [y], None)
  }

  /** The results are those of a prefix of the inputs, in input order; the loop
      stops exactly at the first input whose result is an error. */
  lemma {:induction false} StreamMeaning<A, B, E>(f: A -> Result<B, E>, xs: seq<A>)
    ensures |Stream(f, xs).written| <= |xs|
    ensures forall i :: 0 <= i < |Stream(f, xs).written| ==>
      f(xs[i]).Success? && Stream(f, xs).written[i] == f(xs[i]).value
    ensures Stream(f, xs).failure.None? ==> |Stream(f, xs).written| == |xs|
    ensures Stream(f, xs).failure.Some? ==>
      |Stream(f, xs).written| < |xs| && f(xs[|Stream(f, xs).written|]) == Failure(Stream(f, xs).failure.value)
    decreases |xs|
  {
    if xs != [] {
      var init := xs[..|xs| - 1];
      StreamMeaning(f, init);
      assert forall i :: 0 <= i < |init| ==> init[i] == xs[i];
    }
  }

  /** Once the loop has failed, later inputs change nothing. */
  lemma {:induction false} StreamStops<A, B, E>(f: A -> Result<B, E>, xs: seq<A>, ys: seq<A>)
    requires Stream(f, xs).failure.Some?
    ensures Stream(f, xs + ys) == Stream(f, xs)
    decreases |ys|
  {
    if ys == [] {
      assert xs + ys == xs;
    } else {
      StreamStops(f, xs, ys[..|ys| - 1]);
      assert (xs + ys)[..|xs + ys| - 1] == xs + ys[..|ys| - 1];
    }
  }

  /** One more input for a loop that has not failed yet. */
  lemma StreamSnoc<A, B, E>(f: A -> Result<B, E>, xs: seq<A>, x: A)
    requires Stream(f, xs).failure.None?
    ensures Stream(f, xs + [x]) ==
      match f(x)
      case Failure(e) => Run(Stream(f, xs).written, Some(e))
      case Success(y) => Run(Stream(f, xs).written + [y], None)
  {
    assert (xs + [x])[..|xs|] == xs;
  }

  /** A failure inside a nested loop over `segs` (outer position `d`, inner
      position `g`) is the failure of the loop over all of Concat(segs). */
  lemma StreamStopsInside<A, B, E>(f: A -> Result<B, E>, segs: seq<seq<A>>, d: nat, g: nat)
    requires d < |segs| && g <= |segs[d]|
    requires Stream(f, Concat(segs[..d]) + segs[d][..g]).failure.Some?
    ensures Stream(f, Concat(segs)) == Stream(f, Concat(segs[..d]) + segs[d][..g])
  {
    ConcatSplit(segs, d, g);
    StreamStops(f, Concat(segs[..d]) + segs[d][..g], segs[d][g..] + Concat(segs[d + 1..]));
  }

  /** Concat(segs) cut at inner position `g` of segment `d`. */
  lemma ConcatSplit<T>(segs: seq<seq<T>>, d: nat, g: nat)
    requires d < |segs| && g <= |segs[d]|
    ensures Concat(segs) == (Concat(segs[..d]) + segs[d][..g]) + (segs[d][g..] + Concat(segs[d + 1..]))
  {
    var tail := [segs[d]] + segs[d + 1..];
    assert segs == segs[..d] + tail;
    ConcatAppend(segs[..d], tail);
    assert tail[1..] == segs[d + 1..];
    assert Concat(tail) == segs[d] + Concat(segs[d + 1..]);
    assert segs[d] == segs[d][..g] + segs[d][g..];
  }

  /** The prefix of Concat(segs) that a nested loop over `segs` has consumed
      at outer position `d` and inner position `g`. */
  function Consumed<T>(segs: seq<seq<T>>, d: nat, g: nat): seq<T>
    requires d < |segs| && g <= |segs[d]|
  {
    Concat(segs[..d]) + segs[d][..g]
  }

  lemma ConsumedStart<T>(segs: seq<seq<T>>, d: nat)
    requires d < |segs|
    ensures Consumed(segs, d, 0) == Concat(segs[..d])
  {
    assert segs[d][..0] == [];
  }

  lemma ConsumedRow<T>(segs: seq<seq<T>>, d: nat)
    requires d < |segs|
    ensures Consumed(segs, d, |segs[d]|) == Concat(segs[..d + 1])
  {
    assert segs[d][..|segs[d]|] == segs[d];
    ConcatSnoc(segs, d);
  }

  /** One step of the inner loop of a nested loop that has not failed yet; a
      failure there is the failure of the loop over all of Concat(segs). */
  lemma NestedStep<A, B, E>(f: A -> Result<B, E>, segs: seq<seq<A>>, d: nat, g: nat)
    requires d < |segs| && g < |segs[d]|
    requires Stream(f, Consumed(segs, d, g)).failure.None?
    ensures Stream(f, Consumed(segs, d, g + 1)) ==
      match f(segs[d][g])
      case Failure(e) => Run(Stream(f, Consumed(segs, d, g)).written, Some(e))
      case Success(y) => Run(Stream(f, Consumed(segs, d, g)).written + [y], None)
    ensures f(segs[d][g]).Failure? ==> Stream(f, Concat(segs)) == Stream(f, Consumed(segs, d, g + 1))
  {
    StreamSnoc(f, Consumed(segs, d, g), segs[d][g]);
    ConsumedStep(segs, d, g);
    if f(segs[d][g]).Failure? {
      StreamStopsInside(f, segs, d, g + 1);
    }
  }

  /** One step of a flat loop that has not failed yet; a failure there is
      the failure of the loop over all of `xs`. */
  lemma FlatStep<A, B, E>(f: A -> Result<B, E>, xs: seq<A>, i: nat)
    requires i < |xs|
    requires Stream(f, xs[..i]).failure.None?
    ensures Stream(f, xs[..i + 1]) ==
      match f(xs[i])
      case Failure(e) => Run(Stream(f, xs[..i]).written, Some(e))
      case Success(y) => Run(Stream(f, xs[..i]).written + [y], None)
    ensures f(xs[i]).Failure? ==> Stream(f, xs) == Stream(f, xs[..i + 1])
  {
    StreamPrefixStep(f, xs, i);
    if f(xs[i]).Failure? {
      StreamStopsAt(f, xs, i + 1);
    }
  }

  lemma StreamPrefixStep<A, B, E>(f: A -> Result<B, E>, xs: seq<A>, i: nat)
    requires i < |xs|
    requires Stream(f, xs[..i]).failure.None?
    ensures Stream(f, xs[..i + 1]) ==
      match f(xs[i])
      case Failure(e) => Run(Stream(f, xs[..i]).written, Some(e))
      case Success(y) => Run(Stream(f, xs[..i]).written + [y], None)
  {
    StreamSnoc(f, xs[..i], xs[i]);
    assert xs[..i] + [xs[i]] == xs[..i + 1];
  }

  /** Once the first `n` inputs have failed, the rest change nothing. */
  lemma StreamStopsAt<A, B, E>(f: A -> Result<B, E>, xs: seq<A>, n: nat)
    requires n <= |xs| && Stream(f, xs[..n]).failure.Some?
    ensures Stream(f, xs) == Stream(f, xs[..n])
  {
    StreamStops(f, xs[..n], xs[n..]);
    assert xs[..n] + xs[n..] == xs;
  }

  lemma ConsumedStep<T>(segs: seq<seq<T>>, d: nat, g: nat)
    requires d < |segs| && g < |segs[d]|
    ensures Consumed(segs, d, g) + [segs[d][g]] == Consumed(segs, d, g + 1)
  {
    assert segs[d][..g] + [segs[d][g]] == segs[d][..g + 1];
  }

  /** Applying `f` to every input in order, all or nothing: the result is the
      error of the first failing input, if any. */
  function MapAll<A, B, E>(f: A -> Result<B, E>, xs: seq<A>): Result<seq<B>, E>
  {
    var run := Stream(f, xs);
    if run.failure.Some? then Failure(run.failure.value) else Success(run.written)
  }

  lemma MapAllMeaning<A, B, E>(f: A -> Result<B, E>, xs: seq<A>)
    ensures MapAll(f, xs).Success? <==> forall i :: 0 <= i < |xs| ==> f(xs[i]).Success?
    ensures MapAll(f, xs).Success? ==>
      |MapAll(f, xs).value| == |xs| &&
      forall i :: 0 <= i < |xs| ==> MapAll(f, xs).value[i] == f(xs[i]).value
    ensures MapAll(f, xs).Failure? ==>
      exists k :: 0 <= k < |xs| && f(xs[k]) == Failure(MapAll(f, xs).error) &&
        forall i :: 0 <= i < k ==> f(xs[i]).Success?
  {
    StreamMeaning(f, xs);
    var run := Stream(f, xs);
    if run.failure.Some? {
      var k := |run.written|;
      assert f(xs[k]) == Failure(MapAll(f, xs).error);
    }
  }

  /** Item `k` of segment `s` of a nested all-or-nothing loop that succeeded
      is at position TotalLength(segs[..s]) + k of its result. */
  lemma MapAllAt<A, B, E>(f: A -> Result<B, E>, segs: seq<seq<A>>, s: nat, k: nat)
    requires MapAll(f, Concat(segs)).Success?
    requires s < |segs| && k < |segs[s]|
    ensures |MapAll(f, Concat(segs)).value| == TotalLength(segs)
    ensures TotalLength(segs[..s]) + k < TotalLength(segs)
    ensures f(segs[s][k]).Success?
    ensures MapAll(f, Concat(segs)).value[TotalLength(segs[..s]) + k] == f(segs[s][k]).value
  {
    ConcatLength(segs);
    ConcatAt(segs, s, k);
    MapAllMeaning(f, Concat(segs));
    assert Concat(segs)[TotalLength(segs[..s]) + k] == segs[s][k];
  }
}
