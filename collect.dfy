/** The iterator pipelines of the test harnesses: `filter`, and `map` or `filter_map`
    collected into a vector. A step's error ends a `collect::<Result<Vec<_>, _>>()`;
    a step's panic ends any pipeline; both surface as the pipeline's outcome. */
module Collect {
  import opened Wrappers

  /** `filter(p)`: the elements that satisfy `p`, in order. */
  function Filter<A>(p: A -> bool, xs: seq<A>): (ys: seq<A>)
    ensures |ys| <= |xs|
    ensures forall k :: 0 <= k < |ys| ==> p(ys[k])
    ensures forall k :: 0 <= k < |ys| ==> ys[k] in xs
    ensures (forall i :: 0 <= i < |xs| ==> p(xs[i])) ==> ys == xs
  {
    if xs == [] then []
    else
      var rest := Filter(p, xs[1..]);
      assert forall i :: 1 <= i < |xs| ==> xs[1..][i - 1] == xs[i];
      (if p(xs[0]) then [xs[0]] else []) + rest
  }

  /** `map(f).collect()`: every value in order, or the first failure. */
  function MapAll<A, B>(f: A -> Result<B>, xs: seq<A>): (r: Result<seq<B>>)
    ensures r.Ok? ==> |r.value| == |xs|
  {
    if xs == [] then Ok([])
    else
      var y :- f(xs[0]);
      var rest :- MapAll(f, xs[1..]);
      Ok([y] + rest)
  }

  /** The values that are present, in order. */
  function Kept<B>(ys: seq<Option<B>>): (r: seq<B>)
    ensures |r| <= |ys|
    ensures forall k :: 0 <= k < |r| ==> Some(r[k]) in ys
  {
    if ys == [] then []
    else
      var rest := Kept(ys[1..]);
      assert forall k :: 0 <= k < |rest| ==> Some(rest[k]) in ys;
      (if ys[0].Some? then [ys[0].value] else []) + rest
  }

  /** `filter_map(f).collect()`: the values `f` keeps, in order, or the first failure. */
  function FilterMapAll<A, B>(f: A -> Result<Option<B>>, xs: seq<A>): Result<seq<B>>
  {
    if xs == [] then Ok([])
    else
      var y :- f(xs[0]);
      var rest :- FilterMapAll(f, xs[1..]);
      Ok((if y.Some? then [y.value] else []) + rest)
  }

  // ----- properties -----

  /** The outcome of `map(f).collect()`: all values, each `f` of its element, when every
      step succeeds; otherwise the failure of the first step that fails. */
  lemma {:induction false} MapAllOutcome<A, B>(f: A -> Result<B>, xs: seq<A>)
    ensures MapAll(f, xs).Ok? <==> forall i :: 0 <= i < |xs| ==> f(xs[i]).Ok?
    ensures MapAll(f, xs).Ok? ==> forall i :: 0 <= i < |xs| ==> f(xs[i]) == Ok(MapAll(f, xs).value[i])
    ensures !MapAll(f, xs).Ok? ==>
              exists k :: 0 <= k < |xs| && !f(xs[k]).Ok? && MapAll(f, xs) == f(xs[k]).PropagateFailure() &&
                          forall j :: 0 <= j < k ==> f(xs[j]).Ok?
  {
    if xs != [] {
      var tail := xs[1..];
      assert forall i :: 1 <= i < |xs| ==> tail[i - 1] == xs[i];
      MapAllOutcome(f, tail);
      var y := f(xs[0]);
      if !y.Ok? {
        assert !MapAll(f, xs).Ok? && MapAll(f, xs) == y.PropagateFailure();
      } else if MapAll(f, tail).Ok? {
        var v := MapAll(f, xs).value;
        assert v == [y.value] + MapAll(f, tail).value;
        assert forall i :: 1 <= i < |xs| ==> v[i] == MapAll(f, tail).value[i - 1];
      } else {
        var k :| 0 <= k < |tail| && !f(tail[k]).Ok? && MapAll(f, tail) == f(tail[k]).PropagateFailure() &&
                 forall j :: 0 <= j < k ==> f(tail[j]).Ok?;
        assert f(xs[k + 1]) == f(tail[k]);
        assert forall j :: 1 <= j < k + 1 ==> f(xs[j]) == f(tail[j - 1]);
      }
    }
  }

  /** `filter_map(f).collect()` is `map(f).collect()` followed by dropping the absent
      values: the same failure, and otherwise the values kept. */
  lemma {:induction false} FilterMapAllIsMapAll<A, B>(f: A -> Result<Option<B>>, xs: seq<A>)
    ensures FilterMapAll(f, xs).Ok? <==> MapAll(f, xs).Ok?
    ensures MapAll(f, xs).Ok? ==> FilterMapAll(f, xs).value == Kept(MapAll(f, xs).value)
    ensures !MapAll(f, xs).Ok? ==> FilterMapAll(f, xs) == MapAll(f, xs).PropagateFailure()
  {
    if xs != [] {
      FilterMapAllIsMapAll(f, xs[1..]);
      var y := f(xs[0]);
      if y.Ok? && MapAll(f, xs[1..]).Ok? {
        var ys := MapAll(f, xs).value;
        assert ys == [y.value] + MapAll(f, xs[1..]).value;
        assert ys[0] == y.value && ys[1..] == MapAll(f, xs[1..]).value;
      }
    }
  }

  /** Every value `filter_map(f).collect()` yields is kept by `f` from some element. */
  lemma FilterMapAllSound<A, B>(f: A -> Result<Option<B>>, xs: seq<A>)
    requires FilterMapAll(f, xs).Ok?
    ensures forall y :: y in FilterMapAll(f, xs).value ==> exists i :: 0 <= i < |xs| && f(xs[i]) == Ok(Some(y))
  {
    FilterMapAllIsMapAll(f, xs);
    MapAllOutcome(f, xs);
    var ys := MapAll(f, xs).value;
    forall y | y in FilterMapAll(f, xs).value
      ensures exists i :: 0 <= i < |xs| && f(xs[i]) == Ok(Some(y))
    {
      assert Some(y) in ys;
      var i :| 0 <= i < |ys| && ys[i] == Some(y);
      assert f(xs[i]) == Ok(Some(y));
    }
  }

  /** An element `f` drops, which is what `filter(p)` removes, does not change the
      outcome: filtering first and `filter_map` afterwards is the same pipeline. */
  lemma {:induction false} FilterFirst<A, B>(p: A -> bool, f: A -> Result<Option<B>>, xs: seq<A>)
    requires forall x :: !p(x) ==> f(x) == Ok(None)
    ensures FilterMapAll(f, Filter(p, xs)) == FilterMapAll(f, xs)
  {
    if xs != [] {
      FilterFirst(p, f, xs[1..]);
      var ys := Filter(p, xs);
      if p(xs[0]) {
        assert ys == [xs[0]] + Filter(p, xs[1..]);
        assert ys[0] == xs[0] && ys[1..] == Filter(p, xs[1..]);
      } else {
        assert f(xs[0]) == Ok(None);
        assert ys == Filter(p, xs[1..]);
        var rest := FilterMapAll(f, xs[1..]);
        if rest.Ok? {
          assert [] + rest.value == rest.value;
        }
      }
    }
  }

  /** The pipelines run element by element: over two runs of elements, the outcome is the
      first run's failure, or its values followed by the second run's outcome. */
  lemma {:induction false} FilterMapAllAppend<A, B>(f: A -> Result<Option<B>>, xs: seq<A>, zs: seq<A>)
    ensures !FilterMapAll(f, xs).Ok? ==> FilterMapAll(f, xs + zs) == FilterMapAll(f, xs)
    ensures FilterMapAll(f, xs).Ok? && !FilterMapAll(f, zs).Ok? ==> FilterMapAll(f, xs + zs) == FilterMapAll(f, zs)
    ensures FilterMapAll(f, xs).Ok? && FilterMapAll(f, zs).Ok? ==>
              FilterMapAll(f, xs + zs) == Ok(FilterMapAll(f, xs).value + FilterMapAll(f, zs).value)
  {
    if xs == [] {
      assert xs + zs == zs;
      if FilterMapAll(f, zs).Ok? {
        assert [] + FilterMapAll(f, zs).value == FilterMapAll(f, zs).value;
      }
    } else {
      assert (xs + zs)[0] == xs[0];
      assert (xs + zs)[1..] == xs[1..] + zs;
      FilterMapAllAppend(f, xs[1..], zs);
      var y := f(xs[0]);
      if y.Ok? && FilterMapAll(f, xs[1..]).Ok? && FilterMapAll(f, zs).Ok? {
        var h := if y.value.Some? then [y.value.value] else [];
        var a := FilterMapAll(f, xs[1..]).value;
        var b := FilterMapAll(f, zs).value;
        assert h + (a + b) == (h + a) + b;
      }
    }
  }
}
