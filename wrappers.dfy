/** The optional-value type used for every fallible operation of the model, and two ways of collecting a list of them. */
module Wrappers {

  /** `absl::optional` in the C++ code; `None` in the Python code. */
  datatype Option<+T> = None | Some(value: T)

  /** All-or-nothing collection: the values when every entry is present, and nothing otherwise. */
  function AllPresent<S>(ps: seq<Option<S>>): (r: Option<seq<S>>)
    ensures r.Some? <==> forall i :: 0 <= i < |ps| ==> ps[i].Some?
    ensures r.Some? ==> |r.value| == |ps| && forall i :: 0 <= i < |ps| ==> ps[i] == Some(r.value[i])
  {
    if ps == [] then Some([])
    else
      var rest := AllPresent(ps[..|ps| - 1]);
      if rest.None? || ps[|ps| - 1].None? then None
      else Some(rest.value + [ps[|ps| - 1].value])
  }

  /** Best-effort collection: the present values, in order, with the absent entries dropped. */
  function Present<S>(ps: seq<Option<S>>): (r: seq<S>)
    ensures |r| <= |ps|
    ensures forall x :: x in r ==> Some(x) in ps
  {
    if ps == [] then []
    else
      var rest := Present(ps[..|ps| - 1]);
      if ps[|ps| - 1].Some? then rest + [ps[|ps| - 1].value] else rest
  }

  /** When every entry is present, the best-effort and the all-or-nothing collections agree. */
  lemma {:induction false} PresentWhenAllPresent<S>(ps: seq<Option<S>>)
    requires forall i :: 0 <= i < |ps| ==> ps[i].Some?
    ensures Present(ps) == AllPresent(ps).value
    decreases |ps|
  {
    if ps != [] {
      PresentWhenAllPresent(ps[..|ps| - 1]);
    }
  }

  /** Every present entry survives the best-effort collection. */
  lemma {:induction false} PresentKeeps<S>(ps: seq<Option<S>>, x: S)
    requires Some(x) in ps
    ensures x in Present(ps)
    decreases |ps|
  {
    if ps[|ps| - 1] != Some(x) {
      assert ps == ps[..|ps| - 1] + [ps[|ps| - 1]];
      PresentKeeps(ps[..|ps| - 1], x);
    }
  }

  /** The best-effort collection keeps the order of its input: absent entries are dropped, nothing moves. */
  lemma {:induction false} PresentConcat<S>(a: seq<Option<S>>, b: seq<Option<S>>)
    ensures Present(a + b) == Present(a) + Present(b)
    decreases |b|
  {
    if b == [] {
      assert a + b == a;
    } else {
      assert (a + b)[..|a + b| - 1] == a + b[..|b| - 1];
      PresentConcat(a, b[..|b| - 1]);
    }
  }
}
