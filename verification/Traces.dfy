/** What the order of the steps of a run says, for any kind of step. */
module Traces {

  /** Says something of a step and the steps before it. */
  type Mark<!T> = (seq<T>, T) -> bool

  /** Some step is marked by `on`, and none after it by `off`. */
  ghost predicate Held<T(!new)>(steps: seq<T>, on: Mark<T>, off: Mark<T>) {
    exists k :: 0 <= k < |steps| && on(steps[..k], steps[k]) && NotAfter(steps, off, k)
  }

  ghost predicate NotAfter<T>(steps: seq<T>, off: Mark<T>, k: nat) {
    forall j :: k < j < |steps| ==> !off(steps[..j], steps[j])
  }

  lemma HeldNext<T(!new)>(steps: seq<T>, t: T, on: Mark<T>, off: Mark<T>)
    ensures Held(steps + [t], on, off) <==> on(steps, t) || (Held(steps, on, off) && !off(steps, t))
  {
    var more := steps + [t];
    assert more[..|steps|] == steps && more[|steps|] == t;
    forall k | 0 <= k < |steps| ensures NotAfter(more, off, k) <==> NotAfter(steps, off, k) && !off(steps, t) {
      assert forall j :: 0 <= j < |steps| ==> more[..j] == steps[..j] && more[j] == steps[j];
    }
    assert NotAfter(more, off, |steps|);
    assert forall k :: 0 <= k < |steps| ==> more[..k] == steps[..k] && more[k] == steps[k];
    if Held(more, on, off) {
      var k :| 0 <= k < |more| && on(more[..k], more[k]) && NotAfter(more, off, k);
      assert k < |steps| ==> on(steps[..k], steps[k]) && NotAfter(steps, off, k);
    }
    if Held(steps, on, off) && !off(steps, t) {
      var k :| 0 <= k < |steps| && on(steps[..k], steps[k]) && NotAfter(steps, off, k);
      assert on(more[..k], more[k]) && NotAfter(more, off, k);
    }
    if on(steps, t) { assert on(more[..|steps|], more[|steps|]); }
  }

  ghost function Never<T>(): Mark<T> { (before: seq<T>, t: T) => false }

  ghost function Is<T>(step: T): Mark<T> { (before: seq<T>, t: T) => t == step }

  /** The step has been made. */
  ghost predicate Made<T(!new)>(steps: seq<T>, step: T) { Held(steps, Is(step), Never()) }
}
