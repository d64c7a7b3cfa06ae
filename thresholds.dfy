/** The threshold engine behind Body.Warn: a scan, in index order, of a table of
    break-points for the first one that a value has fallen across. The tables are
    not sorted, so "first" means first by index, never smallest by value. */
module Thresholds {

  datatype Option<T> = None | Some(value: T)

  /** A downward crossing of `t`: strictly above before, at or below after. */
  predicate Crosses(oldValue: real, newValue: real, t: real) {
    oldValue > t >= newValue
  }

  /** `i` is a crossed index and no earlier index was crossed. */
  predicate IsFirstCrossing(oldValue: real, newValue: real, ts: seq<real>, i: int) {
    0 <= i < |ts| && Crosses(oldValue, newValue, ts[i]) &&
    forall j :: 0 <= j < i ==> !Crosses(oldValue, newValue, ts[j])
  }

  /** The index of the first crossed threshold, if any. */
  function FirstCrossing(oldValue: real, newValue: real, ts: seq<real>): (r: Option<nat>)
    ensures r.Some? ==> IsFirstCrossing(oldValue, newValue, ts, r.value)
    ensures r.None? ==> forall j :: 0 <= j < |ts| ==> !Crosses(oldValue, newValue, ts[j])
  {
    if ts == [] then None
    else if Crosses(oldValue, newValue, ts[0]) then Some(0)
    else match FirstCrossing(oldValue, newValue, ts[1..])
      case None =>
        assert forall j :: 1 <= j < |ts| ==> ts[j] == ts[1..][j - 1];
        None
      case Some(i) =>
        assert forall j :: 1 <= j <= i ==> ts[j] == ts[1..][j - 1];
        Some(i + 1)
  }

  /** At most one index can be the first crossing. */
  lemma FirstCrossingUnique(oldValue: real, newValue: real, ts: seq<real>, i: int)
    requires IsFirstCrossing(oldValue, newValue, ts, i)
    ensures FirstCrossing(oldValue, newValue, ts) == Some(i)
  {
  }

  /** A value that did not fall crosses nothing. */
  lemma NoCrossingWithoutFall(oldValue: real, newValue: real, ts: seq<real>)
    requires newValue >= oldValue
    ensures FirstCrossing(oldValue, newValue, ts) == None
  {
  }

  /** The read-only loop of Body.Warn (Body.cs:597-609): index order, stop at the first hit. */
  method Scan(oldValue: real, newValue: real, ts: seq<real>) returns (r: Option<nat>)
    ensures r.Some? ==> IsFirstCrossing(oldValue, newValue, ts, r.value)
    ensures r.None? ==> forall j :: 0 <= j < |ts| ==> !Crosses(oldValue, newValue, ts[j])
    ensures r == FirstCrossing(oldValue, newValue, ts)
  {
    var index := 0;
    while index < |ts|
      invariant 0 <= index <= |ts|
      invariant forall j :: 0 <= j < index ==> !Crosses(oldValue, newValue, ts[j])
    {
      if oldValue > ts[index] && newValue <= ts[index] {
        FirstCrossingUnique(oldValue, newValue, ts, index);
        return Some(index);
      }
      index := index + 1;
    }
    return None;
  }
}
