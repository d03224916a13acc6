/**
 * lib.persistence.migration.Migrations: walking the schema version from oldVersion towards
 * newVersion through registered one-version steps. A step's database work is abstract: it
 * either completes or throws with a reason. The walk reports the version reached, the steps
 * whose work completed (by position in the step list, in order) and the exception, if any.
 */
module Migrations {
  import opened Wrappers
  import opened Values

  /** A MigrationStep: from(), to(), and whether its apply(db) throws (and why). */
  datatype Step = Step(from: int, to: int, failure: Option<string>)

  /** Where a walk, or one pass over the steps, stops. */
  datatype Walked = Walked(version: int, applied: seq<nat>, error: Option<Error>)

  /** The step that takes `v` to `v + 1`. */
  predicate Advances(s: Step, v: int) {
    s.from == v && s.to == v + 1
  }

  /** The applied steps advance one version each, starting at `v`. */
  ghost predicate ChainFrom(steps: seq<Step>, applied: seq<nat>, v: int) {
    forall k :: 0 <= k < |applied| ==> applied[k] < |steps| && Advances(steps[applied[k]], v + k)
  }

  /** Positions in increasing order, each below `n`. */
  ghost predicate Ascending(applied: seq<nat>, n: nat) {
    (forall k :: 0 <= k < |applied| ==> applied[k] < n)
    && forall k, l :: 0 <= k < l < |applied| ==> applied[k] < applied[l]
  }

  /**
   * One pass of the inner for loop over `steps`, entered at version `v`: every step that
   * advances the current version is applied on the spot, so consecutive steps chain within a
   * pass; the first step that throws ends the walk.
   */
  function Pass(steps: seq<Step>, v: int): (r: Walked)
    ensures r.version == v + |r.applied|
    ensures ChainFrom(steps, r.applied, v) && Ascending(r.applied, |steps|)
    ensures r.error.Some? ==> r.error.value.MigrationFailed?
  {
    if steps == [] then Walked(v, [], None)
    else
      var n := |steps| - 1;
      var p := Pass(steps[..n], v);
      assert forall k :: 0 <= k < |p.applied| ==> steps[p.applied[k]] == steps[..n][p.applied[k]];
      Visit(p, steps[n], n)
  }

  /** The body of the inner for loop for the step at position `i`, given the pass so far. */
  function Visit(p: Walked, s: Step, i: nat): (r: Walked)
    ensures p.error.Some? ==> r == p
    ensures r.applied == p.applied || (r.applied == p.applied + [i] && r.version == p.version + 1)
    ensures r.applied != p.applied ==> Advances(s, p.version) && s.failure.None? && r.error.None?
    ensures r.applied == p.applied ==> r.version == p.version
    ensures p.error.None? && r.error.Some? ==> r.error.value.MigrationFailed?
  {
    if p.error.Some? then p
    else if Advances(s, p.version) then
      if s.failure.Some? then Walked(p.version, p.applied, Some(MigrationFailed(s.from, s.to, s.failure.value)))
      else Walked(p.version + 1, p.applied + [i], None)
    else p
  }

  /** A walk result with `a` applied before it. */
  function Prefixed(a: seq<nat>, w: Walked): (r: Walked)
    ensures r.version == w.version && r.error == w.error && r.applied == a + w.applied
  {
    Walked(w.version, a + w.applied, w.error)
  }

  /** The outer while loop: passes until the target is reached, a step throws, or a pass finds no step. */
  function Walk(steps: seq<Step>, v: int, target: int): (r: Walked)
    decreases target - v
  {
    if v >= target then Walked(v, [], None)
    else
      var p := Pass(steps, v);
      if p.error.Some? then p
      else if p.applied == [] then Walked(v, [], Some(MissingMigrationStep(v, v + 1)))
      else Prefixed(p.applied, Walk(steps, p.version, target))
  }

  /**
   * `Migrations.apply(db, oldVersion, newVersion)` over the step list `steps`: passes over the
   * steps until the target version is reached; a pass that throws, or that finds no step,
   * ends the walk with IllegalStateException.
   */
  method Apply(steps: seq<Step>, oldVersion: int, newVersion: int) returns (r: Walked)
    ensures r == Walk(steps, oldVersion, newVersion)
  {
    var v := oldVersion;
    var applied: seq<nat> := [];
    while v < newVersion
      invariant Walk(steps, oldVersion, newVersion) == Prefixed(applied, Walk(steps, v, newVersion))
      decreases newVersion - v
    {
      var pass := RunPass(steps, v);
      if pass.error.Some? {
        return Prefixed(applied, pass);
      }
      if pass.applied == [] {
        return Walked(v, applied, Some(MissingMigrationStep(v, v + 1)));
      }
      PrefixedTwice(applied, pass.applied, Walk(steps, pass.version, newVersion));
      applied := applied + pass.applied;
      v := pass.version;
    }
    r := Walked(v, applied, None);
  }

  /**
   * The inner for loop of `apply`, entered at version `v`: applies each step that advances the
   * current version; a step that throws ends it.
   */
  method RunPass(steps: seq<Step>, v: int) returns (r: Walked)
    ensures r == Pass(steps, v)
  {
    var version := v;
    var applied: seq<nat> := [];
    var i := 0;
    while i < |steps|
      invariant 0 <= i <= |steps|
      invariant Pass(steps[..i], v) == Walked(version, applied, None)
    {
      var s := steps[i];
      PassUnfolds(steps, v, i);
      if s.from == version && s.to == version + 1 {
        if s.failure.Some? {
          PassStopsAtFailure(steps, v, i);
          return Walked(version, applied, Some(MigrationFailed(s.from, s.to, s.failure.value)));
        }
        version := version + 1;
        applied := applied + [i];
      }
      i := i + 1;
    }
    assert steps[..i] == steps;
    r := Walked(version, applied, None);
  }

  lemma PassUnfolds(steps: seq<Step>, v: int, i: nat)
    requires i < |steps|
    ensures Pass(steps[..i + 1], v) == Visit(Pass(steps[..i], v), steps[i], i)
  {
    assert steps[..i + 1][..i] == steps[..i];
  }

  lemma PrefixedTwice(a: seq<nat>, b: seq<nat>, w: Walked)
    ensures Prefixed(a, Prefixed(b, w)) == Prefixed(a + b, w)
  {
    assert a + (b + w.applied) == a + b + w.applied;
  }

  /** A step that throws in a pass ends the pass with its error, whatever follows it. */
  lemma {:induction false} PassStopsAtFailure(steps: seq<Step>, v: int, i: nat)
    requires i < |steps| && Pass(steps[..i], v).error.None?
    requires Advances(steps[i], Pass(steps[..i], v).version) && steps[i].failure.Some?
    ensures Pass(steps, v) == Walked(Pass(steps[..i], v).version, Pass(steps[..i], v).applied,
      Some(MigrationFailed(steps[i].from, steps[i].to, steps[i].failure.value)))
  {
    if i + 1 == |steps| {
      assert steps[..|steps| - 1] == steps[..i];
    } else {
      var n := |steps| - 1;
      assert steps[..n][..i] == steps[..i];
      PassStopsAtFailure(steps[..n], v, i);
    }
  }

  /** A pass that throws makes the walk throw the same, before any later pass. */
  lemma WalkKeepsFailure(steps: seq<Step>, v: int, target: int)
    requires v < target && Pass(steps, v).error.Some?
    ensures Walk(steps, v, target) == Pass(steps, v)
  {
  }

  /** A pass that applies nothing and throws nothing saw no step from `v` to `v + 1`. */
  lemma {:induction false} EmptyPassMeansNoStep(steps: seq<Step>, v: int)
    requires Pass(steps, v).error.None? && Pass(steps, v).applied == []
    ensures forall s :: s in steps ==> !Advances(s, v)
  {
    if steps != [] {
      var n := |steps| - 1;
      var p := Pass(steps[..n], v);
      EmptyPassMeansNoStep(steps[..n], v);
      assert forall s :: s in steps ==> s in steps[..n] || s == steps[n];
    }
  }

  /** Step `i` goes from `version` to the next, throws, and `error` is the exception it raises. */
  predicate FailingStep(steps: seq<Step>, i: int, version: int, error: Option<Error>) {
    0 <= i < |steps| && Advances(steps[i], version) && steps[i].failure.Some?
    && error == Some(MigrationFailed(steps[i].from, steps[i].to, steps[i].failure.value))
  }

  /** A pass that throws names a step from its version to the next whose work failed. */
  lemma {:induction false} PassFailureNamesStep(steps: seq<Step>, v: int)
    requires Pass(steps, v).error.Some?
    ensures exists i :: FailingStep(steps, i, Pass(steps, v).version, Pass(steps, v).error)
  {
    var n := |steps| - 1;
    var p := Pass(steps[..n], v);
    if p.error.Some? {
      PassFailureNamesStep(steps[..n], v);
      var i :| FailingStep(steps[..n], i, p.version, p.error);
      assert FailingStep(steps, i, Pass(steps, v).version, Pass(steps, v).error);
    } else {
      assert FailingStep(steps, n, Pass(steps, v).version, Pass(steps, v).error);
    }
  }

  /** Nothing is applied when the database is already at or past the target version. */
  lemma NothingToDo(steps: seq<Step>, oldVersion: int, newVersion: int)
    requires oldVersion >= newVersion
    ensures Walk(steps, oldVersion, newVersion) == Walked(oldVersion, [], None)
  {
  }

  lemma ChainAppend(steps: seq<Step>, a: seq<nat>, b: seq<nat>, v: int)
    requires ChainFrom(steps, a, v) && ChainFrom(steps, b, v + |a|)
    ensures ChainFrom(steps, a + b, v)
  {
    forall k | 0 <= k < |a + b|
      ensures (a + b)[k] < |steps| && Advances(steps[(a + b)[k]], v + k)
    {
      if k >= |a| {
        assert (a + b)[k] == b[k - |a|];
      }
    }
  }

  /**
   * The applied steps form a contiguous chain from oldVersion: the k-th one goes from
   * oldVersion + k to oldVersion + k + 1, and the version reached counts them.
   */
  lemma {:induction false} WalkIsChain(steps: seq<Step>, v: int, target: int)
    ensures Walk(steps, v, target).version == v + |Walk(steps, v, target).applied|
    ensures ChainFrom(steps, Walk(steps, v, target).applied, v)
    decreases target - v
  {
    if v < target {
      var p := Pass(steps, v);
      if p.error.None? && p.applied != [] {
        WalkIsChain(steps, p.version, target);
        ChainAppend(steps, p.applied, Walk(steps, p.version, target).applied, v);
      }
    }
  }

  /** Without an error the walk ends at or past the target. */
  lemma {:induction false} WalkReachesTarget(steps: seq<Step>, v: int, target: int)
    requires Walk(steps, v, target).error.None?
    ensures Walk(steps, v, target).version >= target || (v >= target && Walk(steps, v, target).version == v)
    ensures v < target ==> Walk(steps, v, target).version >= target
    decreases target - v
  {
    if v < target {
      var p := Pass(steps, v);
      if p.error.None? && p.applied != [] {
        WalkReachesTarget(steps, p.version, target);
      }
    }
  }

  /**
   * A walk that stops for a missing step stops at the version that has no step to the next
   * one, names exactly that gap, and keeps the steps applied before it.
   */
  lemma {:induction false} GapIsReported(steps: seq<Step>, v: int, target: int)
    requires Walk(steps, v, target).error.Some? && Walk(steps, v, target).error.value.MissingMigrationStep?
    ensures Walk(steps, v, target).error.value
      == MissingMigrationStep(Walk(steps, v, target).version, Walk(steps, v, target).version + 1)
    ensures Walk(steps, v, target).version < target
    ensures forall s :: s in steps ==> !Advances(s, Walk(steps, v, target).version)
    decreases target - v
  {
    var p := Pass(steps, v);
    if p.error.None? && p.applied == [] {
      EmptyPassMeansNoStep(steps, v);
    } else if p.error.None? {
      assert v < target;
      assert Walk(steps, v, target) == Prefixed(p.applied, Walk(steps, p.version, target));
      GapIsReported(steps, p.version, target);
    }
  }

  /**
   * A walk that stops because a step threw names that step, from the version reached to the
   * next one: the failed step did not advance the version.
   */
  lemma {:induction false} FailureIsReported(steps: seq<Step>, v: int, target: int)
    requires Walk(steps, v, target).error.Some? && Walk(steps, v, target).error.value.MigrationFailed?
    ensures exists i :: FailingStep(steps, i, Walk(steps, v, target).version, Walk(steps, v, target).error)
    decreases target - v
  {
    var p := Pass(steps, v);
    if p.error.Some? {
      PassFailureNamesStep(steps, v);
    } else if p.applied != [] {
      FailureIsReported(steps, p.version, target);
    }
  }

  /**
   * The registered steps, Migrations.STEPS: version 1 to 2 and version 4 to 5; whether their
   * database work throws is a parameter.
   */
  function Registered(first: Option<string>, second: Option<string>): (r: seq<Step>)
    ensures |r| == 2 && Advances(r[0], 1) && Advances(r[1], 4)
  {
    [Step(1, 2, first), Step(4, 5, second)]
  }

  /** Upgrading from 1 to 5 applies the 1→2 step and then stops: there is no step from 2 to 3. */
  lemma RegisteredStepsLeaveAGap(second: Option<string>)
    ensures Walk(Registered(None, second), 1, 5) == Walked(2, [0], Some(MissingMigrationStep(2, 3)))
  {
    var steps := Registered(None, second);
    assert steps[..1] == [steps[0]];
    assert steps[..1][..0] == [];
    assert Pass(steps[..1], 1) == Walked(2, [0], None);
    assert Pass(steps, 1) == Walked(2, [0], None);
    assert Pass(steps[..1], 2) == Walked(2, [], None);
    assert Pass(steps, 2) == Walked(2, [], None);
  }

  /** Upgrading from 4 to 5 runs the 4→5 step alone, or reports its failure. */
  lemma RegisteredStepFromFour(first: Option<string>, second: Option<string>)
    ensures second.None? ==> Walk(Registered(first, second), 4, 5) == Walked(5, [1], None)
    ensures second.Some? ==> Walk(Registered(first, second), 4, 5) == Walked(4, [], Some(MigrationFailed(4, 5, second.value)))
  {
    var steps := Registered(first, second);
    assert steps[..1] == [steps[0]];
    assert steps[..1][..0] == [];
    assert Pass(steps[..1], 4) == Walked(4, [], None);
  }

  /** Steps 1→2 and 2→3 with target 2 apply both in one pass and end at version 3. */
  lemma OvershootsTarget()
    ensures var steps := [Step(1, 2, None), Step(2, 3, None)];
      Walk(steps, 1, 2) == Walked(3, [0, 1], None)
  {
    var steps := [Step(1, 2, None), Step(2, 3, None)];
    assert steps[..1] == [Step(1, 2, None)];
    assert steps[..1][..0] == [];
    assert Pass(steps[..1], 1) == Walked(2, [0], None);
    assert Pass(steps, 1) == Walked(3, [0, 1], None);
  }

  /** One pass as intended: a step is applied only while the version is still below the target. */
  function BoundedPass(steps: seq<Step>, v: int, target: int): (r: Walked)
    ensures r.version == v + |r.applied|
    ensures ChainFrom(steps, r.applied, v) && Ascending(r.applied, |steps|)
    ensures v <= target ==> r.version <= target
  {
    if steps == [] then Walked(v, [], None)
    else
      var n := |steps| - 1;
      var p := BoundedPass(steps[..n], v, target);
      assert forall k :: 0 <= k < |p.applied| ==> steps[p.applied[k]] == steps[..n][p.applied[k]];
      if p.error.Some? then p
      else if Advances(steps[n], p.version) && p.version < target then
        if steps[n].failure.Some? then
          Walked(p.version, p.applied, Some(MigrationFailed(steps[n].from, steps[n].to, steps[n].failure.value)))
        else Walked(p.version + 1, p.applied + [n], None)
      else p
  }

  /** The walk as intended: it never applies a step that leaves the target version behind. */
  function BoundedWalk(steps: seq<Step>, v: int, target: int): (r: Walked)
    decreases target - v
  {
    if v >= target then Walked(v, [], None)
    else
      var p := BoundedPass(steps, v, target);
      if p.error.Some? then p
      else if p.applied == [] then Walked(v, [], Some(MissingMigrationStep(v, v + 1)))
      else
        var rest := BoundedWalk(steps, p.version, target);
        Walked(rest.version, p.applied + rest.applied, rest.error)
  }

  /** Without an error the intended walk ends exactly at the target, through a contiguous chain. */
  lemma {:induction false} BoundedWalkLandsOnTarget(steps: seq<Step>, v: int, target: int)
    requires v <= target
    ensures BoundedWalk(steps, v, target).version == v + |BoundedWalk(steps, v, target).applied|
    ensures BoundedWalk(steps, v, target).version <= target
    ensures ChainFrom(steps, BoundedWalk(steps, v, target).applied, v)
    ensures BoundedWalk(steps, v, target).error.None? ==> BoundedWalk(steps, v, target).version == target
    decreases target - v
  {
    if v < target {
      var p := BoundedPass(steps, v, target);
      if p.error.None? && p.applied != [] {
        BoundedWalkLandsOnTarget(steps, p.version, target);
        ChainAppend(steps, p.applied, BoundedWalk(steps, p.version, target).applied, v);
      }
    }
  }

  /** On the steps that overshoot, the intended walk stops at the target after the first step. */
  lemma BoundedWalkStopsAtTarget()
    ensures var steps := [Step(1, 2, None), Step(2, 3, None)];
      BoundedWalk(steps, 1, 2) == Walked(2, [0], None)
  {
    var steps := [Step(1, 2, None), Step(2, 3, None)];
    assert steps[..1] == [Step(1, 2, None)];
    assert steps[..1][..0] == [];
    assert BoundedPass(steps[..1], 1, 2) == Walked(2, [0], None);
    assert BoundedPass(steps, 1, 2) == Walked(2, [0], None);
  }
}
