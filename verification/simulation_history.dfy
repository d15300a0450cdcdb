/** The record of simulation states kept for the animation
    (simulationhistory.h, simulationhistory.cpp): for every body a flat
    row of positions and one of velocities, three numbers per saved state,
    and the time stamp of each state. */
module SimulationHistories {
  import opened Outcomes
  import opened Vectors
  import opened Universes
  import opened SimulationTimes

  /** The three numbers a vector adds to a row. */
  function Coordinates(v: Vector): (r: seq<real>)
    ensures |r| == 3
  {
    [v.x, v.y, v.z]
  }

  /** The vector stored for state `index` in a row. */
  function Triple(row: seq<real>, index: nat): Vector
    requires 3 * index + 2 < |row|
  {
    Vector(row[3 * index], row[3 * index + 1], row[3 * index + 2])
  }

  /** Appending a vector's coordinates to a row of `k` states stores that
      vector as state `k` and leaves the earlier states as they were. */
  lemma ReadBack(row: seq<real>, v: Vector, k: nat)
    requires |row| == 3 * k
    ensures Triple(row + Coordinates(v), k) == v
    ensures forall j :: 0 <= j < k ==> Triple(row + Coordinates(v), j) == Triple(row, j)
  {
  }

  /** After one save, the newest state of every row is the vector the
      save appended for the body of that index. */
  lemma GrownReadsBack(rows: seq<seq<real>>, u: seq<Body>, pick: Body -> Vector, count: nat)
    requires |rows| == |u| && forall i :: 0 <= i < |rows| ==> |rows[i]| == 3 * count
    ensures forall i :: 0 <= i < |u| ==> |Grown(rows, u, pick)[i]| == 3 * count + 3
    ensures forall i :: 0 <= i < |u| ==> Triple(Grown(rows, u, pick)[i], count) == pick(u[i])
  {
    forall i | 0 <= i < |u|
      ensures Triple(Grown(rows, u, pick)[i], count) == pick(u[i])
    {
      ReadBack(rows[i], pick(u[i]), count);
    }
  }

  /** Truncating a row after `k` states keeps the states before `k`. */
  lemma TruncationKeepsPrefix(row: seq<real>, k: nat, j: nat)
    requires 3 * k <= |row| && j < k
    ensures Triple(row[..3 * k], j) == Triple(row, j)
  {
  }

  /** The rows after one save: every row of `rows` with the coordinates
      `pick` selects from the body of the same index appended. */
  function Grown(rows: seq<seq<real>>, u: seq<Body>, pick: Body -> Vector): (r: seq<seq<real>>)
    requires |rows| == |u|
    ensures |r| == |u| && forall i :: 0 <= i < |u| ==> r[i] == rows[i] + Coordinates(pick(u[i]))
  {
    seq(|u|, i requires 0 <= i < |u| => rows[i] + Coordinates(pick(u[i])))
  }

  /** The rows a save starts from: `resize(N)` gives empty rows on the
      first save. */
  function StartRows(rows: seq<seq<real>>, n: nat, size: nat): (r: seq<seq<real>>)
    requires n == 0 || |rows| == size
    ensures |r| == size
    ensures n == 0 ==> forall i :: 0 <= i < size ==> r[i] == []
  {
    if n == 0 then seq(size, _ => []) else rows
  }

  /** The exception `save` throws, if any, in the order it checks: an empty
      universe, a body count other than the saved one, a time before the
      last saved time (an equal time is accepted). */
  function SaveError(n: nat, times: seq<real>, size: nat, time: real): (r: Outcome)
    ensures r.Pass? <==> size > 0 && (n == 0 || size == n) && (|times| == 0 || times[|times| - 1] <= time)
    ensures size == 0 ==> r == Fail(EmptyUniverse)
    ensures size > 0 && n > 0 && size != n ==> r == Fail(UniverseSizeChanged)
    ensures r == Fail(OldState) <==> size > 0 && (n == 0 || size == n) && |times| > 0 && time < times[|times| - 1]
  {
    if size == 0 then Fail(EmptyUniverse)
    else if n > 0 && size != n then Fail(UniverseSizeChanged)
    else if |times| > 0 && time < times[|times| - 1] then Fail(OldState)
    else Pass
  }

  /** Time stamps in non-decreasing order. */
  predicate Sorted(times: seq<real>)
  {
    forall i, j :: 0 <= i < j < |times| ==> times[i] <= times[j]
  }

  /** A time stamp no earlier than the last keeps the stamps sorted. */
  lemma SortedSnoc(times: seq<real>, t: real)
    requires Sorted(times) && (|times| == 0 || times[|times| - 1] <= t)
    ensures Sorted(times + [t])
  {
    if |times| > 0 {
      assert forall i :: 0 <= i < |times| ==> times[i] <= times[|times| - 1];
    }
  }

  class SimulationHistory {
    var positions: seq<seq<real>>
    var velocities: seq<seq<real>>
    var times: seq<real>
    var n: nat

    /** One row per saved body, three numbers per state in every row, the
        time stamps sorted, and no bodies exactly when no states. */
    ghost predicate Valid()
      reads this
    {
      && |positions| == n && |velocities| == n
      && (forall i :: 0 <= i < n ==> |positions[i]| == 3 * |times|)
      && (forall i :: 0 <= i < n ==> |velocities[i]| == 3 * |times|)
      && Sorted(times)
      && (n == 0 <==> |times| == 0)
    }

    constructor ()
      ensures Valid() && n == 0 && times == [] && positions == [] && velocities == []
    {
      positions := [];
      velocities := [];
      times := [];
      n := 0;
    }

    /** `empty()`. */
    function Empty(): (r: bool)
      reads this
      requires Valid()
      ensures r <==> n == 0
      ensures r <==> HistorySize() == 0
    {
      n == 0
    }

    /** `universeSize()`. */
    function UniverseSize(): nat
      reads this
    {
      n
    }

    /** `historySize()`: the number of saved states. */
    function HistorySize(): nat
      reads this
    {
      |times|
    }

    /** Body `body`'s position at state `index`. */
    function PositionAt(body: nat, index: nat): Vector
      reads this
      requires Valid() && body < n && index < |times|
    {
      Triple(positions[body], index)
    }

    /** Body `body`'s velocity at state `index`. */
    function VelocityAt(body: nat, index: nat): Vector
      reads this
      requires Valid() && body < n && index < |times|
    {
      Triple(velocities[body], index)
    }

    /** `save`: every check comes before any change; the first save fixes
        the number of bodies; each body's position and velocity are
        appended to its rows and the clock's time to the time stamps. */
    method Save(universe: seq<Body>, clock: SimulationTime) returns (out: Outcome)
      requires Valid()
      modifies this
      ensures Valid()
      ensures out == SaveError(old(n), old(times), |universe|, clock.Time())
      ensures out.Fail? ==> n == old(n) && positions == old(positions) && velocities == old(velocities) && times == old(times)
      ensures out.Pass? ==> n == |universe| && times == old(times) + [clock.Time()]
      ensures out.Pass? ==> positions == Grown(StartRows(old(positions), old(n), n), universe, (b: Body) => b.position)
      ensures out.Pass? ==> velocities == Grown(StartRows(old(velocities), old(n), n), universe, (b: Body) => b.velocity)
      ensures out.Pass? ==> forall i :: 0 <= i < n ==>
        PositionAt(i, |times| - 1) == universe[i].position && VelocityAt(i, |times| - 1) == universe[i].velocity
    {
      var now := clock.Time();
      if |universe| == 0 {
        return Fail(EmptyUniverse);
      }
      if n > 0 && |universe| != n {
        return Fail(UniverseSizeChanged);
      }
      if |times| > 0 && now < times[|times| - 1] {
        return Fail(OldState);
      }
      if n == 0 {
        n := |universe|;
        positions := seq(n, _ => []);
        velocities := seq(n, _ => []);
      }
      ghost var count := |times|;
      AppendState(universe);
      SortedSnoc(times, now);
      times := times + [now];
      GrownReadsBack(StartRows(old(positions), old(n), n), universe, (b: Body) => b.position, count);
      GrownReadsBack(StartRows(old(velocities), old(n), n), universe, (b: Body) => b.velocity, count);
      out := Pass;
    }

    /** The loop of `save` over the bodies: each body's position and
        velocity are appended to its rows. */
    method AppendState(universe: seq<Body>)
      requires |universe| == n == |positions| == |velocities|
      modifies this
      ensures positions == Grown(old(positions), universe, (b: Body) => b.position)
      ensures velocities == Grown(old(velocities), universe, (b: Body) => b.velocity)
      ensures times == old(times) && n == old(n)
    {
      var i := 0;
      while i < n
        invariant 0 <= i <= n == |universe| == |positions| == |velocities|
        invariant forall k :: 0 <= k < i ==> positions[k] == old(positions)[k] + Coordinates(universe[k].position)
        invariant forall k :: 0 <= k < i ==> velocities[k] == old(velocities)[k] + Coordinates(universe[k].velocity)
        invariant forall k :: i <= k < n ==> positions[k] == old(positions)[k] && velocities[k] == old(velocities)[k]
        invariant times == old(times) && n == old(n)
      {
        var p := universe[i].position;
        var v := universe[i].velocity;
        positions := positions[i := positions[i] + [p.x, p.y, p.z]];
        velocities := velocities[i := velocities[i] + [v.x, v.y, v.z]];
        i := i + 1;
      }
    }

    /** The universe after `load(index)` wrote the first `n` bodies: each
        gets the stored position and velocity; bodies past the end of the
        universe are not there to be written. */
    function Restored(u: seq<Body>, index: nat): (r: seq<Body>)
      reads this
      requires Valid() && index < |times|
      ensures |r| == |u|
      ensures forall k :: 0 <= k < |u| && k < n ==>
        r[k] == u[k].(position := PositionAt(k, index), velocity := VelocityAt(k, index))
      ensures forall k :: n <= k < |u| ==> r[k] == u[k]
    {
      var ps, vs, m := positions, velocities, n;
      seq(|u|, k requires 0 <= k < |u| && (k < m ==> 3 * index + 2 < |ps[k]| && 3 * index + 2 < |vs[k]|) =>
        if k < m then u[k].(position := Triple(ps[k], index), velocity := Triple(vs[k], index)) else u[k])
    }

    /** `load(index)`: a missing universe or clock, an empty history and an
        index past the saved states are errors; otherwise bodies `0..n-1`
        get the stored state (`at` throws for a universe with fewer bodies,
        after the bodies before it were written) and the clock is set to
        the stored time. */
    method Load(index: nat, universe: array?<Body>, clock: SimulationTime?) returns (out: Outcome)
      requires Valid() && (clock != null ==> clock.Valid())
      modifies universe, clock
      ensures universe == null || clock == null ==> out == Fail(NullPointer)
      ensures universe != null && clock != null && |times| == 0 ==> out == Fail(NoData)
      ensures universe != null && clock != null && 0 < |times| <= index ==> out == Fail(HistoryIndex)
      ensures universe != null && clock != null && index < |times| ==>
        && universe[..] == Restored(old(universe[..]), index)
        && (out.Pass? <==> n <= universe.Length)
        && (out.Fail? ==> out.error == IndexOutOfRange && unchanged(clock))
        && (out.Pass? ==> clock.Valid() && clock.Time() == times[index])
      ensures out.Fail? && out.error != IndexOutOfRange ==> (universe != null ==> unchanged(universe)) && (clock != null ==> unchanged(clock))
    {
      if universe == null || clock == null {
        return Fail(NullPointer);
      }
      if |times| == 0 {
        return Fail(NoData);
      }
      if |times| <= index {
        return Fail(HistoryIndex);
      }
      var i := 0;
      while i < n
        invariant 0 <= i <= n
        invariant i <= universe.Length
        invariant forall k :: 0 <= k < i ==> universe[k] == old(universe[k]).(position := PositionAt(k, index), velocity := VelocityAt(k, index))
        invariant forall k :: i <= k < universe.Length ==> universe[k] == old(universe[k])
        invariant unchanged(clock)
      {
        if i >= universe.Length {
          assert universe[..] == Restored(old(universe[..]), index);
          return Fail(IndexOutOfRange);
        }
        var body := universe[i];
        body := body.(position := Vector(positions[i][index * 3], positions[i][index * 3 + 1], positions[i][index * 3 + 2]));
        body := body.(velocity := Vector(velocities[i][index * 3], velocities[i][index * 3 + 1], velocities[i][index * 3 + 2]));
        universe[i] := body;
        i := i + 1;
      }
      assert universe[..] == Restored(old(universe[..]), index);
      clock.SetTime(times[index]);
      out := Pass;
    }

    /** `clear()`: forget every state and body. */
    method Clear()
      modifies this
      ensures Valid() && n == 0 && positions == [] && velocities == [] && times == []
    {
      positions := [];
      velocities := [];
      times := [];
      n := 0;
    }

    /** `clear(fromIndex)`: nothing for an index past the states or an
        empty history, everything for index 0, and otherwise every row and
        the time stamps cut after `fromIndex` states, keeping the bodies. */
    method ClearFrom(fromIndex: nat)
      requires Valid()
      modifies this
      ensures Valid()
      ensures fromIndex >= old(|times|) ==> n == old(n) && positions == old(positions) && velocities == old(velocities) && times == old(times)
      ensures fromIndex == 0 ==> n == 0 && times == []
      ensures 0 < fromIndex < old(|times|) ==>
        && n == old(n) && times == old(times)[..fromIndex]
        && (forall i :: 0 <= i < n ==> positions[i] == old(positions[i])[..3 * fromIndex])
        && (forall i :: 0 <= i < n ==> velocities[i] == old(velocities[i])[..3 * fromIndex])
    {
      if fromIndex >= |times| {
        return;
      }
      if Empty() {
        return;
      }
      if fromIndex == 0 {
        Clear();
        return;
      }
      var i := 0;
      while i < n
        invariant 0 <= i <= n == |positions| == |old(positions)|
        invariant forall k :: 0 <= k < i ==> positions[k] == old(positions[k])[..3 * fromIndex]
        invariant forall k :: i <= k < n ==> positions[k] == old(positions[k])
        invariant velocities == old(velocities) && times == old(times)
      {
        positions := positions[i := positions[i][..3 * fromIndex]];
        i := i + 1;
      }
      i := 0;
      while i < n
        invariant 0 <= i <= n == |velocities| == |old(velocities)|
        invariant forall k :: 0 <= k < i ==> velocities[k] == old(velocities[k])[..3 * fromIndex]
        invariant forall k :: i <= k < n ==> velocities[k] == old(velocities[k])
        invariant |positions| == n && forall k :: 0 <= k < n ==> positions[k] == old(positions[k])[..3 * fromIndex]
        invariant times == old(times)
      {
        velocities := velocities[i := velocities[i][..3 * fromIndex]];
        i := i + 1;
      }
      times := times[..fromIndex];
    }

    /** `bodyPosition(bodyIndex, index)`. */
    function BodyPosition(bodyIndex: nat, index: nat): (r: Result<Vector>)
      reads this
      requires Valid()
      ensures r.Ok? <==> bodyIndex < n && index < |times|
      ensures bodyIndex >= n ==> r == Err(BodyIndex)
      ensures bodyIndex < n && index >= |times| ==> r == Err(HistoryIndex)
      ensures r.Ok? ==> r.value == PositionAt(bodyIndex, index)
    {
      if bodyIndex >= n then Err(BodyIndex)
      else if index >= |times| then Err(HistoryIndex)
      else Ok(Vector(positions[bodyIndex][index * 3], positions[bodyIndex][index * 3 + 1], positions[bodyIndex][index * 3 + 2]))
    }

    /** `bodyPositions(bodyIndex)`: the raw row, three numbers per state. */
    function BodyPositions(bodyIndex: nat): (r: Result<seq<real>>)
      reads this
      requires Valid()
      ensures r.Ok? <==> bodyIndex < n
      ensures r.Err? ==> r.error == BodyIndex
      ensures r.Ok? ==> |r.value| == 3 * HistorySize()
      ensures r.Ok? ==> forall k :: 0 <= k < |times| ==> Triple(r.value, k) == PositionAt(bodyIndex, k)
    {
      if bodyIndex >= n then Err(BodyIndex) else Ok(positions[bodyIndex])
    }
  }

  /** Saving a universe and loading the state just saved gives every body
      back the position and velocity it had and the clock its time. */
  method SaveThenLoad(history: SimulationHistory, universe: array<Body>, clock: SimulationTime) returns (out: Outcome)
    requires history.Valid() && clock.Valid()
    modifies history, universe, clock
    ensures out == SaveError(old(history.n), old(history.times), universe.Length, old(clock.Time()))
    ensures out.Pass? ==> clock.Time() == old(clock.Time())
    ensures out.Pass? ==> forall k :: 0 <= k < universe.Length ==>
      universe[k].position == old(universe[k].position) && universe[k].velocity == old(universe[k].velocity)
  {
    out := history.Save(universe[..], clock);
    if out.Fail? {
      return;
    }
    out := history.Load(history.HistorySize() - 1, universe, clock);
  }
}
