/** The trail drawn behind a body (orbit.h, orbit.cpp): a ring of
    `MAX_BUFFER_LENGTH` numbers, three per vertex, filled from the body's
    saved positions; once full, each new vertex overwrites the oldest. The
    OpenGL buffer is an array of the same length. */
module Orbits {
  import opened Outcomes
  import opened SimulationHistories

  /** Capacity of the ring in numbers. */
  const MAX_BUFFER_LENGTH: nat := 6000

  /** Numbers per vertex. */
  const VERTEX_SIZE: nat := 3

  lemma CapacityHoldsWholeVertices()
    ensures MAX_BUFFER_LENGTH % VERTEX_SIZE == 0 && MAX_BUFFER_LENGTH / VERTEX_SIZE == 2000
  {
  }

  /** The guard of `updateData` as written: stop when the first number of
      entry `index` lies past the end of the row. */
  predicate WrittenGuardStops(index: nat, size: nat)
  {
    index * VERTEX_SIZE > size
  }

  /** The written guard lets through the index one past the last saved
      state, whose three numbers lie outside the row: with one saved state,
      index 1 is not stopped and its read starts at the row's end. */
  lemma WrittenGuardAdmitsEnd(states: nat)
    ensures !WrittenGuardStops(states, VERTEX_SIZE * states)
    ensures states * VERTEX_SIZE + VERTEX_SIZE > VERTEX_SIZE * states
    ensures !WrittenGuardStops(1, 3) && 1 * VERTEX_SIZE + 2 >= 3
  {
  }

  /** The guard with the comparison the read needs. */
  predicate GuardStops(index: nat, size: nat)
  {
    index * VERTEX_SIZE >= size
  }

  /** With the corrected guard, an index that is not stopped reads three
      numbers inside a row of whole vertices. */
  lemma GuardKeepsReadInside(index: nat, size: nat)
    requires size % VERTEX_SIZE == 0
    ensures !GuardStops(index, size) ==> index * VERTEX_SIZE + VERTEX_SIZE <= size
  {
  }

  /** Position `s + k` of the ring, for `s` and `k` below its capacity. */
  lemma RingIndex(s: nat, k: nat)
    requires s < MAX_BUFFER_LENGTH && k < MAX_BUFFER_LENGTH
    ensures (s + k) % MAX_BUFFER_LENGTH == if s + k < MAX_BUFFER_LENGTH then s + k else s + k - MAX_BUFFER_LENGTH
  {
  }

  /** The ring relation on the buffer's contents `b`: the `|c|` numbers
      from `start` on, wrapping at the end, are `c`. */
  ghost predicate RingHolds(b: seq<real>, start: nat, c: seq<real>)
  {
    && |b| == MAX_BUFFER_LENGTH && |c| <= MAX_BUFFER_LENGTH
    && forall k :: 0 <= k < |c| ==> b[(start + k) % MAX_BUFFER_LENGTH] == c[k]
  }

  /** Writing a vertex just after the contents of a ring that starts at 0
      and is not full appends it. */
  lemma RingAppend(b: seq<real>, c: seq<real>, v: seq<real>)
    requires RingHolds(b, 0, c) && |v| == VERTEX_SIZE && |c| + VERTEX_SIZE <= MAX_BUFFER_LENGTH
    ensures RingHolds(b[..|c|] + v + b[|c| + VERTEX_SIZE..], 0, c + v)
  {
    var b' := b[..|c|] + v + b[|c| + VERTEX_SIZE..];
    forall k | 0 <= k < |c + v|
      ensures b'[k % MAX_BUFFER_LENGTH] == (c + v)[k]
    {
      assert k % MAX_BUFFER_LENGTH == k;
      if k < |c| {
        assert b[(0 + k) % MAX_BUFFER_LENGTH] == c[k];
      }
    }
  }

  /** Writing a vertex over the oldest one of a full ring and moving the
      start past it drops the oldest vertex and appends the new one. */
  lemma RingRotate(b: seq<real>, s: nat, c: seq<real>, v: seq<real>)
    requires RingHolds(b, s, c) && |c| == MAX_BUFFER_LENGTH && |v| == VERTEX_SIZE
    requires s < MAX_BUFFER_LENGTH && s % VERTEX_SIZE == 0
    ensures RingHolds(b[..s] + v + b[s + VERTEX_SIZE..], (s + VERTEX_SIZE) % MAX_BUFFER_LENGTH, c[VERTEX_SIZE..] + v)
  {
    var b' := b[..s] + v + b[s + VERTEX_SIZE..];
    var s' := (s + VERTEX_SIZE) % MAX_BUFFER_LENGTH;
    var c' := c[VERTEX_SIZE..] + v;
    forall k | 0 <= k < |c'|
      ensures b'[(s' + k) % MAX_BUFFER_LENGTH] == c'[k]
    {
      RingIndex(s', k);
      if k < MAX_BUFFER_LENGTH - VERTEX_SIZE {
        RingIndex(s, k + VERTEX_SIZE);
        assert (s' + k) % MAX_BUFFER_LENGTH == (s + (k + VERTEX_SIZE)) % MAX_BUFFER_LENGTH;
        assert b[(s + (k + VERTEX_SIZE)) % MAX_BUFFER_LENGTH] == c[k + VERTEX_SIZE];
      } else {
        assert (s' + k) % MAX_BUFFER_LENGTH == s + (k - (MAX_BUFFER_LENGTH - VERTEX_SIZE));
      }
    }
  }

  /** Where the next vertex goes: after the contents of a ring that is not
      full (which starts at 0), over the oldest vertex of a full one. */
  lemma EndOfRing(start: nat, length: nat)
    requires start < MAX_BUFFER_LENGTH && length <= MAX_BUFFER_LENGTH
    requires start % VERTEX_SIZE == 0 && length % VERTEX_SIZE == 0
    requires length < MAX_BUFFER_LENGTH ==> start == 0
    ensures (start + length) % MAX_BUFFER_LENGTH == if length == MAX_BUFFER_LENGTH then start else length
    ensures (start + length) % MAX_BUFFER_LENGTH + VERTEX_SIZE <= MAX_BUFFER_LENGTH
  {
  }

  class Orbit {
    const history: SimulationHistory
    const bodyIndex: nat
    const buffer: array<real>
    var start: nat
    var length: nat
    var historyIndex: nat
    /** The vertices in the ring, oldest first. */
    ghost var contents: seq<real>

    /** The ring holds whole vertices; it starts at 0 until it is full; the
        `length` numbers from `start` on, wrapping at the end of the buffer,
        are the contents. */
    ghost predicate Valid()
      reads this, buffer
    {
      && buffer.Length == MAX_BUFFER_LENGTH
      && start < MAX_BUFFER_LENGTH && length <= MAX_BUFFER_LENGTH
      && start % VERTEX_SIZE == 0 && length % VERTEX_SIZE == 0
      && (length < MAX_BUFFER_LENGTH ==> start == 0)
      && |contents| == length
      && RingHolds(buffer[..], start, contents)
    }

    /** `Orbit(history, bodyIndex)`: the body must be one of the saved
        bodies; the ring starts empty. */
    constructor (h: SimulationHistory, index: nat)
      requires index < h.UniverseSize()
      ensures Valid() && fresh(buffer)
      ensures history == h && bodyIndex == index
      ensures start == 0 && length == 0 && historyIndex == 0 && contents == []
    {
      history := h;
      bodyIndex := index;
      buffer := new real[MAX_BUFFER_LENGTH](_ => 0.0);
      start := 0;
      length := 0;
      historyIndex := 0;
      contents := [];
    }

    /** `full()`. */
    predicate Full()
      reads this
    {
      length == MAX_BUFFER_LENGTH
    }

    /** `empty()`. */
    predicate Empty()
      reads this
    {
      length == 0
    }

    /** `available()`: the numbers that fit before the ring is full. */
    function Available(): (r: nat)
      reads this, buffer
      requires Valid()
      ensures r == MAX_BUFFER_LENGTH - length
      ensures r == 0 <==> Full()
      ensures r == MAX_BUFFER_LENGTH <==> Empty()
    {
      MAX_BUFFER_LENGTH - length
    }

    /** One level of `updateData`'s recursion past its guards: entry
        `historyIndex` of `row` is written after the newest vertex; a full
        ring drops its oldest vertex instead of growing. When the start
        wraps to 0 the index is not advanced, so the same entry is written
        again at the beginning of the buffer. */
    method WriteNext(row: seq<real>)
      requires Valid() && historyIndex * VERTEX_SIZE + VERTEX_SIZE <= |row|
      modifies this, buffer
      ensures Valid()
      ensures var v := row[old(historyIndex) * VERTEX_SIZE..old(historyIndex) * VERTEX_SIZE + VERTEX_SIZE];
        contents == (if old(Full()) then old(contents)[VERTEX_SIZE..] else old(contents)) + v
      ensures length == if old(Full()) then MAX_BUFFER_LENGTH else old(length) + VERTEX_SIZE
      ensures start == if old(Full()) then (old(start) + VERTEX_SIZE) % MAX_BUFFER_LENGTH else old(start)
      ensures historyIndex == if old(Full()) && start == 0 then old(historyIndex) else old(historyIndex) + 1
    {
      var at := historyIndex * VERTEX_SIZE;
      if Full() {
        Rotate(row, at);
        if start != 0 {
          historyIndex := historyIndex + 1;
        }
      } else {
        Append(row, at);
        historyIndex := historyIndex + 1;
      }
    }

    /** The write into a ring that is not full: the vertex goes after the
        newest one and the ring grows. */
    method Append(row: seq<real>, at: nat)
      requires Valid() && !Full() && at + VERTEX_SIZE <= |row|
      modifies this, buffer
      ensures Valid()
      ensures contents == old(contents) + row[at..at + VERTEX_SIZE]
      ensures length == old(length) + VERTEX_SIZE && start == old(start) && historyIndex == old(historyIndex)
    {
      var end := (start + length) % MAX_BUFFER_LENGTH;
      EndOfRing(start, length);
      ghost var b := buffer[..];
      Put(end, row, at);
      RingAppend(b, contents, row[at..at + VERTEX_SIZE]);
      length := length + VERTEX_SIZE;
      contents := contents + row[at..at + VERTEX_SIZE];
    }

    /** The write into a full ring: the vertex replaces the oldest one and
        the start moves past it, wrapping at the end of the buffer. */
    method Rotate(row: seq<real>, at: nat)
      requires Valid() && Full() && at + VERTEX_SIZE <= |row|
      modifies this, buffer
      ensures Valid()
      ensures contents == old(contents)[VERTEX_SIZE..] + row[at..at + VERTEX_SIZE]
      ensures start == (old(start) + VERTEX_SIZE) % MAX_BUFFER_LENGTH
      ensures length == old(length) && historyIndex == old(historyIndex)
    {
      var end := (start + length) % MAX_BUFFER_LENGTH;
      EndOfRing(start, length);
      ghost var b := buffer[..];
      Put(end, row, at);
      RingRotate(b, start, contents, row[at..at + VERTEX_SIZE]);
      start := (start + VERTEX_SIZE) % MAX_BUFFER_LENGTH;
      contents := contents[VERTEX_SIZE..] + row[at..at + VERTEX_SIZE];
    }

    /** The upload of one vertex: the three numbers of `row` from `at` on
        replace those of the buffer from `end` on. */
    method Put(end: nat, row: seq<real>, at: nat)
      requires end + VERTEX_SIZE <= buffer.Length && at + VERTEX_SIZE <= |row|
      modifies buffer
      ensures buffer[..] == old(buffer[..])[..end] + row[at..at + VERTEX_SIZE] + old(buffer[..])[end + VERTEX_SIZE..]
    {
      buffer[end] := row[at];
      buffer[end + 1] := row[at + 1];
      buffer[end + 2] := row[at + 2];
    }

    /** `updateData(until)` with the corrected guard: vertices are written
        from `historyIndex` on until the index passes `until` or the row
        of the body's positions ends; a body no longer in the history
        throws from `bodyPositions`. */
    method UpdateData(until: nat) returns (out: Outcome)
      requires Valid() && history.Valid()
      modifies this, buffer
      ensures Valid()
      ensures out.Fail? <==> old(historyIndex) <= until && bodyIndex >= history.UniverseSize()
      ensures out.Fail? ==> out.error == BodyIndex && historyIndex == old(historyIndex) && contents == old(contents)
      ensures out.Pass? ==> historyIndex > until || GuardStops(historyIndex, VERTEX_SIZE * history.HistorySize())
      ensures historyIndex >= old(historyIndex)
    {
      out := Pass;
      while historyIndex <= until
        invariant Valid() && historyIndex >= old(historyIndex)
        invariant out == Pass
        invariant historyIndex > old(historyIndex) ==> bodyIndex < history.UniverseSize()
        invariant bodyIndex >= history.UniverseSize() ==> historyIndex == old(historyIndex) && contents == old(contents)
        decreases 2 * (until + 1 - historyIndex) + if Full() && start == 0 then 0 else 1
      {
        var data := history.BodyPositions(bodyIndex);
        if data.Err? {
          return Fail(data.error);
        }
        if GuardStops(historyIndex, |data.value|) {
          return;
        }
        GuardKeepsReadInside(historyIndex, |data.value|);
        WriteNext(data.value);
      }
    }
  }
}
