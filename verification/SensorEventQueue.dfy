// sensors/SensorEventQueue.cpp: the ring between one sensor module and the merging
// reader.  One writer at a time; it publishes a batch in chunks and gives up the lock
// while it waits for space.

module SensorEvents {

  // sensors_event_t: a reading names its sensor, a meta-data event keeps 0 there and
  // names the sensor it is about in its payload.
  datatype Event =
    | Reading(sensor: int, payload: int)
    | Meta(sensor: int, what: int, target: int)

  function Min(x: int, y: int): int {
    if x <= y then x else y
  }

  // (start + size) % capacity for a pointer less than two turns on.
  lemma RemainderWithinTwo(x: nat, m: nat)
    requires 0 < m && x < 2 * m
    ensures x % m == if x < m then x else x - m
  {
    if x >= m {
      var q := x / m;
      assert x == m * q + x % m;
      Bound(m, q - 1);
    }
  }

  lemma Bound(m: int, x: int)
    requires m > 0
    ensures x >= 1 ==> m * x >= m
    ensures x <= -1 ==> m * x <= -m
    ensures x == 0 ==> m * x == 0
  {}

  lemma TakeFirst(taken: seq<Event>, contents: seq<Event>, staged: seq<Event>)
    requires contents != []
    ensures taken + contents + staged == (taken + [contents[0]]) + contents[1..] + staged
  {
    assert contents == [contents[0]] + contents[1..];
  }

  ghost predicate IsSuffix(rest: seq<Event>, events: seq<Event>) {
    |rest| <= |events| && rest == events[|events| - |rest|..]
  }

  lemma SuffixOfSuffix(events: seq<Event>, rest: seq<Event>, chunk: nat)
    requires IsSuffix(rest, events) && chunk <= |rest|
    ensures IsSuffix(rest[chunk..], events)
  {}

  // The readable records of a ring.
  function Readable(data: seq<Event>, start: nat, size: nat): (r: seq<Event>)
    requires start < |data| && size <= |data|
    ensures |r| == size
  {
    if start + size <= |data| then data[start..start + size]
    else data[start..] + data[..start + size - |data|]
  }

  lemma ReadableRest(data: seq<Event>, start: nat, size: nat, next: nat)
    requires start < |data| && 0 < size <= |data|
    requires next == if start + 1 < |data| then start + 1 else 0
    ensures Readable(data, start, size)[0] == data[start]
    ensures Readable(data, next, size - 1) == Readable(data, start, size)[1..]
  {}

  // Copying a chunk into free slots after the readable ones appends it.
  lemma ReadableGrows(data: seq<Event>, data': seq<Event>, start: nat, size: nat, first: nat, chunk: seq<Event>)
    requires |data| == |data'| && start < |data| && size + |chunk| <= |data|
    requires first == if start + size < |data| then start + size else start + size - |data|
    requires first + |chunk| <= |data|
    requires data' == data[..first] + chunk + data[first + |chunk|..]
    ensures Readable(data', start, size + |chunk|) == Readable(data, start, size) + chunk
  {
    if start + size < |data| {
      assert data'[start..start + size] == data[start..start + size];
      assert data'[first..first + |chunk|] == chunk;
      assert data'[start..start + size + |chunk|] == data'[start..first] + data'[first..first + |chunk|];
    } else {
      assert data'[start..] == data[start..];
      assert data'[..first + |chunk|] == data[..first] + chunk;
    }
  }
}

module SensorQueue {
  import opened Options
  import opened SensorEvents

  lemma MoveOver(taken: seq<Event>, ring: seq<Event>, events: seq<Event>, chunk: nat)
    requires chunk <= |events|
    ensures taken + (ring + events[..chunk]) + events[chunk..] == taken + ring + events
  {
    assert events == events[..chunk] + events[chunk..];
  }

  class SensorEventQueue {
    const capacity: nat
    const data: array<Event>
    var start: nat
    var size: nat
    var pendingSize: nat
    ghost var handed: seq<Event>    // everything given to Write
    ghost var taken: seq<Event>     // everything dequeued
    ghost var staged: seq<Event>    // the part of the current batch still outside the ring

    ghost predicate Valid()
      reads this, data
    {
      && 0 < capacity == data.Length
      && start < capacity && size <= capacity
      && |staged| == pendingSize
      && handed == taken + Contents() + staged
    }

    ghost function Contents(): seq<Event>
      requires start < data.Length && size <= data.Length
      reads this, data
    {
      Readable(data[..], start, size)
    }

    constructor (capacity: nat)
      requires capacity > 0
      ensures Valid() && fresh(data) && this.capacity == capacity
      ensures handed == [] && taken == [] && staged == [] && Contents() == []
    {
      this.capacity := capacity;
      data := new Event[capacity](_ => Reading(0, 0));
      start, size, pendingSize := 0, 0, 0;
      handed, taken, staged := [], [], [];
    }

    method GetWritableRegion(requested: int) returns (first: nat, length: nat)
      requires Valid()
      ensures size == capacity || requested <= 0 ==> length == 0
      ensures size < capacity && requested > 0 ==>
        && first == (if start + size < capacity then start + size else start + size - capacity)
        && length == Min(requested, Min(capacity - first, capacity - size))
        && 0 < length && first + length <= capacity
      ensures length > 0 ==> forall i :: first <= i < first + length ==> !IsReadable(i)
    {
      if size == capacity || requested <= 0 {
        return 0, 0;
      }
      first := Ahead(size);
      var last := first + requested - 1;
      if last > capacity - 1 {
        last := capacity - 1;
      }
      if first < start && last >= start {
        last := start - 1;
      }
      length := last - first + 1;
    }

    // The slot some places after the first readable one.
    method Ahead(places: nat) returns (slot: nat)
      requires 0 < capacity && start < capacity && places <= capacity
      ensures slot == if start + places < capacity then start + places else start + places - capacity
    {
      RemainderWithinTwo(start + places, capacity);
      slot := (start + places) % capacity;
    }

    // Slot i holds a readable record.
    predicate IsReadable(i: nat)
      reads this
    {
      start <= i < start + size || i + capacity < start + size
    }

    method MarkAsWritten(count: nat)
      modifies this`size
      ensures size == old(size) + count
    {
      size := size + count;
    }

    // write: the batch is handed over, none of it in the ring yet.
    method BeginWrite(events: seq<Event>)
      requires Valid() && pendingSize == 0
      modifies this`pendingSize, this`handed, this`staged
      ensures Valid()
      ensures staged == events && handed == old(handed) + events
    {
      pendingSize := |events|;
      staged := events;
      handed := handed + events;
      assert taken + Contents() + [] == taken + Contents();
    }

    // One pass of the loop of write once there is space.
    method WriteChunk(events: seq<Event>) returns (chunk: nat)
      requires Valid() && events == staged
      requires 0 < |events| && size < capacity
      modifies this`size, this`pendingSize, this`staged, data
      ensures Valid()
      ensures 0 < chunk <= |events| && pendingSize == |events| - chunk
      ensures Contents() == old(Contents()) + events[..chunk] && staged == events[chunk..]
    {
      var first;
      first, chunk := GetWritableRegion(pendingSize);
      ghost var before, ring := data[..], Contents();
      CopyIn(first, events[..chunk]);
      ReadableGrows(before, data[..], start, size, first, events[..chunk]);
      MarkAsWritten(chunk);
      pendingSize := pendingSize - chunk;
      staged := events[chunk..];
      MoveOver(taken, ring, events, chunk);
    }

    // The copy into the writable region.
    method CopyIn(first: nat, events: seq<Event>)
      requires first + |events| <= data.Length
      modifies data
      ensures data[..] == old(data[..first]) + events + old(data[first + |events|..])
    {
      forall i | 0 <= i < |events| {
        data[first + i] := events[i];
      }
    }

    // waitForSpace: each wait gives the lock to the reader, which dequeues progress[k]
    // records during the k-th.  Still full when the waits given are over, the writer
    // is still blocked.
    method WaitForSpace(progress: seq<nat>) returns (waited: bool, waits: nat)
      requires Valid()
      modifies this`start, this`size, this`taken
      ensures Valid() && old(taken) <= taken
      ensures waits <= |progress| && (waited <==> old(size) == capacity)
      ensures size == capacity ==> waits == |progress|
      ensures !waited ==> waits == 0 && size == old(size)
    {
      waited, waits := size == capacity, 0;
      while size == capacity && waits < |progress|
        invariant Valid() && old(taken) <= taken && waits <= |progress|
        invariant waits > 0 ==> waited
        invariant waits == 0 ==> size == old(size)
      {
        Dequeues(progress[waits]);
        waits := waits + 1;
      }
    }

    method Dequeues(n: nat)
      requires Valid()
      modifies this`start, this`size, this`taken
      ensures Valid() && old(taken) <= taken
    {
      for i := 0 to n
        invariant Valid() && old(taken) <= taken
      {
        Dequeue();
      }
    }

    // write, with the reads that happen while it waits.  It ends with the whole batch
    // in the ring, or blocked with the ring full and the rest of the batch staged.
    method Write(events: seq<Event>, progress: seq<nat>) returns (done: bool)
      requires Valid() && pendingSize == 0
      modifies this, data
      ensures Valid()
      ensures handed == old(handed) + events && old(taken) <= taken
      ensures done <==> pendingSize == 0
      ensures !done ==> size == capacity
      ensures IsSuffix(staged, events)
    {
      BeginWrite(events);
      var rest, used := events, 0;
      ghost var all, before := handed, taken;
      while pendingSize > 0
        invariant Valid() && rest == staged && handed == all && before <= taken
        invariant 0 <= used <= |progress|
        invariant IsSuffix(rest, events)
        decreases pendingSize
      {
        var _, waits := WaitForSpace(progress[used..]);
        used := used + waits;
        if size == capacity {
          return false;
        }
        var chunk := WriteChunk(rest);
        SuffixOfSuffix(events, rest, chunk);
        rest := rest[chunk..];
      }
      done := true;
    }

    method Peek() returns (event: Option<Event>)
      requires Valid()
      ensures event == if Contents() == [] then None else Some(Contents()[0])
    {
      event := if size == 0 then None else Some(data[start]);
    }

    method Dequeue()
      requires Valid()
      modifies this`start, this`size, this`taken
      ensures Valid()
      ensures old(Contents()) == [] ==>
        Contents() == [] && taken == old(taken) && start == old(start) && size == old(size)
      ensures old(Contents()) != [] ==> Contents() == old(Contents())[1..] && taken == old(taken) + [old(Contents())[0]]
    {
      if size == 0 {
        return;
      }
      ghost var contents := Contents();
      var next := Ahead(1);
      ReadableRest(data[..], start, size, next);
      TakeFirst(taken, contents, staged);
      size := size - 1;
      start := next;
      taken := taken + [contents[0]];
    }

    // Readable plus staged: what a flush must wait for.
    method GetPendingSize() returns (n: nat)
      requires Valid()
      ensures n == |handed| - |taken|
    {
      n := size + pendingSize;
    }
  }
}
