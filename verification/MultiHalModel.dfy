// sensors/multihal.cpp on values: what one poll pass, a flush request and the writer
// threads do to the rings, the pending flushes and the history of what was delivered.

module MultiHalModel {
  import opened Options
  import opened SensorEvents

  const META_DATA_FLUSH_COMPLETE := 1

  // One sub-module's events: all that were handed to its queue, those the reader took,
  // those readable in the ring and the rest of the batch being written.
  datatype Source = Source(handed: seq<Event>, taken: seq<Event>, ring: seq<Event>, staged: seq<Event>)

  // An accepted flush of one sensor.  `promised` is what its module had handed over.
  datatype Flush = Flush(id: nat, handle: int, m: nat, after: nat, promised: seq<Event>)

  // The history of the merged stream.
  datatype Entry = Took(m: nat, event: Event) | Done(flush: Flush)

  // The sensors known to the adapter: global handles for module and local handle, the
  // module of each global handle, and which report once.
  datatype Sensors = Sensors(global: map<(nat, int), int>, modules: map<int, nat>, oneShot: set<int>)

  datatype State = State(
    sources: seq<Source>, pending: seq<Flush>, flushes: nat, active: set<int>, next: nat,
    log: seq<Entry>, skipped: seq<nat>)

  // Handles ----------------------------------------------------------------

  function GlobalHandle(sensors: Sensors, m: nat, local: int): int {
    if (m, local) in sensors.global then sensors.global[(m, local)] else -1
  }

  // copy_event_remap_handle
  function Remap(sensors: Sensors, m: nat, event: Event): Event {
    match event
    case Reading(sensor, payload) => Reading(GlobalHandle(sensors, m, sensor), payload)
    case Meta(sensor, what, target) => Meta(sensor, what, GlobalHandle(sensors, m, target))
  }

  function FlushEvent(handle: int): Event {
    Meta(0, META_DATA_FLUSH_COMPLETE, handle)
  }

  // What a stretch of history looks like to the caller of poll.
  function Render(sensors: Sensors, log: seq<Entry>): seq<Event> {
    if log == [] then [] else Render(sensors, log[..|log| - 1]) + Shown(sensors, log[|log| - 1])
  }

  function Shown(sensors: Sensors, entry: Entry): seq<Event> {
    match entry
    case Took(m, event) => if Remap(sensors, m, event).sensor == -1 then [] else [Remap(sensors, m, event)]
    case Done(flush) => [FlushEvent(flush.handle)]
  }

  // The events of module m in a stretch of history.
  function TakenIn(log: seq<Entry>, m: nat): seq<Event> {
    if log == [] then [] else
      var before, last := TakenIn(log[..|log| - 1], m), log[|log| - 1];
      if last.Took? && last.m == m then before + [last.event] else before
  }

  // Steps ------------------------------------------------------------------

  predicate Ready(s: State, flush: Flush) {
    flush.m < |s.sources| && |s.sources[flush.m].taken| >= flush.after
  }

  function Complete(s: State, i: nat): State
    requires i < |s.pending|
  {
    s.(pending := s.pending[..i] + s.pending[i + 1..], log := s.log + [Done(s.pending[i])])
  }

  // emit_ready_flushes from position i of the queue on, for at most room completions.
  function Emit(s: State, i: nat, room: nat): (State, nat)
    requires i <= |s.pending|
    decreases |s.pending| - i
  {
    if i == |s.pending| || room == 0 then (s, 0)
    else if !Ready(s, s.pending[i]) then Emit(s, i + 1, room)
    else
      var (s', n) := Emit(Complete(s, i), i, room - 1);
      (s', n + 1)
  }

  function Bump(skipped: seq<nat>, served: nat): (r: seq<nat>)
    ensures |r| == |skipped|
    ensures forall m :: 0 <= m < |r| ==> r[m] == if m == served then 0 else skipped[m] + 1
  {
    seq(|skipped|, m requires 0 <= m < |skipped| => if m == served then 0 else skipped[m] + 1)
  }

  function Advance(s: State): nat
    requires s.next < |s.sources|
  {
    if s.next + 1 == |s.sources| then 0 else s.next + 1
  }

  // One look at the next ring: whether it held an event, and the state after taking it.
  // `skipped` counts, for each ring, the events taken from other rings since it was last
  // served or seen empty.
  function Look(sensors: Sensors, s: State): (State, bool)
    requires s.next < |s.sources| == |s.skipped|
  {
    var m := s.next;
    var source := s.sources[m];
    if source.ring == [] then
      (s.(next := Advance(s), skipped := s.skipped[m := 0]), false)
    else
      var event := source.ring[0];
      var shown := Remap(sensors, m, event).sensor;
      (s.(sources := s.sources[m := source.(taken := source.taken + [event], ring := source.ring[1..])],
          active := if shown != -1 && shown in sensors.oneShot then s.active - {shown} else s.active,
          log := s.log + [Took(m, event)],
          skipped := Bump(s.skipped, m),
          next := Advance(s)), true)
  }

  function Delivered(sensors: Sensors, s: State, s': State): nat {
    if |s'.log| > |s.log| then |Shown(sensors, s'.log[|s.log|])| else 0
  }

  function RingTotal(sources: seq<Source>): nat {
    if sources == [] then 0 else |sources[0].ring| + RingTotal(sources[1..])
  }

  lemma {:induction false} RingTotalDrops(sources: seq<Source>, m: nat, source: Source)
    requires m < |sources| && |source.ring| < |sources[m].ring|
    ensures RingTotal(sources[m := source]) < RingTotal(sources)
  {
    if m > 0 {
      assert sources[m := source][1..] == sources[1..][m - 1 := source];
      RingTotalDrops(sources[1..], m - 1, source);
    }
  }

  lemma LookShrinks(sensors: Sensors, s: State)
    requires s.next < |s.sources| == |s.skipped|
    ensures var (s', found) := Look(sensors, s);
      |s'.sources| == |s.sources| && |s'.skipped| == |s.skipped| && s'.next < |s'.sources|
      && if found then RingTotal(s'.sources) < RingTotal(s.sources) else s'.sources == s.sources
  {
    if s.sources[s.next].ring != [] {
      RingTotalDrops(s.sources, s.next, Look(sensors, s).0.sources[s.next]);
    }
  }

  lemma {:induction false} EmitFrame(s: State, i: nat, room: nat)
    requires i <= |s.pending|
    ensures var (s', n) := Emit(s, i, room);
      n <= room && s'.sources == s.sources && s'.skipped == s.skipped && s'.next == s.next
      && s'.active == s.active && s'.flushes == s.flushes
    decreases |s.pending| - i
  {
    if i < |s.pending| && room > 0 {
      if Ready(s, s.pending[i]) {
        EmitFrame(Complete(s, i), i, room - 1);
      } else {
        EmitFrame(s, i + 1, room);
      }
    }
  }

  // The scan of poll: before every look the ready flushes are completed.  It ends when
  // all rings in a row were empty or the room is used up.
  function Scan(sensors: Sensors, s: State, empties: nat, room: nat): (State, nat)
    requires s.next < |s.sources| == |s.skipped| && empties <= |s.sources|
    decreases RingTotal(s.sources), |s.sources| - empties
  {
    EmitFrame(s, 0, room);
    var (s1, n1) := Emit(s, 0, room);
    if empties == |s.sources| || room == 0 then (s, 0)
    else if n1 == room then (s1, n1)
    else
      LookShrinks(sensors, s1);
      var (s2, found) := Look(sensors, s1);
      var n2 := Delivered(sensors, s1, s2);
      var (s3, n3) := Scan(sensors, s2, if found then 0 else empties + 1,
          if n2 <= room - n1 then room - n1 - n2 else 0);
      (s3, n1 + n2 + n3)
  }

  // One pass of poll's outer loop up to the decision to wait.
  function Pass(sensors: Sensors, s: State, room: nat): (State, nat)
    requires s.next < |s.sources| == |s.skipped|
  {
    var (s1, n1) := Scan(sensors, s, 0, room);
    var (s2, n2) := Emit(s1, 0, if n1 <= room then room - n1 else 0);
    (s2, n1 + n2)
  }

  // The other threads, each holding the queue lock ----------------------------

  // The events of a batch that are not in the ring yet, as write begins.
  function HandOver(s: State, m: nat, batch: seq<Event>): State
    requires m < |s.sources|
  {
    s.(sources := s.sources[m := s.sources[m].(handed := s.sources[m].handed + batch, staged := batch)])
  }

  function Publish(s: State, m: nat, chunk: nat): State
    requires m < |s.sources| && chunk <= |s.sources[m].staged|
  {
    var source := s.sources[m];
    s.(sources := s.sources[m := source.(ring := source.ring + source.staged[..chunk],
                                           staged := source.staged[chunk..])])
  }

  // flush: refused for unknown, one-shot and inactive sensors.
  function Request(sensors: Sensors, s: State, handle: int): (State, bool) {
    if handle !in sensors.modules || sensors.modules[handle] >= |s.sources| || handle in sensors.oneShot then (s, false)
    else if handle !in s.active then (s, false)
    else
      var m := sensors.modules[handle];
      var source := s.sources[m];
      var after := |source.taken| + |source.ring| + |source.staged|;
      (s.(pending := s.pending + [Flush(s.flushes, handle, m, after, source.handed)], flushes := s.flushes + 1), true)
  }

  function Activate(s: State, handle: int, enabled: bool): State {
    s.(active := if enabled then s.active + {handle} else s.active - {handle})
  }

  datatype Step =
    | DoHandOver(m: nat, batch: seq<Event>)
    | DoPublish(m: nat, chunk: nat)
    | DoRequest(handle: int)
    | DoActivate(handle: int, enabled: bool)
    | DoPass(room: nat)

  function Initial(modules: nat): State {
    State(seq(modules, _ => Source([], [], [], [])), [], 0, {}, 0, [], seq(modules, _ => 0))
  }

  // One writer per queue: a batch is handed over when the previous one is in the ring.
  predicate Enabled(s: State, step: Step) {
    && s.next < |s.sources| == |s.skipped|
    && match step
       case DoHandOver(m, batch) => m < |s.sources| && s.sources[m].staged == []
       case DoPublish(m, chunk) => m < |s.sources| && chunk <= |s.sources[m].staged|
       case _ => true
  }

  function Apply(sensors: Sensors, s: State, step: Step): State
    requires Enabled(s, step)
  {
    match step
    case DoHandOver(m, batch) => HandOver(s, m, batch)
    case DoPublish(m, chunk) => Publish(s, m, chunk)
    case DoRequest(handle) => Request(sensors, s, handle).0
    case DoActivate(handle, enabled) => Activate(s, handle, enabled)
    case DoPass(room) => Pass(sensors, s, room).0
  }

  function Exec(sensors: Sensors, s: State, steps: seq<Step>): Option<State> {
    if steps == [] then Some(s) else
      var before, last := Exec(sensors, s, steps[..|steps| - 1]), steps[|steps| - 1];
      if before.Some? && Enabled(before.value, last) then Some(Apply(sensors, before.value, last)) else None
  }
}
