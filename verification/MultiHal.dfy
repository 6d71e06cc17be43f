// sensors/multihal.cpp: the polling context.  A queue appears here by its contents; the
// queue object is SensorQueue.SensorEventQueue.  Each method is what one thread does
// while it holds the queue lock.

module MultiHal {
  import opened Options
  import opened SensorEvents
  import opened MultiHalModel
  import opened MultiHalProofs

  const EINVAL := 22

  datatype PendingFlush = PendingFlush(handle: int, m: nat, after: nat)

  ghost predicate Matches(pending: seq<PendingFlush>, waiting: seq<Flush>, modules: nat) {
    && |pending| == |waiting|
    && forall i :: 0 <= i < |pending| ==>
         pending[i] == PendingFlush(waiting[i].handle, waiting[i].m, waiting[i].after) && waiting[i].m < modules
  }

  class PollContext {
    const sensors: Sensors
    var sources: seq<Source>
    var consumed: seq<nat>
    var pending: seq<PendingFlush>
    var active: set<int>
    var next: nat
    ghost var waiting: seq<Flush>
    ghost var flushes: nat
    ghost var log: seq<Entry>
    ghost var skipped: seq<nat>

    ghost predicate Valid()
      reads this
    {
      && |sources| == |consumed| == |skipped| && (next < |sources| || next == |sources| == 0)
      && (forall i :: 0 <= i < |sources| ==> consumed[i] == |sources[i].taken|)
      && Matches(pending, waiting, |sources|)
    }

    ghost function View(): State
      reads this
    {
      State(sources, waiting, flushes, active, next, log, skipped)
    }

    constructor (modules: nat, sensors: Sensors)
      ensures Valid() && View() == Initial(modules) && this.sensors == sensors
    {
      this.sensors := sensors;
      sources := seq(modules, _ => Source([], [], [], []));
      consumed := seq(modules, _ => 0);
      pending, active, next := [], {}, 0;
      waiting, flushes, log, skipped := [], 0, [], seq(modules, _ => 0);
    }

    // What the caller of poll has so far: the history shows `shown` and then data[..n].
    ghost predicate Showing(shown: seq<Event>, data: array<Event>, n: nat)
      reads this, data
    {
      n <= data.Length && Render(sensors, log) == shown + data[..n]
    }

    // The completion of the i-th pending flush.
    method Complete(i: nat, data: array<Event>, at: nat, ghost shown: seq<Event>)
      requires Valid() && i < |pending| && Showing(shown, data, at) && at < data.Length
      modifies this`pending, this`waiting, this`log, data
      ensures Valid() && View() == MultiHalModel.Complete(old(View()), i)
      ensures |pending| == old(|pending|) - 1
      ensures Showing(shown, data, at + 1) && data[at] == Meta(0, 1, old(pending)[i].handle)
    {
      ghost var filled, before := data[..at], log;
      data[at] := FlushEvent(pending[i].handle);
      pending := pending[..i] + pending[i + 1..];
      log := log + [Done(waiting[i])];
      waiting := waiting[..i] + waiting[i + 1..];
      assert data[..at + 1] == filled + [data[at]];
      RenderMore(sensors, before, log[|before|], shown, filled);
    }

    // emit_ready_flushes.
    method EmitReadyFlushes(data: array<Event>, at: nat, count: nat, ghost shown: seq<Event>) returns (emitted: nat)
      requires Valid() && at + count <= data.Length && Showing(shown, data, at)
      modifies this`pending, this`waiting, this`log, data
      ensures Valid() && emitted <= count && Showing(shown, data, at + emitted)
      ensures EmitsTo(old(View()), 0, count, View(), emitted)
    {
      ghost var (t, n) := Emit(View(), 0, count);
      EmitBegins(View(), 0, count);
      var i := 0;
      emitted := 0;
      while i < |pending| && emitted < count
        invariant Valid() && i <= |pending| && emitted <= count && Showing(shown, data, at + emitted)
        invariant EmitsTo(View(), i, count - emitted, t, n - emitted)
        decreases |pending| - i
      {
        var flush := pending[i];
        EmitStep(View(), i, count - emitted, t, n - emitted);
        if consumed[flush.m] < flush.after {
          i := i + 1;
        } else {
          Complete(i, data, at + emitted, shown);
          emitted := emitted + 1;
        }
      }
      EmitEnds(View(), i, count - emitted, t, n - emitted);
    }

    // One look of the scan at the next queue: its first event is copied with its handle
    // translated, kept if the handle is known, and dequeued.
    method LookNext(data: array<Event>, at: nat, ghost shown: seq<Event>) returns (found: bool, kept: bool)
      requires Valid() && |sources| > 0 && at < data.Length && Showing(shown, data, at)
      modifies this`sources, this`consumed, this`active, this`next, this`log, this`skipped, data
      ensures Valid() && (View(), found) == Look(sensors, old(View()))
      ensures Delivered(sensors, old(View()), View()) == if kept then 1 else 0
      ensures Showing(shown, data, if kept then at + 1 else at)
    {
      var m := next;
      var source := sources[m];
      next := if next + 1 == |sources| then 0 else next + 1;
      if source.ring == [] {
        skipped := skipped[m := 0];
        return false, false;
      }
      found := true;
      Copy(m, data, at, shown);
      var shownHandle := data[at].sensor;
      kept := shownHandle != -1;
      if kept && shownHandle in sensors.oneShot {
        active := active - {shownHandle};
      }
      Take(m);
    }

    // copy_event_remap_handle into the next free place of the caller's buffer.
    method Copy(m: nat, data: array<Event>, at: nat, ghost shown: seq<Event>)
      requires m < |sources| && sources[m].ring != [] && at < data.Length && Showing(shown, data, at)
      modifies data
      ensures data[at] == match sources[m].ring[0]
        case Reading(local, payload) =>
          Reading(if (m, local) in sensors.global then sensors.global[(m, local)] else -1, payload)
        case Meta(sensor, what, local) =>
          Meta(sensor, what, if (m, local) in sensors.global then sensors.global[(m, local)] else -1)
      ensures Render(sensors, log + [Took(m, sources[m].ring[0])])
        == shown + data[..if data[at].sensor == -1 then at else at + 1]
    {
      ghost var filled := data[..at];
      data[at] := Remap(sensors, m, sources[m].ring[0]);
      assert data[..at + 1] == filled + [data[at]];
      assert data[..at] == filled && filled + [] == filled;
      RenderMore(sensors, log, Took(m, sources[m].ring[0]), shown, filled);
    }

    // The queue is dequeued and the event counted.
    method Take(m: nat)
      requires |sources| == |consumed| == |skipped| && m < |sources| && sources[m].ring != []
      requires forall i :: 0 <= i < |sources| ==> consumed[i] == |sources[i].taken|
      modifies this`sources, this`consumed, this`log, this`skipped
      ensures var source := old(sources[m]); var event := source.ring[0];
        && sources == old(sources)[m := source.(taken := source.taken + [event], ring := source.ring[1..])]
        && log == old(log) + [Took(m, event)] && skipped == Bump(old(skipped), m) && |consumed| == |sources|
      ensures forall i :: 0 <= i < |sources| ==> consumed[i] == |sources[i].taken|
    {
      var source := sources[m];
      log := log + [Took(m, source.ring[0])];
      skipped := Bump(skipped, m);
      sources := sources[m := source.(taken := source.taken + [source.ring[0]], ring := source.ring[1..])];
      consumed := consumed[m := consumed[m] + 1];
    }

    // A look at the next queue, as the rest of the scan counts it.
    method LookOnce(data: array<Event>, at: nat, room: nat, empties: nat, ghost shown: seq<Event>, ghost t: State,
        ghost n: int)
      returns (events: nat, empties': nat)
      requires Valid() && 0 < room && at + room <= data.Length && Showing(shown, data, at) && empties < |sources|
      requires LooksTo(sensors, View(), empties, room, t, n)
      modifies this`sources, this`consumed, this`active, this`next, this`log, this`skipped, data
      ensures Valid() && events <= 1 && Showing(shown, data, at + events) && |sources| == old(|sources|)
      ensures empties' <= |sources|
      ensures RingTotal(sources) < RingTotal(old(sources))
        || (RingTotal(sources) == RingTotal(old(sources)) && empties' == empties + 1)
      ensures ScansTo(sensors, View(), empties', room - events, t, n - events)
    {
      LooksMeans(sensors, View(), empties, room, t, n);
      LookShrinks(sensors, View());
      var found, kept := LookNext(data, at, shown);
      events := if kept then 1 else 0;
      empties' := if found then 0 else empties + 1;
    }

    // One turn of the scan: the ready flushes, then a look at the next queue.
    method ScanOnce(data: array<Event>, at: nat, room: nat, empties: nat, ghost shown: seq<Event>, ghost t: State,
        ghost n: int)
      returns (events: nat, empties': nat)
      requires Valid() && 0 < room && at + room <= data.Length && Showing(shown, data, at) && empties < |sources|
      requires ScansTo(sensors, View(), empties, room, t, n)
      modifies this`sources, this`consumed, this`pending, this`active, this`next
      modifies this`waiting, this`log, this`skipped, data
      ensures Valid() && events <= room && Showing(shown, data, at + events) && |sources| == old(|sources|)
      ensures empties' <= |sources|
      ensures events < room ==>
        RingTotal(sources) < RingTotal(old(sources))
          || (RingTotal(sources) == RingTotal(old(sources)) && empties' == empties + 1)
      ensures ScansTo(sensors, View(), empties', room - events, t, n - events)
    {
      ghost var s := View();
      events := EmitReadyFlushes(data, at, room, shown);
      ScanStep(sensors, s, empties, room, t, n, View(), events);
      empties' := empties;
      if events < room {
        var more;
        more, empties' := LookOnce(data, at + events, room - events, empties, shown, t, n - events);
        events := events + more;
      }
    }

    // The scan of poll: it ends when all queues in a row were empty or the room is used
    // up, and it does end.
    method ScanQueues(data: array<Event>, room: nat, ghost shown: seq<Event>) returns (events: nat)
      requires Valid() && |sources| > 0 && room <= data.Length && Showing(shown, data, 0)
      modifies this`sources, this`consumed, this`pending, this`active, this`next
      modifies this`waiting, this`log, this`skipped, data
      ensures Valid() && events <= room && Showing(shown, data, events) && |sources| == old(|sources|)
      ensures ScansTo(sensors, old(View()), 0, room, View(), events)
    {
      ghost var (t, n) := Scan(sensors, View(), 0, room);
      ScanBegins(sensors, View(), 0, room);
      var empties: nat := 0;
      events := 0;
      while empties < |sources| && events < room
        invariant Valid() && empties <= |sources| == old(|sources|) && events <= room && Showing(shown, data, events)
        invariant ScansTo(sensors, View(), empties, room - events, t, n - events)
        decreases events < room, RingTotal(sources), |sources| - empties
      {
        var more;
        more, empties := ScanOnce(data, events, room - events, empties, shown, t, n - events);
        events := events + more;
      }
      ScanEnds(sensors, View(), empties, room - events, t, n - events);
    }

    // One turn of poll's outer loop, up to the decision to wait: how many events it has.
    method PollTurn(data: array<Event>, maxReads: nat, ghost shown: seq<Event>) returns (events: nat)
      requires Valid() && |sources| > 0 && maxReads <= data.Length && Showing(shown, data, 0)
      modifies this`sources, this`consumed, this`pending, this`active, this`next
      modifies this`waiting, this`log, this`skipped, data
      ensures Valid() && |sources| > 0
      ensures events <= maxReads && Showing(shown, data, events)
      ensures PassesTo(sensors, old(View()), maxReads, View(), events)
    {
      ghost var s := View();
      events := ScanQueues(data, maxReads, shown);
      ghost var s1, n1 := View(), events;
      var more := EmitReadyFlushes(data, events, maxReads - events, shown);
      PassMeans(sensors, s, maxReads, s1, n1, View(), more);
      events := events + more;
    }

    // What another thread does while poll waits.
    method Arrive(step: Step)
      requires Valid() && Enabled(View(), step) && !step.DoPass?
      modifies this`sources, this`active, this`pending, this`waiting, this`flushes
      ensures Valid() && View() == Apply(sensors, old(View()), step) && log == old(log) && |sources| == old(|sources|)
    {
      match step
      case DoHandOver(m, batch) =>
        sources := sources[m := sources[m].(handed := sources[m].handed + batch, staged := batch)];
      case DoPublish(m, chunk) =>
        var source := sources[m];
        sources := sources[m := source.(ring := source.ring + source.staged[..chunk],
                                             staged := source.staged[chunk..])];
      case DoRequest(handle) => var _ := Flush(handle);
      case DoActivate(handle, enabled) => active := if enabled then active + {handle} else active - {handle};
    }

    // What the other threads do until poll has the lock again; what none of them can do
    // at its turn is left out.
    method ArriveAll(steps: seq<Step>, ghost from: State, ghost run: seq<Step>) returns (ghost run': seq<Step>)
      requires Valid() && |sources| > 0 && Inv(View()) && RunsTo(sensors, from, run, View())
      modifies this`sources, this`active, this`pending, this`waiting, this`flushes
      ensures Valid() && |sources| > 0 && Inv(View()) && log == old(log) && RunsTo(sensors, from, run', View())
    {
      run' := run;
      for i := 0 to |steps|
        invariant Valid() && |sources| > 0 && Inv(View()) && log == old(log) && RunsTo(sensors, from, run', View())
      {
        if Possible(steps[i]) {
          ghost var s := View();
          Arrive(steps[i]);
          StepKeeps(sensors, s, steps[i]);
          run' := RunsMore(sensors, from, run', s, steps[i]);
        }
      }
    }

    // poll: its result, or 0 while it sleeps.  `wakeups` is what the other threads do in
    // each of its waits, maybe nothing, until it returns or the history ends; `run` is
    // what happens in all.
    method Poll(data: array?<Event>, maxReads: int, wakeups: seq<seq<Step>>, ghost shown: seq<Event>)
      returns (code: int, slept: nat, ghost run: seq<Step>)
      requires Valid() && (data != null ==> maxReads <= data.Length && Showing(shown, data, 0))
      requires |sources| > 0 ==> Inv(View())
      modifies this`sources, this`consumed, this`pending, this`active, this`next
      modifies this`waiting, this`flushes, this`log, this`skipped, data
      ensures Valid() && slept <= |wakeups| && RunsTo(sensors, old(View()), run, View())
      ensures data == null || maxReads <= 0 || old(|sources|) == 0 ==> code == -EINVAL && run == []
      ensures data != null && maxReads > 0 && old(|sources|) > 0 ==>
        0 <= code <= maxReads && Inv(View()) && Merges(sensors, View(), shown + data[..code])
      ensures code == 0 ==> slept == |wakeups| && AllEmpty(View()) && NoneReady(View()) && AllWaiting(View())
    {
      slept, run := 0, [];
      if data == null || maxReads <= 0 || |sources| == 0 {
        RunsNone(sensors, View());
        return -EINVAL, 0, [];
      }
      code := 0;
      ghost var from := View();
      RunsNone(sensors, from);
      while true
        invariant Valid() && |sources| > 0 && Inv(View()) && slept <= |wakeups| && Showing(shown, data, 0)
        invariant RunsTo(sensors, from, run, View())
        decreases |wakeups| - slept
      {
        ghost var s := View();
        code := PollTurn(data, maxReads, shown);
        PassKeeps(sensors, s, maxReads);
        BlocksOnlyIdle(sensors, s, maxReads);
        run := RunsMore(sensors, from, run, s, DoPass(maxReads));
        if code > 0 || slept == |wakeups| { break; }
        run := ArriveAll(wakeups[slept], from, run);
        slept := slept + 1;
      }
      MergesAll(sensors, View());
    }

    // Steps of other threads; a writer hands over a batch when its last is in the ring.
    predicate Possible(step: Step)
      reads this
    {
      && !step.DoPass?
      && match step
         case DoHandOver(m, batch) => m < |sources| && sources[m].staged == []
         case DoPublish(m, chunk) => m < |sources| && chunk <= |sources[m].staged|
         case _ => true
    }

    // flush.
    method Flush(handle: int) returns (code: int)
      requires Valid()
      modifies this`pending, this`waiting, this`flushes
      ensures Valid() && View() == Request(sensors, old(View()), handle).0
      ensures code == if Request(sensors, old(View()), handle).1 then 0 else -EINVAL
    {
      if handle !in sensors.modules || sensors.modules[handle] >= |sources| || handle in sensors.oneShot {
        return -EINVAL;
      }
      if handle !in active {
        return -EINVAL;
      }
      var m := sensors.modules[handle];
      var after := consumed[m] + |sources[m].ring| + |sources[m].staged|;
      pending := pending + [PendingFlush(handle, m, after)];
      waiting := waiting + [MultiHalModel.Flush(flushes, handle, m, after, sources[m].handed)];
      flushes := flushes + 1;
      return 0;
    }
  }

  // A run of the model, kept folded.
  ghost predicate RunsTo(sensors: Sensors, s: State, run: seq<Step>, t: State) {
    RunsAt(2, sensors, s, run, t)
  }

  ghost predicate RunsAt(level: nat, sensors: Sensors, s: State, run: seq<Step>, t: State) {
    if level > 0 then RunsAt(level - 1, sensors, s, run, t) else Exec(sensors, s, run) == Some(t)
  }

  lemma RunsMeans(sensors: Sensors, s: State, run: seq<Step>, t: State)
    ensures RunsTo(sensors, s, run, t) <==> Exec(sensors, s, run) == Some(t)
  {
    assert RunsAt(2, sensors, s, run, t) == RunsAt(1, sensors, s, run, t) == RunsAt(0, sensors, s, run, t);
  }

  lemma RunsNone(sensors: Sensors, s: State)
    ensures RunsTo(sensors, s, [], s)
  {
    RunsMeans(sensors, s, [], s);
  }

  lemma RunsMore(sensors: Sensors, s: State, run: seq<Step>, t: State, step: Step) returns (run': seq<Step>)
    requires RunsTo(sensors, s, run, t) && Enabled(t, step)
    ensures run' == run + [step] && RunsTo(sensors, s, run', Apply(sensors, t, step))
  {
    run' := run + [step];
    RunsMeans(sensors, s, run, t);
    RunsMeans(sensors, s, run', Apply(sensors, t, step));
    assert run'[..|run|] == run;
  }

  // Scan with the level kept folded.
  ghost predicate ScansTo(sensors: Sensors, s: State, empties: nat, room: nat, t: State, n: int) {
    ScansAt(2, sensors, s, empties, room, t, n)
  }

  ghost predicate ScansAt(level: nat, sensors: Sensors, s: State, empties: nat, room: nat, t: State, n: int) {
    if level > 0 then ScansAt(level - 1, sensors, s, empties, room, t, n) else
      && s.next < |s.sources| == |s.skipped| && empties <= |s.sources|
      && t == Scan(sensors, s, empties, room).0 && n == Scan(sensors, s, empties, room).1
  }

  lemma ScansMeans(sensors: Sensors, s: State, empties: nat, room: nat, t: State, n: int)
    ensures ScansTo(sensors, s, empties, room, t, n) <==>
      && s.next < |s.sources| == |s.skipped| && empties <= |s.sources|
      && t == Scan(sensors, s, empties, room).0 && n == Scan(sensors, s, empties, room).1
  {
    assert ScansAt(2, sensors, s, empties, room, t, n) == ScansAt(1, sensors, s, empties, room, t, n)
      == ScansAt(0, sensors, s, empties, room, t, n);
  }

  lemma ScanBegins(sensors: Sensors, s: State, empties: nat, room: nat)
    requires s.next < |s.sources| == |s.skipped| && empties <= |s.sources|
    ensures ScansTo(sensors, s, empties, room, Scan(sensors, s, empties, room).0, Scan(sensors, s, empties, room).1)
  {
    ScansMeans(sensors, s, empties, room, Scan(sensors, s, empties, room).0, Scan(sensors, s, empties, room).1);
  }

  lemma ScanEnds(sensors: Sensors, s: State, empties: nat, room: nat, t: State, n: int)
    requires ScansTo(sensors, s, empties, room, t, n) && (empties == |s.sources| || room == 0)
    ensures t == s && n == 0
  {
    ScansMeans(sensors, s, empties, room, t, n);
  }

  // What the scan still does from a look on.
  ghost predicate LooksTo(sensors: Sensors, s: State, empties: nat, room: nat, t: State, n: int) {
    LooksAt(2, sensors, s, empties, room, t, n)
  }

  ghost predicate LooksAt(level: nat, sensors: Sensors, s: State, empties: nat, room: nat, t: State, n: int) {
    if level > 0 then LooksAt(level - 1, sensors, s, empties, room, t, n) else
      && s.next < |s.sources| == |s.skipped|
      && var (s2, found) := Look(sensors, s);
         var n2 := Delivered(sensors, s, s2);
         n2 <= room && ScansTo(sensors, s2, if found then 0 else empties + 1, room - n2, t, n - n2)
  }

  lemma LooksMeans(sensors: Sensors, s: State, empties: nat, room: nat, t: State, n: int)
    ensures LooksTo(sensors, s, empties, room, t, n) <==>
      && s.next < |s.sources| == |s.skipped|
      && var (s2, found) := Look(sensors, s);
         var n2 := Delivered(sensors, s, s2);
         n2 <= room && ScansTo(sensors, s2, if found then 0 else empties + 1, room - n2, t, n - n2)
  {
    assert LooksAt(2, sensors, s, empties, room, t, n) == LooksAt(1, sensors, s, empties, room, t, n)
      == LooksAt(0, sensors, s, empties, room, t, n);
  }

  // The scan, unfolded once: completions, a look and the scan of the rest.
  lemma ScanOf(sensors: Sensors, s: State, empties: nat, room: nat, t: State, n: int, s1: State, n1: nat, s2: State,
      found: bool, n2: nat)
    requires ScansTo(sensors, s, empties, room, t, n) && empties < |s.sources| && n1 < room
    requires s1 == Emit(s, 0, room).0 && n1 == Emit(s, 0, room).1 && s1.next < |s1.sources| == |s1.skipped|
    requires (s2, found) == Look(sensors, s1) && n2 == Delivered(sensors, s1, s2) && n2 <= room - n1
    requires s2.next < |s2.sources| == |s2.skipped| && |s2.sources| == |s.sources|
    ensures ScansTo(sensors, s2, if found then 0 else empties + 1, room - n1 - n2, t, n - n1 - n2)
  {
    ScansMeans(sensors, s, empties, room, t, n);
    ScansMeans(sensors, s2, if found then 0 else empties + 1, room - n1 - n2, t, n - n1 - n2);
  }

  lemma ScanFull(sensors: Sensors, s: State, empties: nat, room: nat, s1: State)
    requires s.next < |s.sources| == |s.skipped| && empties < |s.sources| && 0 < room
    requires s1 == Emit(s, 0, room).0 && room == Emit(s, 0, room).1
    ensures s1.sources == s.sources && s1.next == s.next && s1.skipped == s.skipped
    ensures Scan(sensors, s, empties, room) == (s1, room) && Scan(sensors, s1, empties, 0) == (s1, 0)
  {
    EmitFrame(s, 0, room);
  }

  lemma ScanStep(sensors: Sensors, s: State, empties: nat, room: nat, t: State, n: int, s1: State, n1: nat)
    requires ScansTo(sensors, s, empties, room, t, n) && room > 0
    requires s.next < |s.sources| == |s.skipped| && empties < |s.sources|
    requires EmitsTo(s, 0, room, s1, n1) && n1 <= room
    ensures s1.sources == s.sources && s1.next == s.next && s1.skipped == s.skipped
    ensures n1 == room ==> ScansTo(sensors, s1, empties, 0, t, n - n1)
    ensures n1 < room ==> LooksTo(sensors, s1, empties, room - n1, t, n - n1)
  {
    ScansMeans(sensors, s, empties, room, t, n);
    EmitsMeans(s, 0, room, s1, n1);
    if n1 == room {
      ScanFull(sensors, s, empties, room, s1);
      ScansMeans(sensors, s1, empties, 0, t, n - n1);
    } else {
      ScanStepLook(sensors, s, empties, room, t, n, s1, n1);
    }
  }

  lemma ScanStepLook(sensors: Sensors, s: State, empties: nat, room: nat, t: State, n: int, s1: State, n1: nat)
    requires ScansTo(sensors, s, empties, room, t, n)
    requires s.next < |s.sources| == |s.skipped| && empties < |s.sources| && n1 < room
    requires s1 == Emit(s, 0, room).0 && n1 == Emit(s, 0, room).1
    ensures s1.sources == s.sources && s1.next == s.next && s1.skipped == s.skipped
    ensures LooksTo(sensors, s1, empties, room - n1, t, n - n1)
  {
    EmitFrame(s, 0, room);
    LookShrinks(sensors, s1);
    var (s2, found) := Look(sensors, s1);
    ScanOf(sensors, s, empties, room, t, n, s1, n1, s2, found, Delivered(sensors, s1, s2));
    LooksMeans(sensors, s1, empties, room - n1, t, n - n1);
  }

  // Pass, likewise.
  ghost predicate PassesTo(sensors: Sensors, s: State, room: nat, t: State, n: int) {
    s.next < |s.sources| == |s.skipped| && t == Pass(sensors, s, room).0 && n == Pass(sensors, s, room).1
  }

  lemma PassMeans(sensors: Sensors, s: State, room: nat, s1: State, n1: nat, s2: State, n2: nat)
    requires ScansTo(sensors, s, 0, room, s1, n1) && n1 <= room && EmitsTo(s1, 0, room - n1, s2, n2)
    ensures PassesTo(sensors, s, room, s2, n1 + n2)
  {
    ScansMeans(sensors, s, 0, room, s1, n1);
    EmitsMeans(s1, 0, room - n1, s2, n2);
  }

  // Emit with the level kept folded.
  ghost predicate EmitsTo(s: State, i: nat, room: nat, t: State, n: int) {
    EmitsAt(2, s, i, room, t, n)
  }

  ghost predicate EmitsAt(level: nat, s: State, i: nat, room: nat, t: State, n: int) {
    if level > 0 then EmitsAt(level - 1, s, i, room, t, n)
    else i <= |s.pending| && t == Emit(s, i, room).0 && n == Emit(s, i, room).1
  }

  lemma EmitsMeans(s: State, i: nat, room: nat, t: State, n: int)
    ensures EmitsTo(s, i, room, t, n) <==> i <= |s.pending| && t == Emit(s, i, room).0 && n == Emit(s, i, room).1
  {
    assert EmitsAt(2, s, i, room, t, n) == EmitsAt(1, s, i, room, t, n) == EmitsAt(0, s, i, room, t, n);
  }

  lemma EmitBegins(s: State, i: nat, room: nat)
    requires i <= |s.pending|
    ensures EmitsTo(s, i, room, Emit(s, i, room).0, Emit(s, i, room).1)
  {
    EmitsMeans(s, i, room, Emit(s, i, room).0, Emit(s, i, room).1);
  }

  lemma EmitStep(s: State, i: nat, room: nat, t: State, n: int)
    requires i < |s.pending| && room > 0 && EmitsTo(s, i, room, t, n)
    ensures !Ready(s, s.pending[i]) ==> EmitsTo(s, i + 1, room, t, n)
    ensures Ready(s, s.pending[i]) ==> EmitsTo(MultiHalModel.Complete(s, i), i, room - 1, t, n - 1)
  {
    EmitsMeans(s, i, room, t, n);
    EmitsMeans(s, i + 1, room, t, n);
    EmitsMeans(MultiHalModel.Complete(s, i), i, room - 1, t, n - 1);
  }

  lemma EmitEnds(s: State, i: nat, room: nat, t: State, n: int)
    requires EmitsTo(s, i, room, t, n) && (i == |s.pending| || room == 0)
    ensures t == s && n == 0
  {
    EmitsMeans(s, i, room, t, n);
  }

  lemma RenderMore(sensors: Sensors, log: seq<Entry>, entry: Entry, shown: seq<Event>, filled: seq<Event>)
    requires Render(sensors, log) == shown + filled
    ensures Render(sensors, log + [entry]) == shown + (filled + Shown(sensors, entry))
  {
    assert (log + [entry])[..|log|] == log;
  }
}
