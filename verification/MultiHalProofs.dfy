// What every run of the merged sensor stream keeps.

module MultiHalProofs {
  import opened Options
  import opened SensorEvents
  import opened MultiHalModel

  // Conservation: nothing a module handed over is lost, repeated or reordered.
  ghost predicate SourceOk(s: State, m: nat)
    requires m < |s.sources|
  {
    var source := s.sources[m];
    source.handed == source.taken + source.ring + source.staged && TakenIn(s.log, m) == source.taken
  }

  // Every event in the history came from one of the modules.
  ghost predicate FromModules(log: seq<Entry>, modules: nat) {
    forall p :: 0 <= p < |log| && log[p].Took? ==> log[p].m < modules
  }

  ghost predicate Sources(s: State) {
    && s.next < |s.sources| == |s.skipped| && FromModules(s.log, |s.sources|)
    && forall m: nat :: m < |s.sources| ==> SourceOk(s, m)
  }

  // A pending flush waits for exactly what its module had handed over.
  ghost predicate PendingOk(s: State, flush: Flush) {
    && flush.m < |s.sources|
    && flush.after == |flush.promised|
    && flush.promised <= s.sources[flush.m].handed
    && |s.sources[flush.m].taken| <= flush.after
  }

  // Every completion in the history stands where all promised events of its module,
  // and no later one, have been taken.
  ghost predicate OnBarrier(log: seq<Entry>) {
    log == [] || (
      var before, last := log[..|log| - 1], log[|log| - 1];
      OnBarrier(before) && (last.Done? ==> TakenIn(before, last.flush.m) == last.flush.promised))
  }

  ghost predicate Barriers(s: State) {
    (forall f :: f in s.pending ==> PendingOk(s, f)) && OnBarrier(s.log)
  }

  // Each accepted flush is pending or completed, and only once.
  function PendingIds(pending: seq<Flush>): multiset<nat> {
    if pending == [] then multiset{} else PendingIds(pending[..|pending| - 1]) + multiset{pending[|pending| - 1].id}
  }

  function DoneIds(log: seq<Entry>): multiset<nat> {
    if log == [] then multiset{} else
      var before, last := DoneIds(log[..|log| - 1]), log[|log| - 1];
      if last.Done? then before + multiset{last.flush.id} else before
  }

  function Issued(flushes: nat): multiset<nat> {
    if flushes == 0 then multiset{} else Issued(flushes - 1) + multiset{flushes - 1}
  }

  ghost predicate Accounted(s: State) {
    PendingIds(s.pending) + DoneIds(s.log) == Issued(s.flushes)
  }

  // Round robin: the further ahead the scan's turn at a ring, the fewer events were
  // taken elsewhere since it was served or seen empty.
  function Distance(s: State, m: nat): nat
    requires m < |s.sources| && s.next < |s.sources|
  {
    if m >= s.next then m - s.next else m + |s.sources| - s.next
  }

  ghost predicate Fair(s: State) {
    && s.next < |s.sources| == |s.skipped|
    && forall m: nat :: m < |s.sources| ==> s.skipped[m] + Distance(s, m) <= |s.sources| - 1
  }

  // The spare levels keep the conjunction folded where only the whole matters;
  // Parts unfolds it.
  ghost predicate Inv(s: State) {
    s.next < |s.sources| == |s.skipped| && All(2, s)
  }

  ghost predicate All(level: nat, s: State) {
    if level > 0 then All(level - 1, s) else Sources(s) && Barriers(s) && Accounted(s) && Fair(s)
  }

  lemma Parts(s: State)
    ensures Inv(s) <==> Sources(s) && Barriers(s) && Accounted(s) && Fair(s)
  {
    assert All(2, s) == All(1, s) == All(0, s);
  }

  // Completions ---------------------------------------------------------------

  lemma PendingIdsMore(pending: seq<Flush>, flush: Flush)
    ensures PendingIds(pending + [flush]) == PendingIds(pending) + multiset{flush.id}
  {
    assert (pending + [flush])[..|pending|] == pending;
  }

  // The pending flushes without the i-th.
  function Without(pending: seq<Flush>, i: nat): seq<Flush>
    requires i < |pending|
  {
    pending[..i] + pending[i + 1..]
  }

  lemma WithoutMore(pending: seq<Flush>, flush: Flush, i: nat)
    requires i < |pending|
    ensures Without(pending + [flush], i) == Without(pending, i) + [flush]
  {}

  lemma WithoutLast(pending: seq<Flush>, flush: Flush)
    ensures Without(pending + [flush], |pending|) == pending
  {}

  lemma {:induction false} PendingIdsWithout(pending: seq<Flush>, i: nat)
    requires i < |pending|
    ensures PendingIds(pending) == PendingIds(Without(pending, i)) + multiset{pending[i].id}
    decreases |pending|
  {
    var last := |pending| - 1;
    var before, flush := pending[..last], pending[last];
    assert pending == before + [flush];
    PendingIdsMore(before, flush);
    if i < last {
      PendingIdsWithout(before, i);
      WithoutMore(before, flush, i);
      PendingIdsMore(Without(before, i), flush);
    } else {
      WithoutLast(before, flush);
    }
  }

  // A ready flush has got exactly what it was promised.
  lemma ReadyIsExact(s: State, flush: Flush)
    requires Sources(s) && PendingOk(s, flush) && Ready(s, flush)
    ensures s.sources[flush.m].taken == flush.promised
  {
    var source := s.sources[flush.m];
    assert SourceOk(s, flush.m);
    assert source.handed[..|source.taken|] == source.taken;
    assert source.handed[..|flush.promised|] == flush.promised;
  }

  lemma TakenInDone(log: seq<Entry>, flush: Flush, m: nat)
    ensures TakenIn(log + [Done(flush)], m) == TakenIn(log, m)
  {
    assert (log + [Done(flush)])[..|log|] == log;
  }

  lemma CompleteKeeps(s: State, i: nat)
    requires Inv(s) && i < |s.pending| && Ready(s, s.pending[i])
    ensures Inv(Complete(s, i))
  {
    var s', flush := Complete(s, i), s.pending[i];
    Parts(s);
    Parts(s');
    assert flush in s.pending;
    ReadyIsExact(s, flush);
    assert SourceOk(s, flush.m);
    assert s'.log[..|s.log|] == s.log;
    PendingIdsWithout(s.pending, i);
    forall m: nat | m < |s'.sources| ensures SourceOk(s', m) {
      assert SourceOk(s, m);
      TakenInDone(s.log, flush, m);
    }
    forall f | f in s'.pending ensures PendingOk(s', f) {
      assert f in s.pending && PendingOk(s, f);
    }
  }

  lemma {:induction false} EmitKeeps(s: State, i: nat, room: nat)
    requires Inv(s) && i <= |s.pending|
    ensures Inv(Emit(s, i, room).0)
    decreases |s.pending| - i
  {
    if i < |s.pending| && room > 0 {
      if Ready(s, s.pending[i]) {
        CompleteKeeps(s, i);
        EmitKeeps(Complete(s, i), i, room - 1);
      } else {
        EmitKeeps(s, i + 1, room);
      }
    }
  }

  ghost predicate NoneReady(s: State) {
    forall i :: 0 <= i < |s.pending| ==> !Ready(s, s.pending[i])
  }

  // With room to spare, no ready flush is left.
  lemma {:induction false} EmitExhausts(s: State, i: nat, room: nat)
    requires i <= |s.pending|
    requires forall j :: 0 <= j < i ==> !Ready(s, s.pending[j])
    requires Emit(s, i, room).1 < room
    ensures NoneReady(Emit(s, i, room).0)
    decreases |s.pending| - i
  {
    if i < |s.pending| && room > 0 {
      if Ready(s, s.pending[i]) {
        assert forall j :: 0 <= j < i ==> Complete(s, i).pending[j] == s.pending[j];
        EmitExhausts(Complete(s, i), i, room - 1);
      } else {
        EmitExhausts(s, i + 1, room);
      }
    }
  }

  // Looks ---------------------------------------------------------------------

  lemma LookKeepsFair(sensors: Sensors, s: State)
    requires Fair(s)
    ensures Fair(Look(sensors, s).0)
  {}

  lemma LookKeepsSources(sensors: Sensors, s: State)
    requires Sources(s)
    ensures Sources(Look(sensors, s).0)
  {
    var s' := Look(sensors, s).0;
    var source := s.sources[s.next];
    forall m: nat | m < |s'.sources| ensures SourceOk(s', m) {
      assert SourceOk(s, m);
      if source.ring != [] {
        assert s'.log[..|s.log|] == s.log;
        TakeFirst(source.taken, source.ring, source.staged);
      }
    }
  }

  lemma LookKeepsBarriers(sensors: Sensors, s: State)
    requires Sources(s) && Barriers(s) && Accounted(s) && NoneReady(s)
    ensures Barriers(Look(sensors, s).0) && Accounted(Look(sensors, s).0)
  {
    var s' := Look(sensors, s).0;
    if s.sources[s.next].ring != [] {
      assert s'.log[..|s.log|] == s.log;
      forall f | f in s'.pending ensures PendingOk(s', f) {
        assert PendingOk(s, f) && !Ready(s, f);
      }
    }
  }

  lemma LookKeeps(sensors: Sensors, s: State)
    requires Inv(s) && NoneReady(s)
    ensures Inv(Look(sensors, s).0)
  {
    Parts(s);
    Parts(Look(sensors, s).0);
    LookKeepsFair(sensors, s);
    LookKeepsSources(sensors, s);
    LookKeepsBarriers(sensors, s);
  }

  // Passes --------------------------------------------------------------------

  // What one turn of the scan does: completions, then a look if there is room.
  lemma TurnKeeps(sensors: Sensors, s: State, room: nat)
    requires Inv(s) && room > 0
    ensures var (s1, n1) := Emit(s, 0, room);
      && Inv(s1) && n1 <= room && s1.sources == s.sources && s1.next == s.next
      && (n1 < room ==> Inv(Look(sensors, s1).0) && n1 + Delivered(sensors, s1, Look(sensors, s1).0) <= room)
  {
    EmitFrame(s, 0, room);
    EmitKeeps(s, 0, room);
    var (s1, n1) := Emit(s, 0, room);
    if n1 < room {
      EmitExhausts(s, 0, room);
      LookKeeps(sensors, s1);
    }
  }

  // The rest of the scan after a turn.
  lemma ScanTurn(sensors: Sensors, s: State, empties: nat, room: nat)
    requires s.next < |s.sources| == |s.skipped| && empties < |s.sources| && room > 0 && Emit(s, 0, room).1 < room
    requires var s1 := Emit(s, 0, room).0;
      s1.next < |s1.sources| == |s1.skipped| && |s1.sources| == |s.sources|
      && Emit(s, 0, room).1 + Delivered(sensors, s1, Look(sensors, s1).0) <= room
    ensures var (s1, n1) := Emit(s, 0, room);
      var (s2, found) := Look(sensors, s1);
      var n2 := Delivered(sensors, s1, s2);
      s2.next < |s2.sources| == |s2.skipped| && |s2.sources| == |s.sources|
      && var rest := Scan(sensors, s2, if found then 0 else empties + 1, room - n1 - n2);
         Scan(sensors, s, empties, room) == (rest.0, n1 + n2 + rest.1)
  {
    EmitFrame(s, 0, room);
    LookShrinks(sensors, Emit(s, 0, room).0);
  }

  lemma {:induction false} ScanKeeps(sensors: Sensors, s: State, empties: nat, room: nat)
    requires Inv(s) && empties <= |s.sources|
    ensures Inv(Scan(sensors, s, empties, room).0) && Scan(sensors, s, empties, room).1 <= room
    decreases RingTotal(s.sources), |s.sources| - empties
  {
    if empties < |s.sources| && room > 0 {
      TurnKeeps(sensors, s, room);
      var (s1, n1) := Emit(s, 0, room);
      if n1 < room {
        LookShrinks(sensors, s1);
        ScanTurn(sensors, s, empties, room);
        var (s2, found) := Look(sensors, s1);
        ScanKeeps(sensors, s2, if found then 0 else empties + 1, room - n1 - Delivered(sensors, s1, s2));
      }
    }
  }

  lemma PassKeeps(sensors: Sensors, s: State, room: nat)
    requires Inv(s)
    ensures Inv(Pass(sensors, s, room).0) && Pass(sensors, s, room).1 <= room
  {
    ScanKeeps(sensors, s, 0, room);
    var (s1, n1) := Scan(sensors, s, 0, room);
    EmitKeeps(s1, 0, room - n1);
    EmitFrame(s1, 0, room - n1);
  }

  // Other threads -------------------------------------------------------------

  ghost predicate Grows(a: Source, b: Source) {
    a.handed <= b.handed && a.taken == b.taken && b.handed == b.taken + b.ring + b.staged
  }

  // Steps that add to what modules have handed over and leave the history alone.
  lemma SourcesGrowKeeps(s: State, s': State)
    requires Inv(s)
    requires s'.log == s.log && s'.pending == s.pending && s'.flushes == s.flushes && s'.next == s.next
    requires s'.skipped == s.skipped
    requires |s'.sources| == |s.sources|
    requires forall m: nat :: m < |s.sources| ==> Grows(s.sources[m], s'.sources[m])
    ensures Inv(s')
  {
    Parts(s);
    Parts(s');
    forall m: nat | m < |s'.sources| ensures SourceOk(s', m) {
      assert SourceOk(s, m);
    }
    forall f | f in s'.pending ensures PendingOk(s', f) {
      assert PendingOk(s, f);
    }
    forall m: nat | m < |s'.sources| ensures s'.skipped[m] + Distance(s', m) <= |s'.sources| - 1 {
      assert s.skipped[m] + Distance(s, m) <= |s.sources| - 1;
    }
  }

  lemma HandOverKeeps(s: State, m: nat, batch: seq<Event>)
    requires Inv(s) && m < |s.sources| && s.sources[m].staged == []
    ensures Inv(HandOver(s, m, batch))
  {
    Parts(s);
    var s' := HandOver(s, m, batch);
    forall k: nat | k < |s.sources| ensures Grows(s.sources[k], s'.sources[k]) {
      assert SourceOk(s, k);
    }
    SourcesGrowKeeps(s, s');
  }

  lemma PublishKeeps(s: State, m: nat, chunk: nat)
    requires Inv(s) && m < |s.sources| && chunk <= |s.sources[m].staged|
    ensures Inv(Publish(s, m, chunk))
  {
    Parts(s);
    var staged := s.sources[m].staged;
    assert staged == staged[..chunk] + staged[chunk..];
    var s' := Publish(s, m, chunk);
    forall k: nat | k < |s.sources| ensures Grows(s.sources[k], s'.sources[k]) {
      assert SourceOk(s, k);
    }
    SourcesGrowKeeps(s, s');
  }

  lemma RequestKeeps(sensors: Sensors, s: State, handle: int)
    requires Inv(s)
    ensures Inv(Request(sensors, s, handle).0)
  {
    var (s', accepted) := Request(sensors, s, handle);
    if accepted {
      Parts(s);
      Parts(s');
      var flush := s'.pending[|s.pending|];
      assert s'.pending[..|s.pending|] == s.pending;
      assert SourceOk(s, flush.m);
      forall m: nat | m < |s'.sources| ensures SourceOk(s', m) {
        assert SourceOk(s, m);
      }
      forall f | f in s'.pending ensures PendingOk(s', f) {
        assert f in s.pending ==> PendingOk(s, f);
      }
    }
  }

  lemma ActivateKeeps(s: State, handle: int, enabled: bool)
    requires Inv(s)
    ensures Inv(Activate(s, handle, enabled))
  {
    Parts(s);
    forall k: nat | k < |s.sources| ensures Grows(s.sources[k], s.sources[k]) {
      assert SourceOk(s, k);
    }
    SourcesGrowKeeps(s, Activate(s, handle, enabled));
  }

  // Runs ------------------------------------------------------------------------

  lemma StepKeeps(sensors: Sensors, s: State, step: Step)
    requires Inv(s) && Enabled(s, step)
    ensures Inv(Apply(sensors, s, step))
  {
    match step
    case DoHandOver(m, batch) => HandOverKeeps(s, m, batch);
    case DoPublish(m, chunk) => PublishKeeps(s, m, chunk);
    case DoRequest(handle) => RequestKeeps(sensors, s, handle);
    case DoActivate(handle, enabled) => ActivateKeeps(s, handle, enabled);
    case DoPass(room) => PassKeeps(sensors, s, room);
  }

  lemma {:induction false} RunKeeps(sensors: Sensors, s: State, steps: seq<Step>, s': State)
    requires Inv(s) && Exec(sensors, s, steps) == Some(s')
    ensures Inv(s')
  {
    if steps != [] {
      var before := Exec(sensors, s, steps[..|steps| - 1]).value;
      RunKeeps(sensors, s, steps[..|steps| - 1], before);
      StepKeeps(sensors, before, steps[|steps| - 1]);
    }
  }

  lemma InitialInv(modules: nat)
    requires modules > 0
    ensures Inv(Initial(modules))
  {
    Parts(Initial(modules));
  }

  ghost predicate Reachable(sensors: Sensors, modules: nat, steps: seq<Step>, s: State) {
    modules > 0 && Exec(sensors, Initial(modules), steps) == Some(s)
  }

  lemma ReachableInv(sensors: Sensors, modules: nat, steps: seq<Step>, s: State)
    requires Reachable(sensors, modules, steps, s)
    ensures Inv(s)
  {
    InitialInv(modules);
    RunKeeps(sensors, Initial(modules), steps, s);
  }

  // Nothing a module handed to its queue is lost, repeated or reordered.
  lemma Conservation(sensors: Sensors, modules: nat, steps: seq<Step>, s: State, m: nat)
    requires Reachable(sensors, modules, steps, s) && m < |s.sources|
    ensures s.sources[m].handed == TakenIn(s.log, m) + s.sources[m].ring + s.sources[m].staged
  {
    ReachableInv(sensors, modules, steps, s);
    Parts(s);
    assert SourceOk(s, m);
  }

  lemma {:induction false} OnBarrierAt(log: seq<Entry>, p: nat)
    requires OnBarrier(log) && p < |log| && log[p].Done?
    ensures TakenIn(log[..p], log[p].flush.m) == log[p].flush.promised
    decreases |log|
  {
    if p < |log| - 1 {
      OnBarrierAt(log[..|log| - 1], p);
      assert log[..|log| - 1][..p] == log[..p];
    }
  }

  // A completion is delivered after every event its module had handed over when the
  // flush was accepted, staged ones included, and before any later event of it.
  lemma FlushOnBarrier(sensors: Sensors, modules: nat, steps: seq<Step>, s: State, p: nat)
    requires Reachable(sensors, modules, steps, s) && p < |s.log| && s.log[p].Done?
    ensures TakenIn(s.log[..p], s.log[p].flush.m) == s.log[p].flush.promised
  {
    ReachableInv(sensors, modules, steps, s);
    Parts(s);
    OnBarrierAt(s.log, p);
  }

  lemma {:induction false} IssuedOnce(flushes: nat, id: nat)
    ensures Issued(flushes)[id] == if id < flushes then 1 else 0
  {
    if flushes > 0 {
      IssuedOnce(flushes - 1, id);
    }
  }

  // Each accepted flush is pending or completed, exactly once.
  lemma FlushOnce(sensors: Sensors, modules: nat, steps: seq<Step>, s: State, id: nat)
    requires Reachable(sensors, modules, steps, s)
    ensures PendingIds(s.pending)[id] + DoneIds(s.log)[id] == if id < s.flushes then 1 else 0
  {
    ReachableInv(sensors, modules, steps, s);
    Parts(s);
    IssuedOnce(s.flushes, id);
  }

  // Requests for flushes ------------------------------------------------------------

  // Exactly flushes of sensors that are known, active and do not report once only are
  // accepted; the flush is for the sensor's module and all it has handed over.
  lemma RequestExact(sensors: Sensors, s: State, handle: int)
    requires Inv(s)
    ensures var (s', accepted) := Request(sensors, s, handle);
      && (accepted <==>
        handle in sensors.modules && sensors.modules[handle] < |s.sources| && handle in s.active &&
        handle !in sensors.oneShot)
      && (!accepted ==> s' == s)
      && (accepted ==>
            var m := sensors.modules[handle];
            s' == s.(flushes := s.flushes + 1,
                     pending := s.pending + [Flush(s.flushes, handle, m, |s.sources[m].handed|, s.sources[m].handed)]))
  {
    Parts(s);
    if Request(sensors, s, handle).1 {
      assert SourceOk(s, sensors.modules[handle]);
    }
  }

  // A flush of one of the sensors of its module.
  predicate Proper(sensors: Sensors, flush: Flush) {
    flush.handle in sensors.modules && sensors.modules[flush.handle] == flush.m && flush.handle !in sensors.oneShot
  }

  ghost predicate AllProper(sensors: Sensors, pending: seq<Flush>, log: seq<Entry>) {
    && (forall f :: f in pending ==> Proper(sensors, f))
    && forall e :: e in log && e.Done? ==> Proper(sensors, e.flush)
  }

  lemma {:induction false} EmitProper(sensors: Sensors, s: State, i: nat, room: nat)
    requires i <= |s.pending| && AllProper(sensors, s.pending, s.log)
    ensures AllProper(sensors, Emit(s, i, room).0.pending, Emit(s, i, room).0.log)
    decreases |s.pending| - i
  {
    if i < |s.pending| && room > 0 {
      if Ready(s, s.pending[i]) {
        assert s.pending[i] in s.pending;
        EmitProper(sensors, Complete(s, i), i, room - 1);
      } else {
        EmitProper(sensors, s, i + 1, room);
      }
    }
  }

  lemma {:induction false} ScanProper(sensors: Sensors, s: State, empties: nat, room: nat)
    requires s.next < |s.sources| == |s.skipped| && empties <= |s.sources| && AllProper(sensors, s.pending, s.log)
    ensures AllProper(sensors, Scan(sensors, s, empties, room).0.pending, Scan(sensors, s, empties, room).0.log)
    decreases RingTotal(s.sources), |s.sources| - empties
  {
    EmitFrame(s, 0, room);
    EmitProper(sensors, s, 0, room);
    var (s1, n1) := Emit(s, 0, room);
    if empties < |s.sources| && room > 0 && n1 < room {
      LookShrinks(sensors, s1);
      LookProper(sensors, s1);
      var (s2, found) := Look(sensors, s1);
      var n2 := Delivered(sensors, s1, s2);
      ScanProper(sensors, s2, if found then 0 else empties + 1, if n2 <= room - n1 then room - n1 - n2 else 0);
    }
  }

  lemma LookProper(sensors: Sensors, s: State)
    requires s.next < |s.sources| == |s.skipped| && AllProper(sensors, s.pending, s.log)
    ensures AllProper(sensors, Look(sensors, s).0.pending, Look(sensors, s).0.log)
  {}

  lemma StepProper(sensors: Sensors, s: State, step: Step)
    requires Inv(s) && Enabled(s, step) && AllProper(sensors, s.pending, s.log)
    ensures AllProper(sensors, Apply(sensors, s, step).pending, Apply(sensors, s, step).log)
  {
    match step
    case DoPass(room) =>
      ScanProper(sensors, s, 0, room);
      ScanKeeps(sensors, s, 0, room);
      var (s1, n1) := Scan(sensors, s, 0, room);
      EmitProper(sensors, s1, 0, room - n1);
    case DoRequest(handle) => RequestExact(sensors, s, handle);
    case _ =>
  }

  // Over every run each flush, pending or completed, is one of a sensor of its module.
  lemma {:induction false} FlushesProper(sensors: Sensors, modules: nat, steps: seq<Step>, s: State)
    requires Reachable(sensors, modules, steps, s)
    ensures AllProper(sensors, s.pending, s.log)
  {
    if steps != [] {
      var before := Exec(sensors, Initial(modules), steps[..|steps| - 1]).value;
      FlushesProper(sensors, modules, steps[..|steps| - 1], before);
      ReachableInv(sensors, modules, steps[..|steps| - 1], before);
      StepProper(sensors, before, steps[|steps| - 1]);
    }
  }

  // Blocking ----------------------------------------------------------------------

  function Back(s: State, d: nat): nat
    requires s.next < |s.sources| && 1 <= d <= |s.sources|
  {
    if s.next >= d then s.next - d else s.next + |s.sources| - d
  }

  // The last rings looked at were empty.
  ghost predicate EmptyBehind(s: State, empties: nat) {
    && s.next < |s.sources| && empties <= |s.sources|
    && forall d {:trigger Back(s, d)} :: 1 <= d <= empties ==> s.sources[Back(s, d)].ring == []
  }

  ghost predicate AllEmpty(s: State) {
    forall m: nat :: m < |s.sources| ==> s.sources[m].ring == []
  }

  lemma EmptyAllRound(s: State)
    requires EmptyBehind(s, |s.sources|)
    ensures AllEmpty(s)
  {
    forall m: nat | m < |s.sources| ensures s.sources[m].ring == [] {
      var d := if m < s.next then s.next - m else s.next + |s.sources| - m;
      assert Back(s, d) == m;
    }
  }

  lemma LookBehind(sensors: Sensors, s: State, empties: nat)
    requires s.next < |s.sources| == |s.skipped| && empties < |s.sources| && EmptyBehind(s, empties)
    ensures var (s', found) := Look(sensors, s);
      EmptyBehind(s', if found then 0 else empties + 1)
  {
    var (s', found) := Look(sensors, s);
    if !found {
      forall d | 1 <= d <= empties + 1 ensures s'.sources[Back(s', d)].ring == [] {
        assert d > 1 ==> Back(s', d) == Back(s, d - 1);
      }
    }
  }

  lemma {:induction false} ScanFindsNothing(sensors: Sensors, s: State, empties: nat, room: nat)
    requires s.next < |s.sources| == |s.skipped| && empties <= |s.sources| && room > 0
    requires EmptyBehind(s, empties)
    requires Scan(sensors, s, empties, room).1 == 0
    ensures AllEmpty(Scan(sensors, s, empties, room).0)
    decreases RingTotal(s.sources), |s.sources| - empties
  {
    EmitFrame(s, 0, room);
    var (s1, n1) := Emit(s, 0, room);
    if empties == |s.sources| {
      EmptyAllRound(s);
    } else {
      assert forall d :: 1 <= d <= empties ==> Back(s1, d) == Back(s, d);
      LookShrinks(sensors, s1);
      LookBehind(sensors, s1, empties);
      var (s2, found) := Look(sensors, s1);
      ScanFindsNothing(sensors, s2, if found then 0 else empties + 1, room);
    }
  }

  ghost predicate AllWaiting(s: State) {
    forall f :: f in s.pending ==> f.m < |s.sources| && s.sources[f.m].staged != []
  }

  // A flush still pending then waits for events its module's writer holds back.
  lemma PendingWhenIdle(s: State)
    requires Inv(s) && AllEmpty(s) && NoneReady(s)
    ensures AllWaiting(s)
  {
    Parts(s);
    forall f | f in s.pending ensures f.m < |s.sources| && s.sources[f.m].staged != [] {
      var i :| 0 <= i < |s.pending| && s.pending[i] == f;
      assert PendingOk(s, f) && !Ready(s, f);
      assert SourceOk(s, f.m);
    }
  }

  // Poll goes to sleep only when every ring is empty and no flush is ready, each pending
  // one waiting for staged events; otherwise it returns at least one and at most maxReads
  // events.
  lemma BlocksOnlyIdle(sensors: Sensors, s: State, maxReads: nat)
    requires Inv(s) && maxReads > 0
    ensures Pass(sensors, s, maxReads).1 <= maxReads
    ensures Pass(sensors, s, maxReads).1 == 0 ==>
      AllEmpty(Pass(sensors, s, maxReads).0) && NoneReady(Pass(sensors, s, maxReads).0)
      && AllWaiting(Pass(sensors, s, maxReads).0)
  {
    PassKeeps(sensors, s, maxReads);
    ScanKeeps(sensors, s, 0, maxReads);
    var (s1, n1) := Scan(sensors, s, 0, maxReads);
    if Pass(sensors, s, maxReads).1 == 0 {
      var (s2, n2) := Emit(s1, 0, maxReads - n1);
      assert Pass(sensors, s, maxReads) == (s2, n1 + n2);
      ScanFindsNothing(sensors, s, 0, maxReads);
      EmitFrame(s1, 0, maxReads);
      EmitExhausts(s1, 0, maxReads);
      PendingWhenIdle(s2);
    }
  }

  // Fairness ------------------------------------------------------------------------

  function Looks(log: seq<Entry>): nat {
    if log == [] then 0 else Looks(log[..|log| - 1]) + if log[|log| - 1].Took? then 1 else 0
  }

  // From s to s' ring m, if it held events at s, was served or every event taken is
  // counted against it.
  ghost predicate ServedOrCounted(s: State, s': State, m: nat) {
    && m < |s.sources| == |s'.sources| == |s.skipped| == |s'.skipped|
    && |s.sources[m].taken| <= |s'.sources[m].taken|
    && (s.sources[m].ring != [] && |s.sources[m].taken| == |s'.sources[m].taken| ==>
      && s'.sources[m].ring != []
      && s'.skipped[m] + Looks(s.log) == s.skipped[m] + Looks(s'.log))
  }

  lemma LookCounts(sensors: Sensors, s: State, m: nat)
    requires m < |s.sources| == |s.skipped| && s.next < |s.sources|
    ensures ServedOrCounted(s, Look(sensors, s).0, m)
  {
    assert Look(sensors, s).1 ==> Look(sensors, s).0.log[..|s.log|] == s.log;
  }

  lemma {:induction false} EmitCounts(s: State, i: nat, room: nat, m: nat)
    requires i <= |s.pending| && m < |s.sources| == |s.skipped|
    ensures ServedOrCounted(s, Emit(s, i, room).0, m)
    decreases |s.pending| - i
  {
    if i < |s.pending| && room > 0 {
      if Ready(s, s.pending[i]) {
        assert Complete(s, i).log[..|s.log|] == s.log;
        EmitCounts(Complete(s, i), i, room - 1, m);
      } else {
        EmitCounts(s, i + 1, room, m);
      }
    }
  }

  lemma {:induction false} ScanCounts(sensors: Sensors, s: State, empties: nat, room: nat, m: nat)
    requires s.next < |s.sources| == |s.skipped| && empties <= |s.sources| && m < |s.sources|
    ensures ServedOrCounted(s, Scan(sensors, s, empties, room).0, m)
    decreases RingTotal(s.sources), |s.sources| - empties
  {
    EmitFrame(s, 0, room);
    EmitCounts(s, 0, room, m);
    var (s1, n1) := Emit(s, 0, room);
    if empties < |s.sources| && room > 0 && n1 < room {
      LookShrinks(sensors, s1);
      LookCounts(sensors, s1, m);
      var (s2, found) := Look(sensors, s1);
      var n2 := Delivered(sensors, s1, s2);
      ScanCounts(sensors, s2, if found then 0 else empties + 1, if n2 <= room - n1 then room - n1 - n2 else 0, m);
    }
  }

  lemma StepCounts(sensors: Sensors, s: State, step: Step, m: nat)
    requires Inv(s) && Enabled(s, step) && m < |s.sources|
    ensures ServedOrCounted(s, Apply(sensors, s, step), m)
  {
    if step.DoPass? {
      ScanCounts(sensors, s, 0, step.room, m);
      ScanKeeps(sensors, s, 0, step.room);
      var (s1, n1) := Scan(sensors, s, 0, step.room);
      EmitCounts(s1, 0, step.room - n1, m);
    }
  }

  lemma {:induction false} RunCounts(sensors: Sensors, s: State, steps: seq<Step>, s': State, m: nat)
    requires Inv(s) && Exec(sensors, s, steps) == Some(s') && m < |s.sources|
    ensures ServedOrCounted(s, s', m)
  {
    if steps != [] {
      var before := Exec(sensors, s, steps[..|steps| - 1]).value;
      RunCounts(sensors, s, steps[..|steps| - 1], before, m);
      RunKeeps(sensors, s, steps[..|steps| - 1], before);
      StepCounts(sensors, before, steps[|steps| - 1], m);
    }
  }

  // Across any number of calls, at most one event per other ring is taken before a
  // ring that holds events is served.
  lemma NoStarvation(sensors: Sensors, modules: nat, steps: seq<Step>, s: State, more: seq<Step>, s': State, m: nat)
    requires Reachable(sensors, modules, steps, s) && Exec(sensors, s, more) == Some(s')
    requires m < |s.sources| && s.sources[m].ring != []
    requires m < |s'.sources| && |s'.sources[m].taken| == |s.sources[m].taken|
    ensures Looks(s'.log) - Looks(s.log) <= |s.sources| - 1
  {
    ReachableInv(sensors, modules, steps, s);
    RunKeeps(sensors, s, more, s');
    RunCounts(sensors, s, more, s', m);
    Parts(s');
    assert s'.skipped[m] + Distance(s', m) <= |s'.sources| - 1;
  }

  // What the caller sees --------------------------------------------------------------

  // What the caller is to get for an event of module m: a reading under the global handle
  // of its sensor if it has one, a meta-data event about the global handle of its target or
  // about -1, as long as it names no sensor itself.
  function Seen(global: map<(nat, int), int>, m: nat, event: Event): seq<Event> {
    match event
    case Reading(local, payload) =>
      if (m, local) in global && global[(m, local)] != -1 then [Reading(global[(m, local)], payload)] else []
    case Meta(sensor, what, local) =>
      if sensor == -1 then [] else [Meta(sensor, what, if (m, local) in global then global[(m, local)] else -1)]
  }

  lemma ShownIsSeen(sensors: Sensors, m: nat, event: Event)
    ensures Shown(sensors, Took(m, event)) == Seen(sensors.global, m, event)
  {}

  // The visible part of one module's events.
  function Visible(global: map<(nat, int), int>, m: nat, events: seq<Event>): seq<Event> {
    if events == [] then [] else
      Visible(global, m, events[..|events| - 1]) + Seen(global, m, events[|events| - 1])
  }

  // The completions of a stretch of history as the caller sees them.
  function Completions(log: seq<Entry>): seq<Event> {
    if log == [] then [] else
      var before, last := Completions(log[..|log| - 1]), log[|log| - 1];
      if last.Done? then before + [Meta(0, 1, last.flush.handle)] else before
  }

  // Where each event the caller sees comes from: a module, or no module for a completion.
  function Origins(sensors: Sensors, log: seq<Entry>): (r: seq<Option<nat>>)
    ensures |r| == |Render(sensors, log)|
  {
    if log == [] then [] else
      var last := log[|log| - 1];
      Origins(sensors, log[..|log| - 1])
      + seq(|Shown(sensors, last)|, _ => if last.Took? then Some(last.m) else None)
  }

  // The events of one origin, in order.
  function Part(events: seq<Event>, from: seq<Option<nat>>, who: Option<nat>): seq<Event>
    requires |events| == |from|
  {
    if events == [] then [] else
      var last := |events| - 1;
      Part(events[..last], from[..last], who) + if from[last] == who then [events[last]] else []
  }

  // The events are the modules' visible events and the completions, each in order and
  // nothing else, one way or another interleaved.
  ghost predicate Merges(sensors: Sensors, s: State, events: seq<Event>) {
    exists from: seq<Option<nat>> :: Interleaved(sensors, s, events, from)
  }

  ghost predicate Interleaved(sensors: Sensors, s: State, events: seq<Event>, from: seq<Option<nat>>) {
    && |from| == |events|
    && (forall p :: 0 <= p < |from| && from[p].Some? ==> from[p].value < |s.sources|)
    && (forall m: nat :: m < |s.sources| ==>
          Part(events, from, Some(m)) == Visible(sensors.global, m, s.sources[m].taken))
    && Part(events, from, None) == Completions(s.log)
  }

  lemma PartMore(events: seq<Event>, from: seq<Option<nat>>, event: Event, origin: Option<nat>, who: Option<nat>)
    requires |events| == |from|
    ensures Part(events + [event], from + [origin], who)
      == Part(events, from, who) + if origin == who then [event] else []
  {
    assert (events + [event])[..|events|] == events && (from + [origin])[..|from|] == from;
  }

  lemma VisibleMore(sensors: Sensors, m: nat, events: seq<Event>, event: Event)
    ensures Visible(sensors.global, m, events + [event])
      == Visible(sensors.global, m, events) + Shown(sensors, Took(m, event))
  {
    ShownIsSeen(sensors, m, event);
    assert (events + [event])[..|events|] == events;
  }

  lemma PartOfLast(sensors: Sensors, log: seq<Entry>, who: Option<nat>)
    requires log != []
    ensures var before, last := log[..|log| - 1], log[|log| - 1];
      var origin := if last.Took? then Some(last.m) else None;
      Part(Render(sensors, log), Origins(sensors, log), who) ==
        Part(Render(sensors, before), Origins(sensors, before), who)
        + if origin == who then Shown(sensors, last) else []
  {
    var before, last := log[..|log| - 1], log[|log| - 1];
    var origin := if last.Took? then Some(last.m) else None;
    if Shown(sensors, last) != [] {
      assert Shown(sensors, last) == [Shown(sensors, last)[0]];
      assert Origins(sensors, log) == Origins(sensors, before) + [origin];
      PartMore(Render(sensors, before), Origins(sensors, before), Shown(sensors, last)[0], origin, who);
    } else {
      assert Origins(sensors, log) == Origins(sensors, before) && Render(sensors, log) == Render(sensors, before);
    }
  }

  lemma {:induction false} PartOfModule(sensors: Sensors, log: seq<Entry>, m: nat)
    ensures Part(Render(sensors, log), Origins(sensors, log), Some(m)) == Visible(sensors.global, m, TakenIn(log, m))
  {
    if log != [] {
      var before, last := log[..|log| - 1], log[|log| - 1];
      PartOfModule(sensors, before, m);
      PartOfLast(sensors, log, Some(m));
      if last.Took? && last.m == m {
        VisibleMore(sensors, m, TakenIn(before, m), last.event);
      }
    }
  }

  lemma {:induction false} PartOfNone(sensors: Sensors, log: seq<Entry>)
    ensures Part(Render(sensors, log), Origins(sensors, log), None) == Completions(log)
  {
    if log != [] {
      PartOfNone(sensors, log[..|log| - 1]);
      PartOfLast(sensors, log, None);
    }
  }

  lemma {:induction false} OriginsKnown(sensors: Sensors, log: seq<Entry>, modules: nat)
    requires FromModules(log, modules)
    ensures forall p :: 0 <= p < |Origins(sensors, log)| && Origins(sensors, log)[p].Some? ==>
      Origins(sensors, log)[p].value < modules
  {
    if log != [] {
      OriginsKnown(sensors, log[..|log| - 1], modules);
    }
  }

  lemma MergesAll(sensors: Sensors, s: State)
    requires Inv(s)
    ensures Merges(sensors, s, Render(sensors, s.log))
  {
    Parts(s);
    var from := Origins(sensors, s.log);
    OriginsKnown(sensors, s.log, |s.sources|);
    PartOfNone(sensors, s.log);
    forall m: nat | m < |s.sources|
      ensures Part(Render(sensors, s.log), from, Some(m)) == Visible(sensors.global, m, s.sources[m].taken)
    {
      PartOfModule(sensors, s.log, m);
      assert SourceOk(s, m);
    }
    assert Interleaved(sensors, s, Render(sensors, s.log), from);
  }

  // What the caller has got so far is, of every module, exactly the events dequeued from
  // it, in order, with global handles and without those of unknown sensors, and besides
  // them only the completions, in order.
  lemma DeliversTaken(sensors: Sensors, modules: nat, steps: seq<Step>, s: State)
    requires Reachable(sensors, modules, steps, s)
    ensures Merges(sensors, s, Render(sensors, s.log))
  {
    ReachableInv(sensors, modules, steps, s);
    MergesAll(sensors, s);
  }

  // How many events of a one-shot sensor the caller got.
  function Shots(sensors: Sensors, log: seq<Entry>, handle: int): nat {
    if log == [] then 0 else
      Shots(sensors, log[..|log| - 1], handle) + Shot(sensors, log[|log| - 1], handle)
  }

  function Shot(sensors: Sensors, entry: Entry, handle: int): nat {
    if entry.Took? && handle in sensors.oneShot
      && exists seen :: seen in Seen(sensors.global, entry.m, entry.event) && seen.sensor == handle
    then 1 else 0
  }

  // From s to s' a sensor lost its activity exactly if it reports once and reported.  The
  // spare levels keep it folded; DisarmsMeans unfolds it.
  ghost predicate Disarms(sensors: Sensors, s: State, s': State, handle: int) {
    DisarmsAt(2, sensors, s, s', handle)
  }

  ghost predicate DisarmsAt(level: nat, sensors: Sensors, s: State, s': State, handle: int) {
    if level > 0 then DisarmsAt(level - 1, sensors, s, s', handle) else
      && Shots(sensors, s.log, handle) <= Shots(sensors, s'.log, handle)
      && (handle in s'.active <==>
        handle in s.active && Shots(sensors, s.log, handle) == Shots(sensors, s'.log, handle))
  }

  lemma DisarmsMeans(sensors: Sensors, s: State, s': State, handle: int)
    ensures Disarms(sensors, s, s', handle) <==>
      && Shots(sensors, s.log, handle) <= Shots(sensors, s'.log, handle)
      && (handle in s'.active <==>
        handle in s.active && Shots(sensors, s.log, handle) == Shots(sensors, s'.log, handle))
  {
    assert DisarmsAt(2, sensors, s, s', handle) == DisarmsAt(1, sensors, s, s', handle)
      == DisarmsAt(0, sensors, s, s', handle);
  }

  lemma DisarmsNone(sensors: Sensors, s: State, s': State, handle: int)
    requires s'.log == s.log && s'.active == s.active
    ensures Disarms(sensors, s, s', handle)
  {
    DisarmsMeans(sensors, s, s', handle);
  }

  lemma DisarmsOn(sensors: Sensors, a: State, b: State, c: State, handle: int)
    requires Disarms(sensors, a, b, handle) && Disarms(sensors, b, c, handle)
    ensures Disarms(sensors, a, c, handle)
  {
    DisarmsMeans(sensors, a, b, handle);
    DisarmsMeans(sensors, b, c, handle);
    DisarmsMeans(sensors, a, c, handle);
  }

  lemma CompleteDisarms(sensors: Sensors, s: State, i: nat, handle: int)
    requires i < |s.pending|
    ensures Disarms(sensors, s, Complete(s, i), handle)
  {
    DisarmsMeans(sensors, s, Complete(s, i), handle);
    assert Complete(s, i).log[..|s.log|] == s.log;
  }

  lemma {:induction false} EmitDisarms(sensors: Sensors, s: State, i: nat, room: nat, handle: int)
    requires i <= |s.pending|
    ensures Disarms(sensors, s, Emit(s, i, room).0, handle)
    decreases |s.pending| - i
  {
    DisarmsNone(sensors, s, s, handle);
    if i < |s.pending| && room > 0 {
      if Ready(s, s.pending[i]) {
        var t := Complete(s, i);
        CompleteDisarms(sensors, s, i, handle);
        EmitDisarms(sensors, t, i, room - 1, handle);
        DisarmsOn(sensors, s, t, Emit(t, i, room - 1).0, handle);
      } else {
        EmitDisarms(sensors, s, i + 1, room, handle);
      }
    }
  }

  lemma TookDisarms(sensors: Sensors, log: seq<Entry>, active: set<int>, m: nat, event: Event, handle: int)
    ensures var shown := Remap(sensors, m, event).sensor;
      var active' := if shown != -1 && shown in sensors.oneShot then active - {shown} else active;
      var log' := log + [Took(m, event)];
      && Shots(sensors, log, handle) <= Shots(sensors, log', handle)
      && (handle in active' <==> handle in active && Shots(sensors, log, handle) == Shots(sensors, log', handle))
  {
    ShotsMore(sensors, log, Took(m, event), handle);
    ShotIs(sensors, m, event, handle);
  }

  lemma LookDisarms(sensors: Sensors, s: State, handle: int)
    requires s.next < |s.sources| == |s.skipped|
    ensures Disarms(sensors, s, Look(sensors, s).0, handle)
  {
    var s' := Look(sensors, s).0;
    if Look(sensors, s).1 {
      TookDisarms(sensors, s.log, s.active, s.next, s.sources[s.next].ring[0], handle);
      DisarmsMeans(sensors, s, s', handle);
    } else {
      DisarmsNone(sensors, s, s', handle);
    }
  }

  lemma ShotsMore(sensors: Sensors, log: seq<Entry>, entry: Entry, handle: int)
    ensures Shots(sensors, log + [entry], handle) == Shots(sensors, log, handle) + Shot(sensors, entry, handle)
  {
    assert (log + [entry])[..|log|] == log;
  }

  lemma ShotIs(sensors: Sensors, m: nat, event: Event, handle: int)
    ensures var shown := Remap(sensors, m, event).sensor;
      Shot(sensors, Took(m, event), handle) == if shown == handle != -1 && handle in sensors.oneShot then 1 else 0
  {
    ShownIsSeen(sensors, m, event);
    var seen := Seen(sensors.global, m, event);
    if Remap(sensors, m, event).sensor != -1 {
      assert seen == [Remap(sensors, m, event)] && seen[0] in seen;
    } else {
      assert seen == [];
    }
  }

  lemma {:induction false} ScanDisarms(sensors: Sensors, s: State, empties: nat, room: nat, handle: int)
    requires s.next < |s.sources| == |s.skipped| && empties <= |s.sources|
    ensures Disarms(sensors, s, Scan(sensors, s, empties, room).0, handle)
    decreases RingTotal(s.sources), |s.sources| - empties
  {
    DisarmsNone(sensors, s, s, handle);
    EmitFrame(s, 0, room);
    EmitDisarms(sensors, s, 0, room, handle);
    var (s1, n1) := Emit(s, 0, room);
    if empties < |s.sources| && room > 0 && n1 < room {
      LookShrinks(sensors, s1);
      LookDisarms(sensors, s1, handle);
      var (s2, found) := Look(sensors, s1);
      var n2 := Delivered(sensors, s1, s2);
      var empties', room' := if found then 0 else empties + 1, if n2 <= room - n1 then room - n1 - n2 else 0;
      ScanDisarms(sensors, s2, empties', room', handle);
      DisarmsOn(sensors, s, s1, s2, handle);
      DisarmsOn(sensors, s, s2, Scan(sensors, s2, empties', room').0, handle);
    }
  }

  lemma StepDisarms(sensors: Sensors, s: State, step: Step, handle: int)
    requires Inv(s) && Enabled(s, step) && !(step.DoActivate? && step.handle == handle)
    ensures Disarms(sensors, s, Apply(sensors, s, step), handle)
  {
    if !step.DoPass? {
      DisarmsMeans(sensors, s, Apply(sensors, s, step), handle);
    } else {
      ScanDisarms(sensors, s, 0, step.room, handle);
      ScanKeeps(sensors, s, 0, step.room);
      var (s1, n1) := Scan(sensors, s, 0, step.room);
      EmitDisarms(sensors, s1, 0, step.room - n1, handle);
      DisarmsOn(sensors, s, s1, Emit(s1, 0, step.room - n1).0, handle);
    }
  }

  // Over any run in which the framework leaves a sensor alone, it stays as active as it
  // was, except that a one-shot sensor is inactive from its first delivered event on;
  // events that are dropped do not count.
  lemma OneShotDisarmed(sensors: Sensors, s: State, steps: seq<Step>, s': State, handle: int)
    requires Inv(s) && Exec(sensors, s, steps) == Some(s')
    requires forall i :: 0 <= i < |steps| && steps[i].DoActivate? ==> steps[i].handle != handle
    ensures Shots(sensors, s.log, handle) <= Shots(sensors, s'.log, handle)
    ensures handle in s'.active <==>
      handle in s.active && Shots(sensors, s.log, handle) == Shots(sensors, s'.log, handle)
  {
    RunDisarms(sensors, s, steps, s', handle);
    DisarmsMeans(sensors, s, s', handle);
  }

  lemma {:induction false} RunDisarms(sensors: Sensors, s: State, steps: seq<Step>, s': State, handle: int)
    requires Inv(s) && Exec(sensors, s, steps) == Some(s')
    requires forall i :: 0 <= i < |steps| && steps[i].DoActivate? ==> steps[i].handle != handle
    ensures Disarms(sensors, s, s', handle)
  {
    DisarmsNone(sensors, s, s, handle);
    if steps != [] {
      var before := Exec(sensors, s, steps[..|steps| - 1]).value;
      RunDisarms(sensors, s, steps[..|steps| - 1], before, handle);
      RunKeeps(sensors, s, steps[..|steps| - 1], before);
      StepDisarms(sensors, before, steps[|steps| - 1], handle);
      DisarmsOn(sensors, s, before, s', handle);
    }
  }

  // The framework's word on a sensor holds until its next or, for one that reports once,
  // until its next delivered event; it touches nothing else.
  lemma ActivateExact(sensors: Sensors, s: State, handle: int, enabled: bool, other: int)
    requires Enabled(s, DoActivate(handle, enabled))
    ensures var s' := Apply(sensors, s, DoActivate(handle, enabled));
      && (handle in s'.active <==> enabled) && (other != handle ==> (other in s'.active <==> other in s.active))
      && s' == s.(active := s'.active)
  {}

  // A stretch of history shows the caller n more events; AddsMeans unfolds it.
  ghost predicate Adds(sensors: Sensors, log: seq<Entry>, log': seq<Entry>, n: nat) {
    AddsAt(2, sensors, log, log', n)
  }

  ghost predicate AddsAt(level: nat, sensors: Sensors, log: seq<Entry>, log': seq<Entry>, n: nat) {
    if level > 0 then AddsAt(level - 1, sensors, log, log', n)
    else log <= log' && |Render(sensors, log')| == |Render(sensors, log)| + n
  }

  lemma AddsMeans(sensors: Sensors, log: seq<Entry>, log': seq<Entry>, n: nat)
    ensures Adds(sensors, log, log', n) <==> log <= log' && |Render(sensors, log')| == |Render(sensors, log)| + n
  {
    assert AddsAt(2, sensors, log, log', n) == AddsAt(1, sensors, log, log', n) == AddsAt(0, sensors, log, log', n);
  }

  lemma AddsMore(sensors: Sensors, a: seq<Entry>, b: seq<Entry>, c: seq<Entry>, m: nat, n: nat)
    requires Adds(sensors, a, b, m) && Adds(sensors, b, c, n)
    ensures Adds(sensors, a, c, m + n)
  {
    AddsMeans(sensors, a, b, m);
    AddsMeans(sensors, b, c, n);
    AddsMeans(sensors, a, c, m + n);
  }

  lemma AddsNone(sensors: Sensors, log: seq<Entry>)
    ensures Adds(sensors, log, log, 0)
  {
    AddsMeans(sensors, log, log, 0);
  }

  lemma CompleteRenders(sensors: Sensors, s: State, i: nat)
    requires i < |s.pending|
    ensures Adds(sensors, s.log, Complete(s, i).log, 1)
  {
    AddsMeans(sensors, s.log, Complete(s, i).log, 1);
    assert Complete(s, i).log[..|s.log|] == s.log;
  }

  lemma {:induction false} EmitRenders(sensors: Sensors, s: State, i: nat, room: nat)
    requires i <= |s.pending|
    ensures Adds(sensors, s.log, Emit(s, i, room).0.log, Emit(s, i, room).1)
    decreases |s.pending| - i
  {
    AddsNone(sensors, s.log);
    if i < |s.pending| && room > 0 {
      if Ready(s, s.pending[i]) {
        var after := Complete(s, i);
        CompleteRenders(sensors, s, i);
        EmitRenders(sensors, after, i, room - 1);
        AddsMore(sensors, s.log, after.log, Emit(after, i, room - 1).0.log, 1, Emit(after, i, room - 1).1);
      } else {
        EmitRenders(sensors, s, i + 1, room);
      }
    }
  }

  lemma LookRenders(sensors: Sensors, s: State)
    requires s.next < |s.sources| == |s.skipped|
    ensures var s' := Look(sensors, s).0; Adds(sensors, s.log, s'.log, Delivered(sensors, s, s'))
  {
    var s' := Look(sensors, s).0;
    AddsMeans(sensors, s.log, s'.log, Delivered(sensors, s, s'));
    if Look(sensors, s).1 {
      assert s'.log[..|s.log|] == s.log;
    }
  }

  lemma {:induction false} ScanRenders(sensors: Sensors, s: State, empties: nat, room: nat)
    requires Inv(s) && empties <= |s.sources|
    ensures Adds(sensors, s.log, Scan(sensors, s, empties, room).0.log, Scan(sensors, s, empties, room).1)
    decreases RingTotal(s.sources), |s.sources| - empties
  {
    AddsNone(sensors, s.log);
    if empties < |s.sources| && room > 0 {
      TurnKeeps(sensors, s, room);
      EmitRenders(sensors, s, 0, room);
      var (s1, n1) := Emit(s, 0, room);
      if n1 < room {
        LookShrinks(sensors, s1);
        LookRenders(sensors, s1);
        var (s2, found) := Look(sensors, s1);
        var n2 := Delivered(sensors, s1, s2);
        var empties' := if found then 0 else empties + 1;
        ScanRenders(sensors, s2, empties', room - n1 - n2);
        var (s3, n3) := Scan(sensors, s2, empties', room - n1 - n2);
        AddsMore(sensors, s.log, s1.log, s2.log, n1, n2);
        AddsMore(sensors, s.log, s2.log, s3.log, n1 + n2, n3);
      }
    }
  }

  lemma PassOf(sensors: Sensors, s: State, room: nat, s1: State, n1: nat, s2: State, n2: nat)
    requires s.next < |s.sources| == |s.skipped|
    requires Scan(sensors, s, 0, room) == (s1, n1) && n1 <= room && Emit(s1, 0, room - n1) == (s2, n2)
    ensures Pass(sensors, s, room) == (s2, n1 + n2)
  {}

  // A pass returns as many events as it adds to what the caller has seen, and at most
  // as many as asked for.
  lemma PassReturns(sensors: Sensors, s: State, room: nat)
    requires Inv(s)
    ensures var (t, n) := Pass(sensors, s, room);
      n <= room && |Render(sensors, t.log)| == |Render(sensors, s.log)| + n && s.log <= t.log
  {
    ScanKeeps(sensors, s, 0, room);
    ScanRenders(sensors, s, 0, room);
    var (s1, n1) := Scan(sensors, s, 0, room);
    var (s2, n2) := Emit(s1, 0, room - n1);
    PassOf(sensors, s, room, s1, n1, s2, n2);
    EmitRenders(sensors, s1, 0, room - n1);
    EmitFrame(s1, 0, room - n1);
    AddsMore(sensors, s.log, s1.log, s2.log, n1, n2);
    AddsMeans(sensors, s.log, s2.log, n1 + n2);
  }
}
