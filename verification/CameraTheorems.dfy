// What holds in every state a run of the camera adapter reaches.

module CameraTheorems {
  import opened Options
  import opened ResultMetadata
  import opened CameraModel
  import opened CameraProofs

  // A change of the request that touches neither order, streams nor frames.
  lemma FlowIdled(streams: Streams, frames: map<nat, nat>, all: seq<Frame>, r: Request, r': Request, fatal: bool)
    requires Flow(streams, frames, all, r, fatal) && (r.Idle? || r.Flushing? || r.Releasing?)
    requires r'.Idle? || r'.Flushing? || r'.ClosingVendor? || (r'.Closed? && Over(r))
      || (r'.Releasing? && r.Releasing? && r'.closing == r.closing)
    ensures Flow(streams, frames, all, r', fatal)
  {
    FlowParts(streams, frames, all, r, fatal);
    FlowParts(streams, frames, all, r', fatal);
  }

  lemma ResourcesIdled(device: Device, streams: Streams, r: Request, r': Request, fatal: bool, closing: bool,
      busy: bool, gralloc: Gralloc, device': Device)
    requires Resources(device, streams, r, fatal, closing, busy, gralloc) && (r.Idle? || r.Flushing?)
    requires r'.Idle? || r'.Flushing? || r'.ClosingVendor?
    requires device' == device || (!device.ready && device' == device.(ready := true))
    ensures Resources(device', streams, r', fatal, closing || r'.ClosingVendor?, busy, gralloc)
  {
    ResourcesParts(device, streams, r, fatal, closing, busy, gralloc);
    ResourcesParts(device', streams, r', fatal, closing || r'.ClosingVendor?, busy, gralloc);
    AliveParts(device, streams, r);
    AliveParts(device', streams, r');
  }

  lemma OrderFacts(s: State)
    requires FlowOf(s)
    ensures Quiet(s.request, s.frames, s.all)
    ensures Ordered(s.request) ==> |s.request.order.slots| > 0 && s.request.order.number !in s.frames
  {
    FlowParts(s.streams, s.frames, s.all, s.request, s.fatal);
  }

  lemma OnwardKeepsResources(s: State, s': State)
    requires ResourcesOf(s) && Onward(s.request, s'.request, !s.fatal)
    requires s'.device == s.device && s'.streams == s.streams && s'.closing == s.closing && s'.gralloc == s.gralloc
    requires s'.callback == s.callback && s'.fatal == s.fatal
    ensures ResourcesOf(s')
  {
    ResourcesOnward(s.device, s.streams, s.request, s'.request, s.fatal, s'.fatal, s.closing, !s.callback.Free?,
        s.gralloc);
  }

  lemma CaptureKeeps(s: State, number: nat, buffers: seq<(Client, Handle)>, settings: bool)
    requires Inv(s) && s.request.Idle?
    ensures Inv(Capture(s, number, buffers, settings))
  {
    InvParts(s);
    InvParts(Capture(s, number, buffers, settings));
    CaptureKeepsFlow(s, number, buffers, settings);
    OnwardKeepsResources(s, Capture(s, number, buffers, settings));
  }

  lemma EndDrainKeeps(s: State)
    requires Inv(s) && s.request.Draining?
    ensures Inv(EndDrain(s))
  {
    InvParts(s);
    InvParts(EndDrain(s));
    EndDrainKeepsFlow(s);
    OnwardKeepsResources(s, EndDrain(s));
  }

  lemma PinNextKeeps(s: State, registered: bool, memory: bool)
    requires Inv(s) && s.request.Registering? && s.request.i <= |s.request.order.slots|
    ensures Inv(PinNext(s, registered, memory))
  {
    InvParts(s);
    InvParts(PinNext(s, registered, memory));
    TurnKeepsFlow(s.streams, s.frames, s.all, s.request.order, s.request.i, s.fatal, s.gralloc, registered, memory);
    TurnKeepsResources(s.device, s.streams, s.request.order, s.request.i, s.fatal, s.closing, !s.callback.Free?,
        s.gralloc, registered, memory);
  }

  lemma EndLinkKeeps(s: State, ok: bool)
    requires Inv(s) && s.request.Linking? && s.request.i < |s.request.order.slots|
    requires s.request.order.slots[s.request.i].client in s.streams
    ensures Inv(EndLink(s, ok))
  {
    InvParts(s);
    InvParts(EndLink(s, ok));
    EndLinkKeepsFlow(s, ok);
    EndLinkKeepsResources(s, ok);
  }

  lemma BuildKeeps(s: State, normalized: bool)
    requires Inv(s) && s.request.Building?
    ensures Inv(Build(s, normalized))
  {
    InvParts(s);
    InvParts(Build(s, normalized));
    OrderFacts(s);
    AnswersParts(s.frames, s.all, s.callback, Over(s.request), s.fences);
    BuildKeepsAnswers(s, normalized);
    BuildKeepsFlow(s, normalized);
    OnwardKeepsResources(s, Build(s, normalized));
  }

  lemma EndSubmitKeeps(s: State, ok: bool)
    requires Inv(s) && s.request.Submitting? && s.request.frame < |s.all|
    ensures Inv(EndSubmit(s, ok))
  {
    InvParts(s);
    InvParts(EndSubmit(s, ok));
    OrderFacts(s);
    EndSubmitKeepsAnswers(s, ok);
    EndSubmitKeepsFlow(s, ok);
    OnwardKeepsResources(s, EndSubmit(s, ok));
  }

  lemma CaptureStepKeeps(s: State, step: CaptureStep)
    requires Inv(s) && CanCapture(s, step)
    ensures Inv(OnCapture(s, step))
  {
    match step
    case BeginCapture(number, buffers, settings) => CaptureKeeps(s, number, buffers, settings);
    case DrainEnds => EndDrainKeeps(s);
    case PinsNext(registered, memory) => PinNextKeeps(s, registered, memory);
    case LinkEnds(ok) => EndLinkKeeps(s, ok);
    case Builds(normalized) => BuildKeeps(s, normalized);
    case SubmitEnds(ok) => EndSubmitKeeps(s, ok);
  }

  lemma ConfigureKeeps(s: State, list: seq<Client>, attributes: map<Client, Attributes>)
    requires Inv(s) && s.request.Idle?
    ensures Inv(Configure(s, list, attributes))
  {
    InvParts(s);
    InvParts(Configure(s, list, attributes));
    ConfigureKeepsFlow(s, list, attributes);
    ConfigureKeepsResources(s, list, attributes);
  }

  lemma EndReopenKeeps(s: State, outcome: Reopened)
    requires Inv(s) && s.request.Reopening? && s.callback.Free?
    ensures Inv(EndReopen(s, outcome))
  {
    InvParts(s);
    InvParts(EndReopen(s, outcome));
    EndReopenKeepsFlow(s, outcome);
    EndReopenKeepsResources(s, outcome);
  }

  lemma EndConfigureKeeps(s: State, ok: bool)
    requires Inv(s) && s.request.Configuring?
    ensures Inv(EndConfigure(s, ok))
  {
    InvParts(s);
    InvParts(EndConfigure(s, ok));
    EndConfigureKeepsFlow(s, ok);
    EndConfigureKeepsResources(s, ok);
  }

  lemma SwapKeeps(s: State)
    requires Inv(s) && s.request.Swapping?
    ensures Inv(Swap(s))
  {
    InvParts(s);
    InvParts(Swap(s));
    SwapKeepsFlow(s);
    SwapKeepsResources(s);
  }

  lemma ReleaseKeeps(s: State, c: Client, h: Handle)
    requires Inv(s) && s.request.Releasing? && c in s.request.former && h in s.request.former[c].buffers
    ensures Inv(Release(s, c, h))
  {
    InvParts(s);
    InvParts(Release(s, c, h));
    FlowIdled(s.streams, s.frames, s.all, s.request, Release(s, c, h).request, s.fatal);
    ReleaseKeepsResources(s, c, h);
  }

  lemma ReleasedKeeps(s: State)
    requires Inv(s) && s.request.Releasing? && Empty(s.request.former)
    ensures Inv(s.(request := if s.request.closing then Closed else Idle))
  {
    InvParts(s);
    InvParts(s.(request := if s.request.closing then Closed else Idle));
    FlowIdled(s.streams, s.frames, s.all, s.request, if s.request.closing then Closed else Idle, s.fatal);
    ResourcesReleased(s.device, s.streams, s.request.former, s.request.closing, s.fatal, s.closing,
        !s.callback.Free?, s.gralloc);
  }

  lemma ConfigureStepKeeps(s: State, step: ConfigureStep)
    requires Inv(s) && CanConfigure(s, step)
    ensures Inv(OnConfigure(s, step))
  {
    match step
    case BeginConfigure(list, attributes) => ConfigureKeeps(s, list, attributes);
    case ReopenEnds(outcome) => EndReopenKeeps(s, outcome);
    case ConfigureEnds(ok) => EndConfigureKeeps(s, ok);
    case Swaps => SwapKeeps(s);
    case Releases(c, h) => ReleaseKeeps(s, c, h);
    case Released => ReleasedKeeps(s);
  }

  lemma EndCloseKeeps(s: State)
    requires Inv(s) && s.request.ClosingVendor? && s.callback.Free?
    ensures Inv(EndClose(s))
  {
    InvParts(s);
    InvParts(EndClose(s));
    EndCloseKeepsAnswers(s);
    EndCloseKeepsFlow(s);
    EndCloseKeepsResources(s);
  }

  lemma DeviceStepKeeps(s: State, step: DeviceStep)
    requires Inv(s) && CanRun(s, step)
    ensures Inv(OnDevice(s, step))
  {
    if step.CloseEnds? {
      EndCloseKeeps(s);
    } else {
      var s' := OnDevice(s, step);
      InvParts(s);
      InvParts(s');
      FlowIdled(s.streams, s.frames, s.all, s.request, s'.request, s.fatal);
      ResourcesIdled(s.device, s.streams, s.request, s'.request, s.fatal, s.closing, !s.callback.Free?, s.gralloc,
          s'.device);
    }
  }

  lemma ResultKeeps(s: State, number: nat, packet: Option<Packet>, ok: bool, returned: seq<Returned>)
    requires Inv(s) && s.device.vendor && s.device.ready && s.callback.Free?
    ensures Inv(Result(s, number, packet, ok, returned))
  {
    InvParts(s);
    InvParts(Result(s, number, packet, ok, returned));
    ResultKeepsAnswers(s, number, packet, ok, returned);
    ResultKeepsFlow(s, number, packet, ok, returned);
    ResourcesCalled(s, Result(s, number, packet, ok, returned));
  }

  lemma DeliverKeeps(s: State)
    requires Inv(s) && s.callback.Delivering? && s.callback.frame < |s.all|
    ensures Inv(Deliver(s))
  {
    InvParts(s);
    InvParts(Deliver(s));
    DeliverKeepsAnswers(s);
    DeliverKeepsFlow(s);
    ResourcesCalled(s, Deliver(s));
  }

  lemma NotifyKeeps(s: State, message: Message<nat>)
    requires Inv(s) && s.device.vendor && s.device.ready && s.callback.Free?
    ensures Inv(Notify(s, message))
  {
    InvParts(s);
    InvParts(Notify(s, message));
    NotifyKeepsAnswers(s, message);
    NotifyKeepsFlow(s, message);
    ResourcesCalled(s, Notify(s, message));
  }

  lemma ForwardKeeps(s: State)
    requires Inv(s) && s.callback.Forwarding?
    ensures Inv(Forward(s))
  {
    InvParts(s);
    InvParts(Forward(s));
    AnswersPassed(s, Forward(s));
    ResourcesCalled(s, Forward(s));
  }

  lemma RetireKeeps(s: State)
    requires Inv(s) && s.callback.Retiring?
    ensures Inv(Retire(s))
  {
    InvParts(s);
    InvParts(Retire(s));
    RetireKeepsAnswers(s);
    RetireKeepsFlow(s);
    ResourcesCalled(s, Retire(s));
  }

  lemma CallbackStepKeeps(s: State, step: CallbackStep)
    requires Inv(s) && CanCall(s, step)
    ensures Inv(OnCallback(s, step))
  {
    match step
    case GetsResult(number, packet, ok, returned) => ResultKeeps(s, number, packet, ok, returned);
    case Delivers => DeliverKeeps(s);
    case GetsNotice(message) => NotifyKeeps(s, message);
    case Forwards => ForwardKeeps(s);
    case Retires => RetireKeeps(s);
  }

  lemma StepKeeps(s: State, step: Step)
    requires Inv(s) && Enabled(s, step)
    ensures Inv(Apply(s, step))
  {
    match step
    case OfCapture(c) => CaptureStepKeeps(s, c);
    case OfConfigure(f) => ConfigureStepKeeps(s, f);
    case OfDevice(d) => DeviceStepKeeps(s, d);
    case OfCallback(b) => CallbackStepKeeps(s, b);
  }

  lemma {:induction false} RunKeeps(s: State, steps: seq<Step>, s': State)
    requires Inv(s) && Exec(s, steps) == Some(s')
    ensures Inv(s')
  {
    if steps != [] {
      var before := Exec(s, steps[..|steps| - 1]).value;
      RunKeeps(s, steps[..|steps| - 1], before);
      StepKeeps(before, steps[|steps| - 1]);
    }
  }

  lemma ReachableInv(s: State)
    requires Reachable(s)
    ensures Inv(s)
  {
    InitialInv();
    var steps :| Exec(Initial(), steps) == Some(s);
    RunKeeps(Initial(), steps, s);
  }

  lemma RunsNone(s: State)
    ensures Runs(s, s)
  {
    assert Exec(s, []) == Some(s);
  }

  lemma RunsOn(s: State, s': State, step: Step)
    requires Runs(s, s') && Enabled(s', step)
    ensures Runs(s, Apply(s', step))
  {
    var steps :| Exec(s, steps) == Some(s');
    assert (steps + [step])[..|steps|] == steps;
    assert Exec(s, steps + [step]) == Some(Apply(s', step));
  }

  lemma RunsJoin(a: State, b: State, c: State)
    requires Runs(a, b) && Runs(b, c)
    ensures Runs(a, c)
  {
    var steps :| Exec(b, steps) == Some(c);
    RunsJoinAt(a, b, steps, c);
  }

  lemma {:induction false} RunsJoinAt(a: State, b: State, steps: seq<Step>, c: State)
    requires Runs(a, b) && Exec(b, steps) == Some(c)
    ensures Runs(a, c)
  {
    if steps != [] {
      var before := Exec(b, steps[..|steps| - 1]).value;
      RunsJoinAt(a, b, steps[..|steps| - 1], before);
      RunsOn(a, before, steps[|steps| - 1]);
    }
  }

  // Buffers: every slot of an accepted request ---------------------------------------

  function Times(outputs: seq<Output>, k: nat): nat {
    if outputs == [] then 0 else Times(outputs[..|outputs| - 1], k) + if outputs[|outputs| - 1].slot == k then 1 else 0
  }

  function SlotSet(outputs: seq<Output>): set<nat> {
    if outputs == [] then {} else SlotSet(outputs[..|outputs| - 1]) + {outputs[|outputs| - 1].slot}
  }

  function ReturnedSet(returned: seq<bool>): set<nat> {
    if returned == [] then {} else
      ReturnedSet(returned[..|returned| - 1]) + if returned[|returned| - 1] then {|returned| - 1} else {}
  }

  lemma {:induction false} ReturnedSetSize(returned: seq<bool>)
    ensures forall k: nat :: k in ReturnedSet(returned) <==> k < |returned| && returned[k]
    ensures |ReturnedSet(returned)| + Missing(returned) == |returned|
  {
    if returned != [] {
      ReturnedSetSize(returned[..|returned| - 1]);
    }
  }

  lemma {:induction false} TimesOfDistinct(outputs: seq<Output>, k: nat)
    requires forall i, j :: 0 <= i < j < |outputs| ==> outputs[i].slot != outputs[j].slot
    ensures Times(outputs, k) == if k in SlotSet(outputs) then 1 else 0
    ensures forall x :: x in SlotSet(outputs) ==> exists i :: 0 <= i < |outputs| && outputs[i].slot == x
    ensures |SlotSet(outputs)| == |outputs|
  {
    if outputs != [] {
      TimesOfDistinct(outputs[..|outputs| - 1], k);
    }
  }

  // As many distinct returned slots as there are returned slots: each is there.
  lemma SplitTimes(f: Frame, outputs: seq<Output>, k: nat)
    requires Split(f, outputs) && k < |f.slots|
    ensures Times(outputs, k) == if f.returned[k] then 1 else 0
  {
    TimesOfDistinct(outputs, k);
    ReturnedSetSize(f.returned);
    assert SlotSet(outputs) <= ReturnedSet(f.returned);
    SameSize(SlotSet(outputs), ReturnedSet(f.returned));
  }

  lemma SameSize(a: set<nat>, b: set<nat>)
    requires a <= b && |a| == |b|
    ensures a == b
  {
    assert b == a + (b - a);
  }

  // What the client was given or is being given is each returned slot once and no other;
  // `remaining` counts the rest.
  lemma BuffersSplit(s: State, u: nat, k: nat)
    requires Reachable(s) && u < |s.all| && k < |s.all[u].slots|
    ensures var f := s.all[u];
      |f.returned| == |f.slots|
      && Times(f.delivered + Due(s.callback, u), k) == (if f.returned[k] then 1 else 0)
      && f.remaining == Missing(f.returned)
      && |f.delivered| + |Due(s.callback, u)| + f.remaining == |f.slots|
  {
    ReachableAnswers(s);
    BookedParts(s.all[u], s.callback, u);
    SplitTimes(s.all[u], s.all[u].delivered + Due(s.callback, u), k);
  }

  // A buffer given back for a slot.
  predicate GivesBack(f: Frame, o: Output, r: Returned) {
    && o.slot < |f.slots| && r.stream == f.slots[o.slot].legacy && r.handle == Some(f.slots[o.slot].handle)
    && o.status == r.status && o.fence == r.fence
  }

  // Each buffer given to the client is one the device returned for that slot's stream and
  // handle, with its status and fence.
  lemma {:induction false} OutputsComeFromDevice(f: Frame, buffers: seq<Returned>, i: nat)
    requires i < |Absorb(f, buffers).outputs|
    ensures exists j :: 0 <= j < |buffers| && GivesBack(f, Absorb(f, buffers).outputs[i], buffers[j])
  {
    var before, last := buffers[..|buffers| - 1], buffers[|buffers| - 1];
    var a := Absorb(f, before);
    AbsorbKeeps(f, before);
    if i < |a.outputs| {
      OutputsComeFromDevice(f, before, i);
      var j :| 0 <= j < |before| && GivesBack(f, a.outputs[i], before[j]);
      assert GivesBack(f, Absorb(f, buffers).outputs[i], buffers[j]);
    } else {
      var k := Fit(a.frame, last, 0);
      assert Matches(a.frame, k, last);
      assert GivesBack(f, Absorb(f, buffers).outputs[i], buffers[|buffers| - 1]);
    }
  }

  // A result naming a buffer no outstanding slot fits makes the adapter fatal, and only
  // such a result does; every other buffer is given back.
  lemma {:induction false} BadExactly(f: Frame, buffers: seq<Returned>)
    ensures var a := Absorb(f, buffers);
      (a.bad <==> |a.outputs| < |buffers|) && |a.outputs| <= |buffers|
  {
    if buffers != [] {
      BadExactly(f, buffers[..|buffers| - 1]);
    }
  }

  lemma ReachableAnswers(s: State)
    requires Reachable(s)
    ensures Ledger(s.all, s.callback) && Table(s.frames, s.all) && Settled(s.frames, s.all, s.callback)
    ensures Fate(s.frames, s.all, s.callback, Over(s.request)) && FencesOk(s.callback, s.fences)
  {
    ReachableInv(s);
    InvParts(s);
    AnswersParts(s.frames, s.all, s.callback, Over(s.request), s.fences);
  }

  lemma ReachableFlow(s: State)
    requires Reachable(s)
    ensures Live(s.streams, s.frames, s.all) && Quiet(s.request, s.frames, s.all) && OrderOk(s.streams, s.request)
    ensures Registered(s.streams, s.request, s.fatal)
  {
    ReachableInv(s);
    InvParts(s);
    FlowParts(s.streams, s.frames, s.all, s.request, s.fatal);
  }

  lemma ReachableResources(s: State)
    requires Reachable(s)
    ensures Balanced(s.gralloc, s.streams, s.request) && Attached(s.device, s.request, s.fatal, !s.callback.Free?)
    ensures Ending(s.device, s.request, s.closing, s.streams) && Alive(s.device, s.streams, s.request)
  {
    ReachableInv(s);
    InvParts(s);
    ResourcesParts(s.device, s.streams, s.request, s.fatal, s.closing, !s.callback.Free?, s.gralloc);
  }

  // A request that left the table without being refused was answered in full: every
  // buffer given back once, metadata and shutter done.
  lemma RetiredInFull(s: State, u: nat, k: nat)
    requires Reachable(s) && !Over(s.request) && u < |s.all| && k < |s.all[u].slots|
    requires !Tracked(s.frames, s.all, u) && !s.all[u].refused
    ensures Times(s.all[u].delivered, k) == 1
    ensures s.all[u].metadataDone && s.all[u].shutterDone
  {
    ReachableAnswers(s);
    var f := s.all[u];
    BookedParts(f, s.callback, u);
    assert f.remaining == 0 && Due(s.callback, u) == [];
    assert f.delivered + [] == f.delivered;
    SplitTimes(f, f.delivered, k);
    ReturnedSetSize(f.returned);
    if !f.returned[k] {
      assert k !in ReturnedSet(f.returned);
      SomeMissing(f.returned, k);
    }
  }

  lemma {:induction false} SomeMissing(returned: seq<bool>, k: nat)
    requires k < |returned| && !returned[k]
    ensures Missing(returned) > 0
  {
    if k < |returned| - 1 {
      SomeMissing(returned[..|returned| - 1], k);
    }
  }

  // No completed request is left behind once the callback that completed it is done.
  lemma NoneCompleteAtRest(s: State, n: nat)
    requires Reachable(s) && s.callback.Free? && n in s.frames
    ensures InFlight(s, n) && !Complete(s.all[s.frames[n]])
  {
    ReachableAnswers(s);
  }

  // Every fence the device handed over was forwarded, closed, or is with the callback
  // that took it.
  lemma FencesAccounted(s: State)
    requires Reachable(s)
    ensures s.fences.received ==
      s.fences.forwarded + s.fences.closed
        + if s.callback.Delivering? then OutputFences(s.callback.outputs) else multiset{}
  {
    ReachableAnswers(s);
  }

  // The client gets at most one final metadata or synthesized error a request, and the
  // metadata is the final packet laid under the partials that arrived.
  lemma AnsweredOnce(s: State, u: nat)
    requires Reachable(s) && u < |s.all|
    ensures |s.all[u].metadata| + s.all[u].errors <= 1
    ensures |s.all[u].metadata| == 1 ==>
      s.all[u].last.Some? && s.all[u].metadata[0] == Finish(s.all[u].last.value, Overlay(s.all[u].packets))
  {
    ReachableAnswers(s);
    BookedParts(s.all[u], s.callback, u);
    var all := s.all[u].metadata + DueMetadata(s.callback, u);
    assert |s.all[u].metadata| == 1 ==> all[0] == s.all[u].metadata[0];
  }

  // In flight ---------------------------------------------------------------------

  // Every slot in flight refers to a configured stream and to a buffer that is pinned and
  // registered for it.
  lemma InFlightBacked(s: State, n: nat, k: nat)
    requires Reachable(s) && n in s.frames
    ensures InFlight(s, n) && s.all[s.frames[n]].number == n
    ensures k < |s.all[s.frames[n]].slots| ==> Backed(s.streams, s.all[s.frames[n]].slots[k])
  {
    ReachableAnswers(s);
    ReachableFlow(s);
  }

  // From a successful drain until requestMutex is released, and while streams are
  // replaced, nothing is in flight; what a callback may still be delivering then belongs
  // to a request the device refused.
  lemma NothingInFlight(s: State)
    requires Reachable(s)
    requires s.request.Registering? || s.request.Linking? || Renewing(s.request)
    ensures s.frames == map[]
    ensures s.callback.Delivering? ==> s.callback.frame < |s.all| && s.all[s.callback.frame].refused
  {
    ReachableAnswers(s);
    ReachableFlow(s);
  }

  // The request holds on to what its drain found.
  ghost predicate Holds(s: State, steps: seq<Step>) {
    && Exec(s, steps).Some? && Owed(Exec(s, steps).value.request) > 0
    && (steps != [] ==> Holds(s, steps[..|steps| - 1]))
  }

  // After its drain a request builds its frame with nothing in flight, however the run
  // goes in between.
  lemma {:induction false} DrainHolds(s: State, steps: seq<Step>, s': State)
    requires Reachable(s) && s.request.Registering? && Holds(s, steps) && Exec(s, steps) == Some(s')
    ensures s'.frames == map[]
    ensures s'.callback.Delivering? ==> s'.callback.frame < |s'.all| && s'.all[s'.callback.frame].refused
  {
    if steps == [] {
      NothingInFlight(s);
    } else {
      var before := Exec(s, steps[..|steps| - 1]).value;
      DrainHolds(s, steps[..|steps| - 1], before);
      EmptyStays(before, steps[|steps| - 1]);
      assert Runs(s, s');
      ReachableOn(s, s');
      ReachableAnswers(s');
    }
  }

  lemma EmptyStays(s: State, step: Step)
    requires Enabled(s, step) && Owed(s.request) > 0 && Owed(Apply(s, step).request) > 0 && s.frames == map[]
    ensures Apply(s, step).frames == map[]
  {
    match step
    case OfCapture(c) => EmptyCapture(s, c);
    case OfConfigure(f) =>
    case OfDevice(d) =>
    case OfCallback(b) => EmptyCallback(s, b);
  }

  lemma EmptyCapture(s: State, step: CaptureStep)
    requires CanCapture(s, step) && Owed(s.request) > 0 && Owed(OnCapture(s, step).request) > 0
    ensures OnCapture(s, step).frames == s.frames
  {}

  lemma EmptyCallback(s: State, step: CallbackStep)
    requires CanCall(s, step) && s.frames == map[]
    ensures OnCallback(s, step).frames == map[]
  {}

  // flush() returns 0 exactly when nothing is in flight and the adapter is well; then every
  // request ever accepted was refused by the device or answered in full.
  lemma FlushExact(s: State, code: int, u: nat, k: nat)
    requires Reachable(s) && CanRun(s, FlushEnds(code))
    ensures code == 0 <==> s.frames == map[] && !s.fatal
    ensures code == 0 && u < |s.all| && !s.all[u].refused ==> s.all[u].metadataDone && s.all[u].shutterDone
    ensures code == 0 && u < |s.all| && !s.all[u].refused && k < |s.all[u].slots| ==> Times(s.all[u].delivered, k) == 1
  {
    if code == 0 && u < |s.all| && !s.all[u].refused {
      ReachableAnswers(s);
      if k < |s.all[u].slots| {
        RetiredInFull(s, u, k);
      }
    }
  }

  // What is sent to the device is in the set last registered for its stream, and every
  // stream is registered up to date.
  lemma SentRegistered(s: State, k: nat)
    requires Reachable(s) && s.request.Building? && k < |s.request.order.slots|
    ensures Backed(s.streams, s.request.order.slots[k])
    ensures forall c :: c in s.streams ==> Synced(s.streams[c])
    ensures s.request.order.number !in s.frames
  {
    ReachableFlow(s);
    OrderBacked(s.streams, s.request.order, s.fatal, k);
  }

  // Pinned and registered sets part only for good: the adapter is then fatal.
  lemma RegisteredUnlessFatal(s: State, c: Client)
    requires Reachable(s) && c in s.streams && s.request.Idle?
    ensures Synced(s.streams[c]) || s.fatal
  {
    ReachableFlow(s);
  }

  // Resources ---------------------------------------------------------------------

  lemma GrallocBalanced(s: State)
    requires Reachable(s)
    ensures s.gralloc.registrations - s.gralloc.unregistrations == |Pins(s.streams)| + |Pins(Former(s.request))|
    ensures s.request.Closed? ==> s.gralloc.registrations == s.gralloc.unregistrations
  {
    ReachableResources(s);
    EmptyPins(map[]);
  }

  // The device never holds the address of a stream that was freed, also after a rejected
  // configuration.
  lemma HeldAlive(s: State, a: nat)
    requires Reachable(s) && a in s.device.held
    ensures a in Addresses(s.streams) || a in s.device.failed || (Renewing(s.request) && a in Addresses(s.request.next))
    ensures a !in Addresses(Former(s.request))
  {
    ReachableResources(s);
    AliveParts(s.device, s.streams, s.request);
  }

  // The device is open wherever a request calls it, and gone only when the adapter is
  // fatal or closing.
  lemma DevicePresent(s: State)
    requires Reachable(s)
    ensures Ordered(s.request) || s.request.Configuring? || s.request.Submitting? ==> s.device.vendor
    ensures !s.device.vendor ==> (s.fatal || s.closing) && s.callback.Free?
  {
    ReachableResources(s);
  }

  // The stream an error names is translated to the client's stream with that address.
  lemma ErrorStreamExact(s: State, legacy: nat, c: Client)
    requires Reachable(s)
    ensures ClientOf(s.streams, legacy) == Some(c) <==> c in s.streams && s.streams[c].legacy == legacy
  {
    ReachableResources(s);
    AliveParts(s.device, s.streams, s.request);
  }

  // Progress ------------------------------------------------------------------------

  predicate AtRest(r: Request) {
    r.Idle? || r.Closed?
  }

  // How many steps the holder of requestMutex has before it at most.
  function Work(streams: Streams, r: Request): nat {
    match r
    case Idle => 0
    case Reopening(_) => 4 + |Pins(streams)|
    case Configuring(_) => 3 + |Pins(streams)|
    case Swapping(_) => 2 + |Pins(streams)|
    case Releasing(former, _) => 1 + |Pins(former)|
    case Draining(order) => 4 + 2 * |order.slots|
    case Registering(order, i) => if i <= |order.slots| then 3 + 2 * (|order.slots| - i) else 0
    case Linking(order, i) => if i <= |order.slots| then 2 + 2 * (|order.slots| - i) else 0
    case Building(_) => 2
    case Submitting(_) => 1
    case Flushing => 1
    case ClosingVendor => 2 + |Pins(streams)|
    case Closed => 0
  }

  // A held requestMutex always has a next step, except that restarting and closing the
  // device wait for the callback; a held callbackMutex always has one.
  lemma PhasesGoOn(s: State, ok: bool) returns (step: Step)
    requires Reachable(s) && !(AtRest(s.request) && s.callback.Free?)
    ensures Enabled(s, step)
    ensures s.callback.Free? <==> !step.OfCallback?
  {
    ReachableFlow(s);
    ReachableAnswers(s);
    match s.callback
    case Delivering(_, _, _, _) => step := OfCallback(Delivers);
    case Forwarding(_, _) => step := OfCallback(Forwards);
    case Retiring(_) => step := OfCallback(Retires);
    case Free => step := RequestStep(s, ok);
  }

  lemma Inhabited(s: set<int>)
    requires s != {}
    ensures exists x :: x in s
  {
    assert (forall x :: x !in s) ==> s == {};
  }

  lemma RequestStep(s: State, ok: bool) returns (step: Step)
    requires !AtRest(s.request) && s.callback.Free? && OrderOk(s.streams, s.request)
    requires s.request.Submitting? ==> s.request.frame < |s.all|
    ensures Enabled(s, step) && !step.OfCallback?
  {
    match s.request
    case Reopening(_) => step := OfConfigure(ReopenEnds(if ok then Reopened.Ready else NotOpened));
    case Configuring(_) => step := OfConfigure(ConfigureEnds(ok));
    case Swapping(_) => step := OfConfigure(Swaps);
    case Releasing(former, _) =>
      step := OfConfigure(Released);
      if c :| c in former && former[c].buffers != {} {
        Inhabited(former[c].buffers);
        var h :| h in former[c].buffers;
        step := OfConfigure(Releases(c, h));
      }
    case Draining(_) => step := OfCapture(DrainEnds);
    case Registering(_, _) => step := OfCapture(PinsNext(ok, ok));
    case Linking(order, i) =>
      assert Known(s.streams, order.slots[i]);
      step := OfCapture(LinkEnds(ok));
    case Building(_) => step := OfCapture(Builds(ok));
    case Submitting(_) => step := OfCapture(SubmitEnds(ok));
    case Flushing => step := OfDevice(FlushEnds(DrainCode(s)));
    case ClosingVendor => step := OfDevice(CloseEnds);
  }

  lemma ConfigureWork(s: State, step: ConfigureStep)
    requires CanConfigure(s, step) && !s.request.Idle?
    ensures Work(OnConfigure(s, step).streams, OnConfigure(s, step).request) < Work(s.streams, s.request)
  {
    match step
    case Releases(c, h) =>
      var stream := s.request.former[c];
      PinDropped(s.request.former, c, h, stream.(buffers := stream.buffers - {h}));
    case ReopenEnds(outcome) =>
      assert EndReopen(s, outcome).streams == s.streams;
    case _ =>
  }

  lemma CaptureWork(s: State, step: CaptureStep)
    requires CanCapture(s, step) && !s.request.Idle?
    ensures Work(OnCapture(s, step).streams, OnCapture(s, step).request) < Work(s.streams, s.request)
  {
    match step
    case DrainEnds =>
    case PinsNext(_, _) =>
    case LinkEnds(_) =>
    case Builds(_) =>
    case SubmitEnds(_) =>
  }

  // Every step of a request brings its end nearer and no callback puts it off: after at
  // most `Work` steps of its own the mutex is free, whatever the device answers.
  lemma WorkFalls(s: State, step: Step)
    requires Enabled(s, step)
    ensures step.OfCallback? ==> Work(Apply(s, step).streams, Apply(s, step).request) == Work(s.streams, s.request)
    ensures !step.OfCallback? && !AtRest(s.request) ==>
      Work(Apply(s, step).streams, Apply(s, step).request) < Work(s.streams, s.request)
  {
    match step
    case OfCapture(c) => if !s.request.Idle? { CaptureWork(s, c); }
    case OfConfigure(f) => if !s.request.Idle? { ConfigureWork(s, f); }
    case OfDevice(d) =>
    case OfCallback(b) => CallbackFrame(s, b);
  }

  // Runs --------------------------------------------------------------------------

  ghost predicate TemplatesKept(s: State, s': State) {
    forall kind :: kind in s.templates ==> kind in s'.templates && s'.templates[kind] == s.templates[kind]
  }

  lemma CaptureFrame(s: State, step: CaptureStep)
    requires CanCapture(s, step)
    ensures OnCapture(s, step).templates == s.templates
    ensures s.fatal ==> Bounded(s, OnCapture(s, step))
  {
    match step
    case BeginCapture(_, _, _) =>
    case DrainEnds =>
    case PinsNext(_, _) =>
    case LinkEnds(ok) => assert EndLink(s, ok).templates == s.templates;
    case Builds(_) =>
    case SubmitEnds(ok) => assert EndSubmit(s, ok).templates == s.templates;
  }

  lemma BeginConfigureFrame(s: State, list: seq<Client>, attributes: map<Client, Attributes>)
    requires s.request.Idle?
    ensures Configure(s, list, attributes).templates == s.templates && Configure(s, list, attributes).all == s.all
    ensures s.fatal ==> Configure(s, list, attributes) == s
  {}

  lemma EndReopenFrame(s: State, outcome: Reopened)
    requires s.request.Reopening?
    ensures var s' := EndReopen(s, outcome);
      s'.templates == s.templates && s'.all == s.all && (s.fatal ==> Bounded(s, s'))
  {}

  lemma EndConfigureFrame(s: State, ok: bool)
    requires s.request.Configuring?
    ensures var s' := EndConfigure(s, ok);
      s'.templates == s.templates && s'.all == s.all && (s.fatal ==> Bounded(s, s'))
  {}

  lemma ConfigureFrame(s: State, step: ConfigureStep)
    requires CanConfigure(s, step)
    ensures OnConfigure(s, step).templates == s.templates && OnConfigure(s, step).all == s.all
    ensures s.fatal ==> Bounded(s, OnConfigure(s, step))
  {
    match step
    case BeginConfigure(list, attributes) => BeginConfigureFrame(s, list, attributes);
    case ReopenEnds(outcome) => EndReopenFrame(s, outcome);
    case ConfigureEnds(ok) => EndConfigureFrame(s, ok);
    case Swaps =>
    case Releases(_, _) =>
    case Released =>
  }

  lemma DeviceFrame(s: State, step: DeviceStep)
    requires CanRun(s, step)
    ensures TemplatesKept(s, OnDevice(s, step)) && OnDevice(s, step).all == s.all
    ensures s.fatal ==> Bounded(s, OnDevice(s, step))
  {}

  lemma CallbackFrame(s: State, step: CallbackStep)
    requires CanCall(s, step)
    ensures OnCallback(s, step).templates == s.templates && |OnCallback(s, step).all| == |s.all|
    ensures OnCallback(s, step).request == s.request && OnCallback(s, step).streams == s.streams
    ensures s.fatal ==> Bounded(s, OnCallback(s, step))
  {
    match step
    case GetsResult(number, packet, ok, returned) => ResultFrame(s, number, packet, ok, returned);
    case Delivers =>
    case GetsNotice(_) =>
    case Forwards =>
    case Retires =>
  }

  lemma ResultFrame(s: State, number: nat, packet: Option<Packet>, ok: bool, returned: seq<Returned>)
    ensures var s' := Result(s, number, packet, ok, returned);
      s'.templates == s.templates && |s'.all| == |s.all| && s'.request == s.request && s'.streams == s.streams
      && (s.fatal ==> s'.fatal)
  {}

  lemma StepTemplates(s: State, step: Step)
    requires Enabled(s, step)
    ensures TemplatesKept(s, Apply(s, step))
  {
    match step
    case OfCapture(c) => CaptureFrame(s, c);
    case OfConfigure(f) => ConfigureFrame(s, f);
    case OfDevice(d) => DeviceFrame(s, d);
    case OfCallback(b) => CallbackFrame(s, b);
  }

  // Template pointers stay what they were, across restarts of the device too.
  lemma {:induction false} TemplatesStable(s: State, steps: seq<Step>, s': State)
    requires Exec(s, steps) == Some(s')
    ensures TemplatesKept(s, s')
  {
    if steps != [] {
      var before := Exec(s, steps[..|steps| - 1]).value;
      TemplatesStable(s, steps[..|steps| - 1], before);
      StepTemplates(before, steps[|steps| - 1]);
    }
  }

  // A request past its last look at `fatal`.
  function Owed(r: Request): nat {
    if r.Registering? || r.Linking? || r.Building? then 1 else 0
  }

  // A fatal adapter stays so; all it still accepts is the request it is working on.
  ghost predicate Bounded(s: State, s': State) {
    s'.fatal && |s.all| <= |s'.all| && |s'.all| + Owed(s'.request) <= |s.all| + Owed(s.request)
  }

  lemma StepFatal(s: State, step: Step)
    requires Enabled(s, step) && s.fatal
    ensures Bounded(s, Apply(s, step))
  {
    match step
    case OfCapture(c) => CaptureFrame(s, c);
    case OfConfigure(f) => ConfigureFrame(s, f);
    case OfDevice(d) => DeviceFrame(s, d);
    case OfCallback(b) => CallbackFrame(s, b);
  }

  // Once fatal, the adapter accepts no request but the one that is past the test of
  // `fatal` and the drain, if there is one.
  lemma {:induction false} FatalIsFinal(s: State, steps: seq<Step>, s': State)
    requires Exec(s, steps) == Some(s') && s.fatal
    ensures s'.fatal && |s.all| <= |s'.all| <= |s.all| + Owed(s.request)
    ensures Owed(s'.request) > 0 ==> |s'.all| < |s.all| + Owed(s.request)
  {
    if steps != [] {
      var before := Exec(s, steps[..|steps| - 1]).value;
      FatalIsFinal(s, steps[..|steps| - 1], before);
      StepFatal(before, steps[|steps| - 1]);
    }
  }

  lemma ReachableOn(s: State, s': State)
    requires Reachable(s) && Runs(s, s')
    ensures Reachable(s')
  {
    RunsJoin(Initial(), s, s');
  }

  // And that request is accepted if gralloc, the allocator and the device agree, unless it
  // asks for settings that never were: the bound is exact.
  lemma {:induction false} OwedIsPaid(s: State) returns (s': State)
    requires Reachable(s) && Owed(s.request) > 0 && (s.request.order.settings || s.primed)
    ensures Runs(s, s') && |s'.all| == |s.all| + 1
    decreases Work(s.streams, s.request)
  {
    RunsNone(s);
    if s.request.Building? {
      RunsOn(s, s, OfCapture(Builds(true)));
      s' := Build(s, true);
    } else {
      ReachableFlow(s);
      var step := if s.request.Registering? then PinsNext(true, true) else LinkEnds(true);
      assert s.request.Linking? ==> Known(s.streams, s.request.order.slots[s.request.i]);
      assert s.request.Registering? && s.request.i < |s.request.order.slots| ==>
        Known(s.streams, s.request.order.slots[s.request.i]);
      RunsOn(s, s, OfCapture(step));
      var t := OnCapture(s, step);
      GoesOn(s, step);
      CaptureWork(s, step);
      ReachableOn(s, t);
      s' := OwedIsPaid(t);
      RunsJoin(s, t, s');
    }
  }

  lemma GoesOn(s: State, step: CaptureStep)
    requires CanCapture(s, step) && (step == PinsNext(true, true) || step == LinkEnds(true))
    requires step.PinsNext? && s.request.i < |s.request.order.slots| ==>
      Known(s.streams, s.request.order.slots[s.request.i])
    ensures var t := OnCapture(s, step);
      Owed(t.request) > 0 && t.request.order == s.request.order && t.primed == s.primed && t.all == s.all
  {}

  // A delivery that outlasts its request --------------------------------------------

  lemma Then(steps: seq<Step>, s: State, step: Step) returns (longer: seq<Step>)
    requires Exec(Initial(), steps) == Some(s) && Enabled(s, step)
    ensures Exec(Initial(), longer) == Some(Apply(s, step))
  {
    longer := steps + [step];
    assert longer[..|steps|] == steps;
  }

  ghost predicate Ready(s: State) {
    && s.device.ready && s.device.vendor && !s.fatal && !s.closing
    && s.frames == map[] && 1 in s.streams
  }

  lemma ConfiguredRun() returns (steps: seq<Step>, s: State)
    ensures Exec(Initial(), steps) == Some(s)
    ensures Ready(s) && s.request.Idle? && s.callback.Free? && s.streams == map[1 := Stream(0, {}, {})] && s.all == []
  {
    var attributes := map[1 := Attributes(true, 640, 480, Blob, false)];
    s, steps := Initial(), [];
    steps := Then(steps, s, OfDevice(Initialize(true)));
    s := OnDevice(s, Initialize(true));
    assert Fresh([1], 0) == map[1 := Stream(0, {}, {})] by {
      assert [1][..0] == [];
    }
    steps := Then(steps, s, OfConfigure(BeginConfigure([1], attributes)));
    s := Configure(s, [1], attributes);
    steps := Then(steps, s, OfConfigure(ConfigureEnds(true)));
    s := EndConfigure(s, true);
    steps := Then(steps, s, OfConfigure(Swaps));
    s := Swap(s);
    steps := Then(steps, s, OfConfigure(Released));
    s := s.(request := Idle);
  }

  // A request with a new buffer waits for the drain.
  lemma CaptureDrains(s: State, number: nat, h: Handle)
    requires Ready(s) && s.request.Idle? && h != 0 && h !in s.streams[1].buffers
    ensures Capture(s, number, [(1, h)], true)
      == s.(request := Draining(Order(number, [Slot(1, s.streams[1].legacy, h)], true)))
  {
    assert Slots(s.streams, [(1, h)]) == [Slot(1, s.streams[1].legacy, h)];
    assert !Pinned(s.streams, Slots(s.streams, [(1, h)])[0]);
  }

  lemma LinkingRun(steps: seq<Step>, s: State, number: nat, h: Handle) returns (longer: seq<Step>, s': State)
    requires Exec(Initial(), steps) == Some(s) && Ready(s) && s.request.Idle? && h != 0 && h !in s.streams[1].buffers
    ensures Exec(Initial(), longer) == Some(s')
    ensures var stream := s.streams[1];
      && s'.request == Linking(Order(number, [Slot(1, stream.legacy, h)], true), 0)
      && s'.streams == s.streams[1 := stream.(buffers := stream.buffers + {h})]
      && s' == s.(request := s'.request, streams := s'.streams, gralloc := s'.gralloc)
  {
    CaptureDrains(s, number, h);
    longer := Then(steps, s, OfCapture(BeginCapture(number, [(1, h)], true)));
    s' := Capture(s, number, [(1, h)], true);
    longer := Then(longer, s', OfCapture(DrainEnds));
    s' := EndDrain(s');
    longer := Then(longer, s', OfCapture(PinsNext(true, true)));
    s' := PinNext(s', true, true);
  }

  lemma AcceptedRun() returns (steps: seq<Step>, s: State)
    ensures Exec(Initial(), steps) == Some(s)
    ensures s.device.ready && s.device.vendor && !s.fatal && !s.closing && s.callback.Free?
    ensures 1 in s.streams && s.streams[1] == Stream(0, {5}, {5})
    ensures s.request == Submitting(0) && s.frames == map[7 := 0]
    ensures s.all == [NewFrame(Order(7, [Slot(1, 0, 5)], true))]
  {
    steps, s := ConfiguredRun();
    steps, s := LinkingRun(steps, s, 7, 5);
    assert s.streams[1] == Stream(0, {5}, {});
    steps := Then(steps, s, OfCapture(LinkEnds(true)));
    s := EndLink(s, true);
    steps := Then(steps, s, OfCapture(PinsNext(true, true)));
    s := PinNext(s, true, true);
    steps := Then(steps, s, OfCapture(Builds(true)));
    s := Build(s, true);
  }

  lemma RefusedRun() returns (steps: seq<Step>, s: State)
    ensures Exec(Initial(), steps) == Some(s)
    ensures Ready(s) && s.streams[1] == Stream(0, {5}, {5})
    ensures s.request.Idle? && s.callback == Delivering(0, [Output(0, 0, 3)], None, false)
  {
    steps, s := AcceptedRun();
    var returned, f := [Returned(0, Some(5), 0, 3)], s.all[0];
    steps := Then(steps, s, OfCallback(GetsResult(7, None, true, returned)));
    assert returned[..0] == [];
    assert Absorb(f, returned) == AbsorbOne(Absorb(f, []), returned[0]);
    assert Matches(f, 0, returned[0]) && Fit(f, returned[0], 0) == 0;
    s := Result(s, 7, None, true, returned);
    steps := Then(steps, s, OfCapture(SubmitEnds(false)));
    s := EndSubmit(s, false);
  }

  // The buffers of a request the device refuses may still be with the client while the
  // next request registers buffers: NothingInFlight's exception is real.
  lemma RefusedOutlivesDrain() returns (steps: seq<Step>, s: State)
    ensures Exec(Initial(), steps) == Some(s)
    ensures s.request.Linking? && s.callback.Delivering? && |s.callback.outputs| == 1
  {
    steps, s := RefusedRun();
    steps, s := LinkingRun(steps, s, 8, 6);
  }

  // A device error between the test of `fatal` and the submission: the request goes out.
  lemma FatalAcceptsOne() returns (steps: seq<Step>, s: State, s': State)
    ensures Exec(Initial(), steps) == Some(s) && s.fatal
    ensures Runs(s, s') && |s'.all| == |s.all| + 1
  {
    steps, s := ConfiguredRun();
    steps, s := LinkingRun(steps, s, 7, 5);
    steps := Then(steps, s, OfCallback(GetsNotice(Error(0, None, DeviceError))));
    s := Notify(s, Error(0, None, DeviceError));
    s' := OwedIsPaid(s);
  }

  // From any idle adapter with an empty table the next registration can begin while the
  // callback is still at work, and it then meets a delivery exactly when that is for a
  // request the device refused.
  lemma RegistrationMeets(s: State, number: nat, c: Client, h: Handle) returns (s': State)
    requires Reachable(s) && Open(s) && s.request.Idle? && s.frames == map[]
    requires c in s.streams && h != 0 && h !in s.streams[c].buffers
    ensures Runs(s, s') && s'.request.Linking? && s'.callback == s.callback
    ensures s'.callback.Delivering? <==>
      s.callback.Delivering? && s.callback.frame < |s.all| && s.all[s.callback.frame].refused
  {
    ReachableAnswers(s);
    var order := Order(number, [Slot(c, s.streams[c].legacy, h)], true);
    assert Slots(s.streams, [(c, h)]) == order.slots && !Pinned(s.streams, order.slots[0]);
    RunsNone(s);
    RunsOn(s, s, OfCapture(BeginCapture(number, [(c, h)], true)));
    s' := s.(request := Draining(order));
    assert Capture(s, number, [(c, h)], true) == s';
    RunsOn(s, s', OfCapture(DrainEnds));
    s' := EndDrain(s');
    RunsOn(s, s', OfCapture(PinsNext(true, true)));
    s' := PinNext(s', true, true);
  }

  // One more stream asks for a restart of the device exactly when it is for processed
  // images, not for an encoder, and of a size no other such stream has.
  lemma GeometryIgnores(clients: set<Client>, attributes: map<Client, Attributes>, c: Client)
    ensures Geometry(clients + {c}, attributes) == Geometry(clients, attributes) <==>
      var a := Look(attributes, c);
      || a.encoder || !Processed(a.format)
      || exists d :: d in clients && Processed(Look(attributes, d).format) && !Look(attributes, d).encoder
           && (Look(attributes, d).width, Look(attributes, d).height) == (a.width, a.height)
  {
    var a := Look(attributes, c);
    if !a.encoder && Processed(a.format) {
      assert (a.width, a.height) in Geometry(clients + {c}, attributes);
    }
  }
}
