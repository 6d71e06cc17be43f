// camera/Camera3Wrapper.cpp: the adapter object.  A method is what one thread does up to
// the point where it gives up stateMutex or calls out; `all` is the heap of frame
// objects that the shared pointers in `frames` point into.

module Camera3Wrapper {
  import opened Options
  import opened ResultMetadata
  import opened CameraModel
  import opened CameraProofs
  import opened CameraTheorems

  // The inner search of result(): the first outstanding slot that fits.
  method FindSlot(f: Frame, r: Returned) returns (n: nat)
    ensures n <= |f.slots| && n == Fit(f, r, 0)
    ensures n < |f.slots| <==> exists k: nat :: Matches(f, k, r)
  {
    n := 0;
    while n < |f.slots| && !Matches(f, n, r)
      invariant n <= |f.slots| && forall j: nat :: j < n ==> !Matches(f, j, r)
    {
      n := n + 1;
    }
  }

  lemma AbsorbMore(f: Frame, buffers: seq<Returned>, i: nat)
    requires i < |buffers|
    ensures Absorb(f, buffers[..i + 1]) == AbsorbOne(Absorb(f, buffers[..i]), buffers[i])
  {
    assert buffers[..i + 1][..i] == buffers[..i];
  }

  // The buffer loop of result().
  method TakeBuffers(f: Frame, buffers: seq<Returned>) returns (a: Absorbed)
    ensures a == Absorb(f, buffers)
  {
    a := Absorbed(f, [], multiset{}, false);
    var i := 0;
    while i < |buffers|
      invariant i <= |buffers| && a == Absorb(f, buffers[..i])
    {
      AbsorbMore(f, buffers, i);
      var n := FindSlot(a.frame, buffers[i]);
      if n == |a.frame.slots| {
        a := a.(closed := a.closed + Fence(buffers[i].fence), bad := true);
      } else {
        a := a.(frame := a.frame.(returned := a.frame.returned[n := true], remaining := a.frame.remaining - 1),
                outputs := a.outputs + [Output(n, buffers[i].status, buffers[i].fence)]);
      }
      i := i + 1;
    }
    assert buffers[..i] == buffers;
  }

  // The validation loop of capture(): whether the request is usable, its slots, and
  // whether one of its buffers is new.
  method CheckBuffers(streams: Streams, buffers: seq<(Client, Handle)>) returns (ok: bool, slots: seq<Slot>,
      fresh': bool)
    ensures ok <==> |buffers| == 0 || Usable(streams, buffers)
    ensures ok ==> (forall i :: 0 <= i < |buffers| ==> buffers[i].0 in streams) && slots == Slots(streams, buffers)
    ensures ok ==> (fresh' <==> exists i :: 0 <= i < |slots| && !Pinned(streams, slots[i]))
  {
    slots, fresh' := [], false;
    var i := 0;
    while i < |buffers|
      invariant i <= |buffers| == |buffers| && |slots| == i
      invariant forall j :: 0 <= j < i ==> buffers[j].0 in streams && buffers[j].1 != 0
      invariant forall j, k :: 0 <= j < k < i ==> buffers[j].0 != buffers[k].0
      invariant forall j :: 0 <= j < i ==> slots[j] == Slot(buffers[j].0, streams[buffers[j].0].legacy, buffers[j].1)
      invariant fresh' <==> exists j :: 0 <= j < i && !Pinned(streams, slots[j])
    {
      var (c, h) := buffers[i];
      if c !in streams || h == 0 || exists j :: 0 <= j < |slots| && slots[j].client == c {
        return false, [], false;
      }
      slots := slots + [Slot(c, streams[c].legacy, h)];
      if h !in streams[c].buffers {
        fresh' := true;
      }
      i := i + 1;
    }
    return true, slots, fresh';
  }

  lemma {:induction false} CountsGrow(list: seq<Client>, attributes: map<Client, Attributes>, i: nat)
    requires i <= |list|
    ensures ProcessedCount(list[..i], attributes) <= ProcessedCount(list, attributes)
    ensures JpegCount(list[..i], attributes) <= JpegCount(list, attributes)
    decreases |list|
  {
    if i < |list| {
      CountsGrow(list[..|list| - 1], attributes, i);
      assert list[..|list| - 1][..i] == list[..i];
    } else {
      assert list[..i] == list;
    }
  }

  // One more place of a list.
  lemma ListStep(list: seq<Client>, attributes: map<Client, Attributes>, serial: nat, i: nat)
    requires i < |list|
    ensures var format := Look(attributes, list[i]).format;
      && ProcessedCount(list[..i + 1], attributes)
        == ProcessedCount(list[..i], attributes) + (if Processed(format) then 1 else 0)
      && JpegCount(list[..i + 1], attributes) == JpegCount(list[..i], attributes) + (if format == Blob then 1 else 0)
    ensures Fresh(list[..i + 1], serial) == Fresh(list[..i], serial)[list[i] := Stream(serial + i, {}, {})]
  {
    assert list[..i + 1][..i] == list[..i];
  }

  // The validation loop of configure().
  method CheckStreams(list: seq<Client>, attributes: map<Client, Attributes>, known: set<Client>, serial: nat)
    returns (ok: bool, next: Streams)
    ensures ok <==> |list| == 0 || Supported(list, attributes, known)
    ensures ok ==> next == Fresh(list, serial)
  {
    next := map[];
    var i, processed, jpeg := 0, 0, 0;
    while i < |list|
      invariant i <= |list| && next == Fresh(list[..i], serial)
      invariant forall c :: c in next <==> c in list[..i]
      invariant forall j :: 0 <= j < i ==> Acceptable(attributes, list[j], known)
      invariant forall j, k :: 0 <= j < k < i ==> list[j] != list[k]
      invariant processed == ProcessedCount(list[..i], attributes) <= 3
      invariant jpeg == JpegCount(list[..i], attributes) <= 1
    {
      ListStep(list, attributes, serial, i);
      var c := list[i];
      var a := Look(attributes, c);
      if c == 0 || !a.output || a.width == 0 || a.height == 0 || c in next {
        return false, map[];
      }
      if a.format == Blob {
        jpeg := jpeg + 1;
      } else if a.format in {ImplementationDefined, YCbCr420, Rgba8888} || (a.format == Yv12 && c in known) {
        processed := processed + 1;
      } else {
        return false, map[];
      }
      if processed > 3 || jpeg > 1 {
        CountsGrow(list, attributes, i + 1);
        return false, map[];
      }
      next := next[c := Stream(serial + i, {}, {})];
      i := i + 1;
    }
    assert list[..i] == list;
    return true, next;
  }

  lemma ClientOfIs(streams: Streams, serial: nat, legacy: nat, client: Option<Client>)
    requires Numbered(streams, serial)
    requires client.Some? ==> client.value in streams && streams[client.value].legacy == legacy
    requires client.None? ==> forall c :: c in streams ==> streams[c].legacy != legacy
    ensures ClientOf(streams, legacy) == client
  {
    if client.Some? {
      var c := client.value;
      assert c in streams && streams[c].legacy == legacy;
      var found := ClientOf(streams, legacy);
      assert found.Some?;
      assert found.value in streams && streams[found.value].legacy == legacy;
    } else {
      assert ClientOf(streams, legacy) == None;
    }
  }

  // What gralloc, the allocator and the device answer to one turn of the loop.
  datatype Answer = Answer(gralloc: int, memory: bool, device: int)

  // The first error among them, or 0.
  function Refusal(answer: Answer): int {
    if answer.gralloc != 0 then answer.gralloc else if !answer.memory then -ENOMEM else answer.device
  }

  // One turn of the registration loop with the device's answer.
  function Turned(s: State, answer: Answer): State
    requires s.request.Registering? && s.request.i <= |s.request.order.slots|
  {
    var t := CameraModel.PinNext(s, answer.gralloc == 0, answer.memory);
    if t.request.Linking? then CameraModel.EndLink(t, answer.device == 0) else t
  }

  lemma RunInv(from: State, s: State)
    requires Inv(from) && Runs(from, s)
    ensures Inv(s)
  {
    var steps :| Exec(from, steps) == Some(s);
    RunKeeps(from, steps, s);
  }

  lemma OrderClients(s: State, order: Order)
    requires Inv(s) && Ordered(s.request) && s.request.order == order
    ensures forall k: nat :: k < |order.slots| ==> order.slots[k].client in s.streams
  {
    InvParts(s);
    FlowParts(s.streams, s.frames, s.all, s.request, s.fatal);
  }

  lemma RunsPin(from: State, s: State, registered: bool, memory: bool)
    requires Runs(from, s) && s.request.Registering? && s.request.i <= |s.request.order.slots|
    ensures Runs(from, CameraModel.PinNext(s, registered, memory))
    ensures Inv(from) ==> Inv(CameraModel.PinNext(s, registered, memory))
  {
    RunsOn(from, s, OfCapture(PinsNext(registered, memory)));
    if Inv(from) {
      RunInv(from, CameraModel.PinNext(s, registered, memory));
    }
  }

  lemma RunsTurn(from: State, s: State, answer: Answer)
    requires Runs(from, s) && s.request.Registering? && s.request.i < |s.request.order.slots|
    ensures Runs(from, Turned(s, answer))
    ensures Inv(from) ==> Inv(Turned(s, answer))
  {
    RunsPin(from, s, answer.gralloc == 0, answer.memory);
    var t := CameraModel.PinNext(s, answer.gralloc == 0, answer.memory);
    if t.request.Linking? {
      RunsOn(from, t, OfCapture(LinkEnds(answer.device == 0)));
    }
    if Inv(from) {
      RunInv(from, Turned(s, answer));
    }
  }

  predicate Welcome(streams: Streams, slot: Slot, answer: Answer) {
    Pinned(streams, slot) || Refusal(answer) == 0
  }

  predicate AllWelcome(streams: Streams, slots: seq<Slot>, answers: seq<Answer>) {
    forall k: nat :: k < |slots| && k < |answers| ==> Welcome(streams, slots[k], answers[k])
  }

  // The code is that of the first buffer that is not welcome.
  ghost predicate FirstRefusal(streams: Streams, slots: seq<Slot>, answers: seq<Answer>, code: int) {
    exists i: nat :: i < |slots| && i < |answers| && Refusal(answers[i]) == code
      && Turning(streams, streams, slots, answers, i) && !Welcome(streams, slots[i], answers[i])
  }

  lemma RefusedAt(before: Streams, streams: Streams, slots: seq<Slot>, answers: seq<Answer>, i: nat)
    requires i < |slots| && i < |answers| && Turning(before, streams, slots, answers, i)
    requires !Welcome(before, slots[i], answers[i])
    ensures !AllWelcome(before, slots, answers) && FirstRefusal(before, slots, answers, Refusal(answers[i]))
  {
    assert Turning(before, before, slots, answers, i);
  }

  predicate Separate(slots: seq<Slot>) {
    forall j, k :: 0 <= j < k < |slots| ==> slots[j].client != slots[k].client
  }

  // The first i turns went on, and the streams of the other slots are as before.
  predicate Turning(before: Streams, streams: Streams, slots: seq<Slot>, answers: seq<Answer>, i: nat) {
    && (forall k: nat :: k < i && k < |slots| && k < |answers| ==> Welcome(before, slots[k], answers[k]))
    && (forall k: nat :: i <= k < |slots| && slots[k].client in streams && slots[k].client in before ==>
          streams[slots[k].client] == before[slots[k].client])
  }

  // A turn goes on exactly when the buffer was pinned or everybody accepts it.
  lemma TurnGoes(before: Streams, s: State, order: Order, answers: seq<Answer>, i: nat)
    requires s.request == Registering(order, i) && i < |order.slots| == |answers| && order.slots[i].client in s.streams
    requires Separate(order.slots) && before.Keys == s.streams.Keys
    requires Turning(before, s.streams, order.slots, answers, i)
    ensures var t := Turned(s, answers[i]);
      && t.streams.Keys == before.Keys
      && (t.request == if Welcome(before, order.slots[i], answers[i]) then Registering(order, i + 1) else Idle)
      && (t.request.Registering? ==> Turning(before, t.streams, order.slots, answers, i + 1))
  {}

  // What an accepted request adds: one frame for its buffers, all of them outstanding.
  ghost predicate Accepted(s: State, s': State, number: nat, buffers: seq<(Client, Handle)>, settings: bool) {
    && Usable(s.streams, buffers) && number !in s.frames
    && s'.frames == s.frames[number := |s.all|]
    && s'.all == s.all + [NewFrame(Order(number, Slots(s.streams, buffers), settings))]
  }

  // Exactly when capture() gets as far as building the frame: a new buffer takes an
  // empty table and the consent of gralloc, the allocator and the device.
  predicate Preparable(s: State, number: nat, buffers: seq<(Client, Handle)>, answers: seq<Answer>) {
    && Open(s) && number !in s.frames && Usable(s.streams, buffers)
    && (s.frames == map[] || forall i :: 0 <= i < |buffers| ==> Pinned(s.streams, Slots(s.streams, buffers)[i]))
    && AllWelcome(s.streams, Slots(s.streams, buffers), answers)
  }

  // What the first step and the drain find decides it.
  lemma PreparedWhen(s: State, number: nat, buffers: seq<(Client, Handle)>, settings: bool, answers: seq<Answer>)
    requires s.request.Idle? && |answers| == |buffers|
    ensures var r := CameraModel.Capture(s, number, buffers, settings).request;
      && (r.Idle? ==> !Preparable(s, number, buffers, answers))
      && (r.Building? ==> Preparable(s, number, buffers, answers))
      && (r.Draining? ==> Separate(r.order.slots))
      && (r.Draining? ==>
        (Preparable(s, number, buffers, answers) <==>
          s.frames == map[] && AllWelcome(s.streams, r.order.slots, answers)))
  {}

  lemma RunsCapture(s: State, number: nat, buffers: seq<(Client, Handle)>, settings: bool)
    requires s.request.Idle?
    ensures Runs(s, CameraModel.Capture(s, number, buffers, settings))
    ensures Inv(s) ==> Inv(CameraModel.Capture(s, number, buffers, settings))
  {
    RunsNone(s);
    RunsOn(s, s, OfCapture(CaptureStep.BeginCapture(number, buffers, settings)));
    if Inv(s) {
      RunInv(s, CameraModel.Capture(s, number, buffers, settings));
    }
  }

  lemma RunsDrain(from: State, s: State)
    requires Runs(from, s) && s.request.Draining?
    ensures Runs(from, EndDrain(s))
    ensures Inv(from) ==> Inv(EndDrain(s))
  {
    RunsOn(from, s, OfCapture(DrainEnds));
    if Inv(from) {
      RunInv(from, EndDrain(s));
    }
  }

  // The state after a frame was built and submitted with these answers.
  function Entered(s: State, normalized: int, submitted: int): State
    requires s.request.Building?
  {
    var built := CameraModel.Build(s, normalized == 0);
    if built.request.Submitting? then CameraModel.EndSubmit(built, submitted == 0) else built
  }

  // The frame joins the table exactly when the settings allow it and the device takes it;
  // otherwise the table is as before.
  lemma EnteredExact(s: State, normalized: int, submitted: int)
    requires Inv(s) && s.request.Building? && s.request.order.number !in s.frames
    ensures var s', order := Entered(s, normalized, submitted), s.request.order;
      && Runs(s, s') && Inv(s') && s'.request.Idle?
      && if ReadyCode(order.settings, s.primed, normalized, submitted) == 0
         then s'.frames == s.frames[order.number := |s.all|] && s'.all == s.all + [NewFrame(order)]
         else s'.frames == s.frames
  {
    var built := CameraModel.Build(s, normalized == 0);
    RunsNone(s);
    RunsBuild(s, s, normalized == 0);
    if built.request.Submitting? {
      RunsSubmit(s, built, submitted == 0);
    }
  }

  lemma RunsBuild(from: State, s: State, normalized: bool)
    requires Runs(from, s) && s.request.Building?
    ensures Runs(from, CameraModel.Build(s, normalized))
    ensures Inv(from) ==> Inv(CameraModel.Build(s, normalized))
  {
    RunsOn(from, s, OfCapture(Builds(normalized)));
    if Inv(from) {
      RunInv(from, CameraModel.Build(s, normalized));
    }
  }

  // The error of the settings, or else the device's answer.
  function ReadyCode(settings: bool, primed: bool, normalized: int, submitted: int): int {
    var ready := if settings then normalized else if primed then 0 else -EINVAL;
    if ready != 0 then ready else submitted
  }

  lemma RunsSubmit(from: State, s: State, ok: bool)
    requires Runs(from, s) && s.request.Submitting? && s.request.frame < |s.all|
    ensures Runs(from, CameraModel.EndSubmit(s, ok))
    ensures Inv(from) ==> Inv(CameraModel.EndSubmit(s, ok))
  {
    RunsOn(from, s, OfCapture(SubmitEnds(ok)));
    if Inv(from) {
      RunInv(from, CameraModel.EndSubmit(s, ok));
    }
  }

  class Camera {
    var ready: bool
    var vendor: bool
    var fatal: bool
    var closing: bool
    var streams: Streams
    var failed: set<nat>
    var frames: map<nat, nat>
    var all: seq<Frame>
    var primed: bool
    var templates: map<int, int>
    var serial: nat
    ghost var held: set<nat>
    ghost var gralloc: Gralloc
    ghost var fences: Fences
    ghost var request: Request
    ghost var callback: Callback

    ghost function View(): State
      reads this
    {
      State(Device(ready, vendor, serial, failed, held), fatal, closing, streams, frames, all, request, callback,
            gralloc, fences, primed, templates)
    }

    constructor ()
      ensures View() == Initial()
    {
      ready, vendor, fatal, closing, primed := false, true, false, false, false;
      streams, failed, frames, all, templates, serial := map[], {}, map[], [], map[], 0;
      held, gralloc, fences := {}, Gralloc(0, 0), Fences(multiset{}, multiset{}, multiset{});
      request, callback := Idle, Free;
    }

    // capture() up to the drain, which a request with a new buffer needs.
    method BeginCapture(number: nat, buffers: seq<(Client, Handle)>, settings: bool) returns (code: int, order: Order,
        fresh': bool)
      requires request.Idle?
      modifies this`request
      ensures View() == CameraModel.Capture(old(View()), number, buffers, settings)
      ensures order.number == number && order.settings == settings
      ensures request == if code != 0 then Idle else if fresh' then Draining(order) else Building(order)
      ensures code == 0 ==> number !in frames && Usable(streams, buffers) && order.slots == Slots(streams, buffers)
    {
      order, fresh' := Order(number, [], settings), false;
      if |buffers| == 0 { return -EINVAL, order, false; }
      if fatal || closing || !ready { return -ENODEV, order, false; }
      if number in frames { return -EINVAL, order, false; }
      var ok, slots, missing := CheckBuffers(streams, buffers);
      if !ok { return -EINVAL, order, false; }
      order, fresh' := Order(number, slots, settings), missing;
      request := if fresh' then Draining(order) else Building(order);
      return 0, order, fresh';
    }

    // drain(), when its wait ends.
    method DrainAnswer() returns (code: int)
      ensures code == DrainCode(View())
    {
      if frames != map[] && !fatal { return -ETIMEDOUT; }
      return if fatal then -ENODEV else 0;
    }

    // capture() after its drain.
    method Drain() returns (code: int)
      requires request.Draining?
      modifies this`request
      ensures View() == EndDrain(old(View())) && code == DrainCode(old(View()))
      ensures code == 0 <==> frames == map[] && !fatal
      ensures code == 0 ==> request == Registering(old(request).order, 0)
    {
      code := DrainAnswer();
      request := if code == 0 then Registering(request.order, 0) else Idle;
    }

    // flush()
    method EndFlush() returns (code: int)
      requires request.Flushing?
      modifies this`request
      ensures CanRun(old(View()), FlushEnds(code)) && View() == OnDevice(old(View()), FlushEnds(code))
      ensures code == 0 <==> frames == map[] && !fatal
    {
      code := DrainAnswer();
      request := Idle;
    }

    // One turn of the registration loop up to the call into the device.
    method PinNext(order: Order, i: nat, error: int, memory: bool) returns (code: int, called: bool)
      requires request == Registering(order, i) && i < |order.slots| && order.slots[i].client in streams
      modifies this`streams, this`gralloc, this`request
      ensures View() == CameraModel.PinNext(old(View()), error == 0, memory)
      ensures called ==> code == 0
      ensures called <==> request == Linking(order, i)
      ensures code == 0 && !called <==> request == Registering(order, i + 1)
      ensures code != 0 ==> code == if error != 0 then error else -ENOMEM
    {
      var slot := order.slots[i];
      if slot.handle in streams[slot.client].buffers {
        request := Registering(order, i + 1);
        return 0, false;
      }
      if error != 0 {
        request := Idle;
        return error, false;
      }
      gralloc := gralloc.(registrations := gralloc.registrations + 1);
      if !memory {
        gralloc := gralloc.(unregistrations := gralloc.unregistrations + 1);
        request := Idle;
        return -ENOMEM, false;
      }
      var stream := streams[slot.client];
      streams := streams[slot.client := stream.(buffers := stream.buffers + {slot.handle})];
      request := Linking(order, i);
      return 0, true;
    }

    method EndLink(order: Order, i: nat, ok: bool)
      requires request == Linking(order, i) && i < |order.slots| && order.slots[i].client in streams
      modifies this`streams, this`fatal, this`request
      ensures View() == CameraModel.EndLink(old(View()), ok)
    {
      if !ok {
        fatal := true;
        request := Idle;
      } else {
        var c := order.slots[i].client;
        streams := streams[c := streams[c].(registered := streams[c].buffers)];
        request := Registering(order, i + 1);
      }
    }

    // The frame is put in flight.
    method Build(order: Order, normalized: int) returns (code: int)
      requires request == Building(order)
      modifies this`primed, this`frames, this`all, this`request
      ensures View() == CameraModel.Build(old(View()), normalized == 0)
      ensures code == 0 <==> request.Submitting?
      ensures code == if order.settings then normalized else if old(primed) then 0 else -EINVAL
    {
      if order.settings {
        if normalized != 0 {
          request := Idle;
          return normalized;
        }
        primed := true;
      } else if !primed {
        request := Idle;
        return -EINVAL;
      }
      frames := frames[order.number := |all|];
      request := Submitting(|all|);
      all := all + [NewFrame(order)];
      return 0;
    }

    method EndSubmit(u: nat, ok: bool)
      requires request == Submitting(u) && u < |all|
      modifies this`frames, this`all, this`request
      ensures View() == CameraModel.EndSubmit(old(View()), ok)
    {
      if !ok {
        frames := frames - {all[u].number};
        all := all[u := all[u].(refused := true)];
      }
      request := Idle;
    }

    // The locked part of result(), for a frame in flight.
    method TakeResult(u: nat, packet: Option<Packet>, ok: bool, buffers: seq<Returned>)
      requires u < |all|
      modifies this`all, this`fatal, this`callback, this`fences
      ensures var (f, metadata, error) := Taken(old(all[u]), packet, ok);
        var a := Absorb(f, buffers);
        all == old(all)[u := a.frame] && fatal == (old(fatal) || a.bad)
        && callback == Delivering(u, a.outputs, metadata, error)
        && fences == old(fences).(closed := old(fences).closed + a.closed)
    {
      var (f, metadata, error) := Taken(all[u], packet, ok);
      var a := TakeBuffers(f, buffers);
      all := all[u := a.frame];
      fatal := fatal || a.bad;
      fences := fences.(closed := fences.closed + a.closed);
      callback := Delivering(u, a.outputs, metadata, error);
    }

    // The locked part of result(); an unknown frame's fences are all closed.
    method Result(number: nat, packet: Option<Packet>, ok: bool, buffers: seq<Returned>)
      requires callback.Free?
      modifies this`all, this`fatal, this`callback, this`fences
      ensures View() == CameraModel.Result(old(View()), number, packet, ok, buffers)
    {
      fences := fences.(received := fences.received + FencesOf(buffers));
      if number !in frames || frames[number] >= |all| {
        fences := fences.(closed := fences.closed + FencesOf(buffers));
      } else {
        TakeResult(frames[number], packet, ok, buffers);
      }
    }

    // The calls into the client at the end of result().
    method Deliver(u: nat, outputs: seq<Output>, metadata: Option<Metadata>, error: bool)
      requires callback == Delivering(u, outputs, metadata, error) && u < |all|
      modifies this`all, this`callback, this`fences
      ensures View() == CameraModel.Deliver(old(View()))
    {
      var f := all[u];
      fences := fences.(forwarded := fences.forwarded + OutputFences(outputs));
      callback := Retiring(f.number);
      all := all[u := f.(delivered := f.delivered + outputs,
                         metadata := f.metadata + if metadata.Some? then [metadata.value] else [],
                         errors := f.errors + if error then 1 else 0)];
    }

    // The loop of notify() over the streams.
    method ConvertStream(legacy: nat) returns (client: Option<Client>)
      requires Numbered(streams, serial)
      ensures client == ClientOf(streams, legacy)
    {
      client := None;
      var rest := streams.Keys;
      while rest != {}
        invariant rest <= streams.Keys
        invariant client.Some? ==> client.value in streams && streams[client.value].legacy == legacy
        invariant client.None? ==> forall c :: c in streams && streams[c].legacy == legacy ==> c in rest
      {
        Inhabited(rest);
        var c :| c in rest;
        if streams[c].legacy == legacy {
          client := Some(c);
        }
        rest := rest - {c};
      }
      ClientOfIs(streams, serial, legacy, client);
    }

    // The locked part of notify().
    method Notify(message: Message<nat>) returns (converted: Message<Client>)
      requires callback.Free? && Numbered(streams, serial)
      modifies this`all, this`fatal, this`callback
      ensures View() == CameraModel.Notify(old(View()), message)
      ensures converted == Converted(old(streams), message)
    {
      match message
      case Unknown =>
        converted := Unknown;
        callback := Forwarding(converted, None);
      case Shutter(number) =>
        converted := Shutter(number);
        Mark(number, message);
        callback := Forwarding(converted, Some(number));
      case Error(number, stream, code) =>
        var client := None;
        if stream.Some? {
          client := ConvertStream(stream.value);
        }
        converted := Error(number, client, code);
        Mark(number, message);
        fatal := fatal || code == DeviceError;
        callback := Forwarding(converted, Some(number));
    }

    method Mark(number: nat, message: Message<nat>)
      modifies this`all
      ensures all == if InFlight(old(View()), number)
                     then old(all)[frames[number] := Notified(old(all)[frames[number]], message)] else old(all)
    {
      if number in frames && frames[number] < |all| {
        var u := frames[number];
        match message
        case Unknown =>
        case Shutter(_) => all := all[u := all[u].(shutterDone := true)];
        case Error(_, _, code) =>
          if code == RequestError || code == ResultError {
            all := all[u := all[u].(metadataDone := true)];
          }
          if code == RequestError {
            all := all[u := all[u].(shutterDone := true)];
          }
      }
    }

    // configure() up to the first call into the device.
    method BeginConfigure(list: seq<Client>, attributes: map<Client, Attributes>) returns (code: int, reopen: bool,
        next: Streams)
      requires request.Idle?
      modifies this`serial, this`held, this`request
      ensures View() == Configure(old(View()), list, attributes)
      ensures code == 0 <==> Renewing(request)
      ensures code == 0 ==> request == if reopen then Reopening(next) else Configuring(next)
    {
      reopen, next := false, map[];
      if |list| == 0 { return -EINVAL, false, map[]; }
      if fatal || closing || !ready { return -ENODEV, false, map[]; }
      if frames != map[] { return -EBUSY, false, map[]; }
      var ok, checked := CheckStreams(list, attributes, streams.Keys, serial);
      if !ok { return -EINVAL, false, map[]; }
      next := checked;
      serial := serial + |list|;
      reopen := streams != map[] && Geometry(streams.Keys, attributes) != Geometry(next.Keys, attributes);
      if reopen {
        request := Reopening(next);
      } else {
        held := held + Addresses(next);
        request := Configuring(next);
      }
      return 0, reopen, next;
    }

    // reopenVendor() and what configure() does with its answer.
    method EndReopen(next: Streams, outcome: Reopened)
      requires request == Reopening(next)
      modifies this`vendor, this`held, this`failed, this`fatal, this`request
      ensures View() == CameraModel.EndReopen(old(View()), outcome)
    {
      if outcome == Ready {
        held := Addresses(next);
        request := Configuring(next);
      } else {
        if outcome == NotOpened {
          vendor := false;
          held := {};
        }
        failed := failed + Addresses(next);
        fatal := true;
        request := Idle;
      }
    }

    method EndConfigure(next: Streams, ok: bool)
      requires request == Configuring(next)
      modifies this`held, this`failed, this`fatal, this`request
      ensures View() == CameraModel.EndConfigure(old(View()), ok)
    {
      if ok {
        held := Addresses(next);
        request := Swapping(next);
      } else {
        failed := failed + Addresses(next);
        fatal := true;
        request := Idle;
      }
    }

    // The swap and the destructors of the former streams.
    method Swap(next: Streams)
      requires request == Swapping(next)
      modifies this`streams, this`primed, this`request
      ensures View() == CameraModel.Swap(old(View()))
    {
      request := Releasing(streams, false);
      streams := next;
      primed := false;
    }

    // The destructors of former streams: each pinned buffer is unregistered once.
    method ReleaseAll(former: Streams, last: bool)
      requires request == Releasing(former, last)
      modifies this`request, this`gralloc
      ensures request == (if last then Closed else Idle)
      ensures gralloc == old(gralloc).(unregistrations := old(gralloc).unregistrations + |Pins(former)|)
    {
      var rest := former;
      while exists c :: c in rest && rest[c].buffers != {}
        invariant request == Releasing(rest, last)
        invariant gralloc.registrations == old(gralloc).registrations
        invariant gralloc.unregistrations + |Pins(rest)| == old(gralloc).unregistrations + |Pins(former)|
        decreases |Pins(rest)|
      {
        var c :| c in rest && rest[c].buffers != {};
        Inhabited(rest[c].buffers);
        var h :| h in rest[c].buffers;
        var stream := rest[c].(buffers := rest[c].buffers - {h});
        PinDropped(rest, c, h, stream);
        rest := rest[c := stream];
        gralloc := gralloc.(unregistrations := gralloc.unregistrations + 1);
        request := Releasing(rest, last);
      }
      EmptyPins(rest);
      request := if last then Closed else Idle;
    }

    method BeginClose()
      requires request.Idle?
      modifies this`closing, this`request
      ensures View() == old(View()).(closing := true, request := ClosingVendor)
    {
      closing := true;
      request := ClosingVendor;
    }

    method EndClose()
      requires request.ClosingVendor?
      modifies this`vendor, this`held, this`frames, this`streams, this`failed, this`request
      ensures View() == CameraModel.EndClose(old(View()))
    {
      vendor, held, frames := false, {}, map[];
      request := Releasing(streams, true);
      streams, failed := map[], {};
    }

    // One turn of the registration loop with its call into the device.
    method RegisterOne(order: Order, i: nat, answer: Answer) returns (code: int)
      requires request == Registering(order, i) && i < |order.slots| && order.slots[i].client in streams
      modifies this`streams, this`gralloc, this`fatal, this`request
      ensures View() == Turned(old(View()), answer)
      ensures request == if code == 0 then Registering(order, i + 1) else Idle
      ensures code != 0 ==> code == Refusal(answer)
    {
      var called;
      code, called := PinNext(order, i, answer.gralloc, answer.memory);
      if called {
        EndLink(order, i, answer.device == 0);
        code := answer.device;
      }
    }

    // The registration loop of capture() for given answers of gralloc and the device:
    // when it ends well every slot is pinned, and registered if it had to be.
    method RegisterBuffers(order: Order, answers: seq<Answer>) returns (code: int)
      requires Inv(View()) && request == Registering(order, 0) && |answers| == |order.slots| && Separate(order.slots)
      modifies this`streams, this`gralloc, this`fatal, this`request
      ensures Runs(old(View()), View()) && Inv(View())
      ensures request == if code == 0 then Building(order) else Idle
      ensures code == 0 <==> AllWelcome(old(streams), order.slots, answers)
      ensures code != 0 ==> FirstRefusal(old(streams), order.slots, answers, code)
    {
      ghost var start := View();
      var i := 0;
      RunsNone(start);
      while i < |order.slots|
        invariant i <= |order.slots| && request == Registering(order, i) && Inv(View()) && Runs(start, View())
        invariant streams.Keys == start.streams.Keys && Turning(start.streams, streams, order.slots, answers, i)
      {
        OrderClients(View(), order);
        TurnGoes(start.streams, View(), order, answers, i);
        RunsTurn(start, View(), answers[i]);
        ghost var now := streams;
        code := RegisterOne(order, i, answers[i]);
        if code != 0 {
          RefusedAt(start.streams, now, order.slots, answers, i);
          return code;
        }
        i := i + 1;
      }
      RunsPin(start, View(), true, true);
      request := Building(order);
      return 0;
    }

    // capture() up to building the frame, when no callback comes in between.
    method Prepare(number: nat, buffers: seq<(Client, Handle)>, settings: bool, answers: seq<Answer>)
      returns (code: int, order: Order)
      requires Inv(View()) && request.Idle? && |answers| == |buffers|
      modifies this`streams, this`gralloc, this`fatal, this`request
      ensures Runs(old(View()), View()) && Inv(View())
      ensures request == if code == 0 then Building(order) else Idle
      ensures code == 0 <==> Preparable(old(View()), number, buffers, answers)
      ensures code == 0 ==> order == Order(number, Slots(old(streams), buffers), settings)
    {
      ghost var start := View();
      var fresh';
      RunsCapture(start, number, buffers, settings);
      PreparedWhen(start, number, buffers, settings, answers);
      code, order, fresh' := BeginCapture(number, buffers, settings);
      if code != 0 || !fresh' { return; }
      RunsDrain(start, View());
      code := Drain();
      if code != 0 { return; }
      ghost var drained := View();
      code := RegisterBuffers(order, answers);
      RunsJoin(start, drained, View());
    }

    // capture() from the frame on, when no callback comes in between.
    method Enter(order: Order, normalized: int, submitted: int) returns (code: int)
      requires request == Building(order)
      modifies this`primed, this`frames, this`all, this`request
      ensures View() == Entered(old(View()), normalized, submitted)
      ensures code == ReadyCode(order.settings, old(primed), normalized, submitted)
    {
      code := Build(order, normalized);
      if code != 0 { return; }
      EndSubmit(|all| - 1, submitted == 0);
      code := submitted;
    }

    // capture() when no callback comes in between, for given answers of gralloc, the
    // allocator and the device.
    method CaptureAlone(number: nat, buffers: seq<(Client, Handle)>, settings: bool, answers: seq<Answer>,
        normalized: int, submitted: int) returns (code: int)
      requires Inv(View()) && request.Idle? && |answers| == |buffers|
      modifies this`streams, this`gralloc, this`fatal, this`request, this`primed, this`frames, this`all
      ensures Runs(old(View()), View()) && Inv(View()) && request.Idle?
      ensures code == 0 <==>
        Preparable(old(View()), number, buffers, answers)
        && ReadyCode(settings, old(primed), normalized, submitted) == 0
      ensures code == 0 ==> Accepted(old(View()), View(), number, buffers, settings)
      ensures code != 0 ==> frames == old(frames)
    {
      ghost var start := View();
      var order;
      code, order := Prepare(number, buffers, settings, answers);
      if code != 0 { return; }
      ghost var built := View();
      EnteredExact(built, normalized, submitted);
      code := Enter(order, normalized, submitted);
      RunsJoin(start, built, View());
    }

    method Retire(number: nat)
      requires callback == Retiring(number)
      modifies this`frames, this`callback
      ensures View() == CameraModel.Retire(old(View()))
    {
      if number in frames && frames[number] < |all| {
        var f := all[frames[number]];
        if f.remaining == 0 && f.metadataDone && f.shutterDone {
          frames := frames - {number};
        }
      }
      callback := Free;
    }
  }
}
