// What every run of the camera adapter keeps.

module CameraProofs {
  import opened Options
  import opened ResultMetadata
  import opened CameraModel

  // Buffers -------------------------------------------------------------------

  function Missing(returned: seq<bool>): nat {
    if returned == [] then 0 else Missing(returned[..|returned| - 1]) + if returned[|returned| - 1] then 0 else 1
  }

  // The requested buffers split exactly into those already given back, no slot twice,
  // and the outstanding ones.
  ghost predicate Split(f: Frame, outputs: seq<Output>) {
    && |f.returned| == |f.slots|
    && f.remaining == Missing(f.returned)
    && |outputs| + f.remaining == |f.slots|
    && (forall i :: 0 <= i < |outputs| ==> outputs[i].slot < |f.slots| && f.returned[outputs[i].slot])
    && (forall i, j :: 0 <= i < j < |outputs| ==> outputs[i].slot != outputs[j].slot)
  }

  // At most one final metadata or synthesized error, and only the merged packets.
  ghost predicate OneAnswer(f: Frame, metadata: seq<Metadata>, errors: nat) {
    && |metadata| + errors <= 1
    && (!f.metadataDone ==> |metadata| + errors == 0 && f.partials == Overlay(f.packets))
    && (|metadata| == 1 ==> f.last.Some? && metadata[0] == Finish(f.last.value, Overlay(f.packets)))
  }

  // What the running callback still owes the client for frame u.
  function Due(c: Callback, u: nat): seq<Output> {
    if c.Delivering? && c.frame == u then c.outputs else []
  }

  function DueMetadata(c: Callback, u: nat): seq<Metadata> {
    if c.Delivering? && c.frame == u && c.metadata.Some? then [c.metadata.value] else []
  }

  function DueErrors(c: Callback, u: nat): nat {
    if c.Delivering? && c.frame == u && c.error then 1 else 0
  }

  // The spare levels keep such a predicate folded where only the whole matters; the
  // Parts lemmas unfold it.
  ghost predicate Booked(f: Frame, c: Callback, u: nat) {
    BookedAt(2, f, c, u)
  }

  ghost predicate BookedAt(level: nat, f: Frame, c: Callback, u: nat) {
    if level > 0 then BookedAt(level - 1, f, c, u) else
      && Split(f, f.delivered + Due(c, u))
      && OneAnswer(f, f.metadata + DueMetadata(c, u), f.errors + DueErrors(c, u))
  }

  lemma BookedParts(f: Frame, c: Callback, u: nat)
    ensures Booked(f, c, u) <==>
      && Split(f, f.delivered + Due(c, u))
      && OneAnswer(f, f.metadata + DueMetadata(c, u), f.errors + DueErrors(c, u))
  {
    assert BookedAt(2, f, c, u) == BookedAt(1, f, c, u) == BookedAt(0, f, c, u);
  }

  ghost predicate Ledger(all: seq<Frame>, c: Callback) {
    && (c.Delivering? ==> c.frame < |all|)
    && forall u: nat :: u < |all| ==> Booked(all[u], c, u)
  }

  // In-flight frames ----------------------------------------------------------

  ghost predicate Table(frames: map<nat, nat>, all: seq<Frame>) {
    forall n :: n in frames ==> frames[n] < |all| && all[frames[n]].number == n
  }

  // A slot of a stream that is configured, pinned and registered with the device.
  ghost predicate Backed(streams: Streams, slot: Slot) {
    && slot.client in streams
    && streams[slot.client].legacy == slot.legacy
    && slot.handle in streams[slot.client].buffers
    && slot.handle in streams[slot.client].registered
  }

  ghost predicate Live(streams: Streams, frames: map<nat, nat>, all: seq<Frame>) {
    forall n, k: nat :: n in frames && frames[n] < |all| && k < |all[frames[n]].slots| ==>
      Backed(streams, all[frames[n]].slots[k])
  }

  ghost predicate Concerns(c: Callback, all: seq<Frame>, n: nat) {
    match c
    case Free => false
    case Delivering(u, _, _, _) => u < |all| && all[u].number == n
    case Forwarding(_, about) => about == Some(n)
    case Retiring(number) => number == n
  }

  // A completed frame is only left to the callback that completed it.
  ghost predicate Settled(frames: map<nat, nat>, all: seq<Frame>, c: Callback) {
    forall n :: n in frames && frames[n] < |all| && Complete(all[frames[n]]) ==> Concerns(c, all, n)
  }

  ghost predicate Over(r: Request) {
    r.Closed? || (r.Releasing? && r.closing)
  }

  ghost predicate Tracked(frames: map<nat, nat>, all: seq<Frame>, u: nat)
    requires u < |all|
  {
    all[u].number in frames && frames[all[u].number] == u
  }

  ghost predicate Answered(f: Frame) {
    Complete(f) && |f.delivered| == |f.slots|
  }

  // Every accepted request is in flight, fully answered, or was refused by the device,
  // until the device is closed.
  ghost predicate Fate(frames: map<nat, nat>, all: seq<Frame>, c: Callback, over: bool) {
    && (forall u: nat :: u < |all| ==> Tracked(frames, all, u) || all[u].refused || over || Answered(all[u]))
    && (c.Delivering? && c.frame < |all| ==> Tracked(frames, all, c.frame) || all[c.frame].refused)
  }

  // Requests ------------------------------------------------------------------

  ghost predicate Ordered(r: Request) {
    r.Draining? || r.Registering? || r.Linking? || r.Building?
  }

  ghost predicate Renewing(r: Request) {
    r.Reopening? || r.Configuring? || r.Swapping?
  }

  // Nothing is in flight while streams are replaced or buffers registered.
  ghost predicate Quiet(r: Request, frames: map<nat, nat>, all: seq<Frame>) {
    && (r.Submitting? ==> r.frame < |all| && (all[r.frame].number in frames ==> frames[all[r.frame].number] == r.frame))
    && (Renewing(r) || r.Registering? || r.Linking? || Over(r) ==> frames == map[])
    && (Ordered(r) ==> r.order.number !in frames)
  }

  ghost predicate Known(streams: Streams, slot: Slot) {
    slot.client in streams && streams[slot.client].legacy == slot.legacy
  }

  ghost predicate OrderOk(streams: Streams, r: Request) {
    Ordered(r) ==>
      && |r.order.slots| > 0
      && (forall k: nat :: k < |r.order.slots| ==> Known(streams, r.order.slots[k]))
      && (r.Registering? ==> r.i <= |r.order.slots|)
      && (r.Linking? ==> r.i < |r.order.slots|)
      && (forall k: nat ::
            k < |r.order.slots| && (r.Building? || (r.Registering? && k < r.i) || (r.Linking? && k <= r.i)) ==>
            Pinned(streams, r.order.slots[k]))
  }

  ghost predicate Synced(stream: Stream) {
    stream.registered == stream.buffers
  }

  // What was pinned for a stream is what was last registered for it, until the device
  // refuses a registration.
  ghost predicate Registered(streams: Streams, r: Request, fatal: bool) {
    forall c :: c in streams ==>
      || Synced(streams[c])
      || (fatal && !Ordered(r))
      || (r.Linking? && r.i < |r.order.slots| && r.order.slots[r.i].client == c)
  }

  ghost predicate Next(r: Request) {
    Renewing(r) ==> forall c :: c in r.next ==> r.next[c].buffers == {} && r.next[c].registered == {}
  }

  // Resources -----------------------------------------------------------------

  function Pins(streams: Streams): set<(Client, Handle)> {
    set c, h | c in streams && h in streams[c].buffers :: (c, h)
  }

  function Former(r: Request): Streams {
    if r.Releasing? then r.former else map[]
  }

  // Registrations less unregistrations are the buffers pinned now.
  ghost predicate Balanced(gralloc: Gralloc, streams: Streams, r: Request) {
    gralloc.registrations == gralloc.unregistrations + |Pins(streams)| + |Pins(Former(r))|
  }

  // Where the device may be missing, and who may call it.
  ghost predicate Attached(device: Device, r: Request, fatal: bool, busy: bool) {
    && (!device.vendor ==> (fatal || Over(r)) && !busy && !r.Reopening?)
    && (Ordered(r) || r.Configuring? || r.Submitting? ==> device.vendor)
    && (busy ==> device.ready)
  }

  ghost predicate Ending(device: Device, r: Request, closing: bool, streams: Streams) {
    && (closing <==> r.ClosingVendor? || Over(r))
    && (Over(r) ==> !device.vendor && streams == map[])
  }

  ghost predicate Numbered(streams: Streams, serial: nat) {
    && (forall c :: c in streams ==> streams[c].legacy < serial)
    && (forall c, d :: c in streams && d in streams && streams[c].legacy == streams[d].legacy ==> c == d)
  }

  ghost predicate Apart(a: Streams, b: Streams) {
    forall c, d :: c in a && d in b ==> a[c].legacy != b[d].legacy
  }

  // The device holds no address of a stream that was freed.
  ghost predicate Alive(device: Device, streams: Streams, r: Request) {
    AliveAt(2, device, streams, r)
  }

  ghost predicate AliveAt(level: nat, device: Device, streams: Streams, r: Request) {
    if level > 0 then AliveAt(level - 1, device, streams, r) else
      && Numbered(streams, device.serial)
      && (Renewing(r) ==> Numbered(r.next, device.serial) && Apart(r.next, streams))
      && (r.Swapping? ==> device.held <= Addresses(r.next))
      && device.held <= Addresses(streams) + device.failed + (if Renewing(r) then Addresses(r.next) else {})
      && (forall c :: c in Former(r) ==> Former(r)[c].legacy !in device.held)
  }

  lemma AliveParts(device: Device, streams: Streams, r: Request)
    ensures Alive(device, streams, r) <==>
      && Numbered(streams, device.serial)
      && (Renewing(r) ==> Numbered(r.next, device.serial) && Apart(r.next, streams))
      && (r.Swapping? ==> device.held <= Addresses(r.next))
      && device.held <= Addresses(streams) + device.failed + (if Renewing(r) then Addresses(r.next) else {})
      && (forall c :: c in Former(r) ==> Former(r)[c].legacy !in device.held)
  {
    assert AliveAt(2, device, streams, r) == AliveAt(1, device, streams, r) == AliveAt(0, device, streams, r);
  }

  ghost predicate FencesOk(c: Callback, fences: Fences) {
    fences.received == fences.forwarded + fences.closed + if c.Delivering? then OutputFences(c.outputs) else multiset{}
  }

  ghost predicate Answers(frames: map<nat, nat>, all: seq<Frame>, c: Callback, over: bool, fences: Fences) {
    AnswersAt(2, frames, all, c, over, fences)
  }

  ghost predicate AnswersAt(level: nat, frames: map<nat, nat>, all: seq<Frame>, c: Callback, over: bool,
      fences: Fences) {
    if level > 0 then AnswersAt(level - 1, frames, all, c, over, fences) else
      Ledger(all, c) && Table(frames, all) && Settled(frames, all, c) && Fate(frames, all, c, over)
        && FencesOk(c, fences)
  }

  lemma AnswersParts(frames: map<nat, nat>, all: seq<Frame>, c: Callback, over: bool, fences: Fences)
    ensures Answers(frames, all, c, over, fences) <==>
      Ledger(all, c) && Table(frames, all) && Settled(frames, all, c) && Fate(frames, all, c, over)
        && FencesOk(c, fences)
  {
    assert AnswersAt(2, frames, all, c, over, fences) == AnswersAt(1, frames, all, c, over, fences)
      == AnswersAt(0, frames, all, c, over, fences);
  }

  ghost predicate Flow(streams: Streams, frames: map<nat, nat>, all: seq<Frame>, r: Request, fatal: bool) {
    FlowAt(2, streams, frames, all, r, fatal)
  }

  ghost predicate FlowAt(level: nat, streams: Streams, frames: map<nat, nat>, all: seq<Frame>, r: Request,
      fatal: bool) {
    if level > 0 then FlowAt(level - 1, streams, frames, all, r, fatal) else
      Live(streams, frames, all) && Quiet(r, frames, all) && OrderOk(streams, r) && Registered(streams, r, fatal)
        && Next(r)
  }

  lemma FlowParts(streams: Streams, frames: map<nat, nat>, all: seq<Frame>, r: Request, fatal: bool)
    ensures Flow(streams, frames, all, r, fatal) <==>
      Live(streams, frames, all) && Quiet(r, frames, all) && OrderOk(streams, r) && Registered(streams, r, fatal)
        && Next(r)
  {
    assert FlowAt(2, streams, frames, all, r, fatal) == FlowAt(1, streams, frames, all, r, fatal)
      == FlowAt(0, streams, frames, all, r, fatal);
  }

  ghost predicate Resources(device: Device, streams: Streams, r: Request, fatal: bool, closing: bool, busy: bool,
      gralloc: Gralloc) {
    ResourcesAt(2, device, streams, r, fatal, closing, busy, gralloc)
  }

  ghost predicate ResourcesAt(level: nat, device: Device, streams: Streams, r: Request, fatal: bool, closing: bool,
      busy: bool, gralloc: Gralloc) {
    if level > 0 then ResourcesAt(level - 1, device, streams, r, fatal, closing, busy, gralloc) else
      Balanced(gralloc, streams, r) && Attached(device, r, fatal, busy) && Ending(device, r, closing, streams)
      && Alive(device, streams, r) && Next(r)
  }

  lemma ResourcesParts(device: Device, streams: Streams, r: Request, fatal: bool, closing: bool, busy: bool,
      gralloc: Gralloc)
    ensures Resources(device, streams, r, fatal, closing, busy, gralloc) <==>
      Balanced(gralloc, streams, r) && Attached(device, r, fatal, busy) && Ending(device, r, closing, streams)
      && Alive(device, streams, r) && Next(r)
  {
    assert ResourcesAt(2, device, streams, r, fatal, closing, busy, gralloc)
      == ResourcesAt(1, device, streams, r, fatal, closing, busy, gralloc)
      == ResourcesAt(0, device, streams, r, fatal, closing, busy, gralloc);
  }

  ghost predicate AnswersOf(s: State) {
    Answers(s.frames, s.all, s.callback, Over(s.request), s.fences)
  }

  ghost predicate FlowOf(s: State) {
    Flow(s.streams, s.frames, s.all, s.request, s.fatal)
  }

  ghost predicate ResourcesOf(s: State) {
    Resources(s.device, s.streams, s.request, s.fatal, s.closing, !s.callback.Free?, s.gralloc)
  }

  ghost predicate Inv(s: State) {
    InvAt(2, s)
  }

  ghost predicate InvAt(level: nat, s: State) {
    if level > 0 then InvAt(level - 1, s) else AnswersOf(s) && FlowOf(s) && ResourcesOf(s)
  }

  lemma InvParts(s: State)
    ensures Inv(s) <==> AnswersOf(s) && FlowOf(s) && ResourcesOf(s)
  {
    assert InvAt(2, s) == InvAt(1, s) == InvAt(0, s);
  }

  lemma InitialInv()
    ensures Inv(Initial())
  {
    var s := Initial();
    InvParts(s);
    AnswersParts(s.frames, s.all, s.callback, Over(s.request), s.fences);
    FlowParts(s.streams, s.frames, s.all, s.request, s.fatal);
    ResourcesParts(s.device, s.streams, s.request, s.fatal, s.closing, !s.callback.Free?, s.gralloc);
  }

  // One frame changes -----------------------------------------------------------

  lemma {:induction false} MissingFewer(returned: seq<bool>, k: nat)
    requires k < |returned| && !returned[k]
    ensures Missing(returned[k := true]) == Missing(returned) - 1
  {
    var last := |returned| - 1;
    if k < last {
      MissingFewer(returned[..last], k);
      assert returned[k := true][..last] == returned[..last][k := true];
    } else {
      assert returned[k := true][..last] == returned[..last];
    }
  }

  lemma {:induction false} MissingAll(n: nat)
    ensures Missing(seq(n, _ => false)) == n
  {
    if n > 0 {
      MissingAll(n - 1);
      assert seq(n, _ => false)[..n - 1] == seq(n - 1, _ => false);
    }
  }

  lemma AbsorbOneSplits(a: Absorbed, r: Returned, before: seq<Output>)
    requires Split(a.frame, before + a.outputs)
    ensures var b := AbsorbOne(a, r);
      Split(b.frame, before + b.outputs)
      && b.frame == a.frame.(returned := b.frame.returned, remaining := b.frame.remaining)
      && OutputFences(b.outputs) + b.closed == OutputFences(a.outputs) + a.closed + Fence(r.fence)
  {
    var k := Fit(a.frame, r, 0);
    if k < |a.frame.slots| {
      var b := AbsorbOne(a, r);
      MissingFewer(a.frame.returned, k);
      assert b.outputs[..|a.outputs|] == a.outputs;
      assert before + b.outputs == before + a.outputs + [Output(k, r.status, r.fence)];
    }
  }

  // The buffers of one result: each is matched to an outstanding slot and given back, or
  // its fence is closed.
  lemma {:induction false} AbsorbSplits(f: Frame, buffers: seq<Returned>)
    requires Split(f, f.delivered)
    ensures var a := Absorb(f, buffers);
      Split(a.frame, f.delivered + a.outputs)
      && a.frame == f.(returned := a.frame.returned, remaining := a.frame.remaining)
      && FencesOf(buffers) == OutputFences(a.outputs) + a.closed
  {
    if buffers == [] {
      assert f.delivered + [] == f.delivered;
    } else {
      AbsorbSplits(f, buffers[..|buffers| - 1]);
      AbsorbOneSplits(Absorb(f, buffers[..|buffers| - 1]), buffers[|buffers| - 1], f.delivered);
    }
  }

  lemma PacketAnswersOnce(f: Frame, packet: Option<Packet>, ok: bool)
    requires OneAnswer(f, f.metadata, f.errors)
    ensures var (g, m, e) := Taken(f, packet, ok);
      OneAnswer(g, f.metadata + (if m.Some? then [m.value] else []), f.errors + if e then 1 else 0)
      && g == f.(metadataDone := g.metadataDone, partials := g.partials, packets := g.packets, last := g.last)
  {
    assert f.metadata + [] == f.metadata;
    if packet.Some? {
      assert (f.packets + [packet.value])[..|f.packets|] == f.packets;
    }
  }

  ghost predicate Succeeds(f: Frame, g: Frame) {
    g.number == f.number && g.slots == f.slots && (f.refused ==> g.refused) && (Answered(f) ==> Answered(g))
  }

  lemma BookedSame(f: Frame, c: Callback, d: Callback, u: nat)
    requires c.Delivering? ==> c.frame != u
    requires d.Delivering? ==> d.frame != u
    ensures Booked(f, c, u) <==> Booked(f, d, u)
  {
    BookedParts(f, c, u);
    BookedParts(f, d, u);
  }

  lemma LedgerUpdated(all: seq<Frame>, c: Callback, u: nat, g: Frame, d: Callback)
    requires Ledger(all, c) && u < |all|
    requires (c.Delivering? ==> c.frame == u) && (d.Delivering? ==> d.frame == u)
    requires Booked(g, d, u)
    ensures Ledger(all[u := g], d)
  {
    var all' := all[u := g];
    forall v: nat | v < |all'| ensures Booked(all'[v], d, v) {
      if v != u {
        BookedSame(all[v], c, d, v);
      }
    }
  }

  lemma FramesUpdated(frames: map<nat, nat>, all: seq<Frame>, c: Callback, over: bool, u: nat, g: Frame, d: Callback)
    requires Table(frames, all) && Fate(frames, all, c, over) && u < |all| && Succeeds(all[u], g)
    requires d.Delivering? ==> d.frame == u && (Tracked(frames, all, u) || g.refused)
    ensures Table(frames, all[u := g]) && Fate(frames, all[u := g], d, over)
  {
    var all' := all[u := g];
    forall v: nat | v < |all'| ensures Tracked(frames, all', v) || all'[v].refused || over || Answered(all'[v]) {
      assert Tracked(frames, all, v) || all[v].refused || over || Answered(all[v]);
    }
  }

  lemma SettledUpdated(frames: map<nat, nat>, all: seq<Frame>, c: Callback, u: nat, g: Frame, d: Callback)
    requires Table(frames, all) && Settled(frames, all, c) && u < |all| && g.number == all[u].number
    requires c.Free? || (c.Delivering? && c.frame == u)
    requires Concerns(d, all[u := g], g.number)
    ensures Settled(frames, all[u := g], d)
  {
    var all' := all[u := g];
    forall n | n in frames && frames[n] < |all'| && Complete(all'[frames[n]]) ensures Concerns(d, all', n) {
      if frames[n] != u {
        assert Complete(all[frames[n]]) && Concerns(c, all, n);
      }
    }
  }

  // A callback changes the one frame it is about.
  lemma AnswersUpdated(s: State, s': State, u: nat)
    requires AnswersOf(s) && u < |s.all| == |s'.all| && s'.all == s.all[u := s'.all[u]]
    requires s'.frames == s.frames && Over(s'.request) == Over(s.request)
    requires s.callback.Free? || (s.callback.Delivering? && s.callback.frame == u)
    requires s'.callback.Delivering? ==> s'.callback.frame == u && Tracked(s.frames, s.all, u)
    requires Booked(s.all[u], s.callback, u) ==> Booked(s'.all[u], s'.callback, u)
    requires Booked(s.all[u], s.callback, u) ==> Succeeds(s.all[u], s'.all[u])
    requires Concerns(s'.callback, s'.all, s.all[u].number)
    requires FencesOk(s.callback, s.fences) ==> FencesOk(s'.callback, s'.fences)
    ensures AnswersOf(s')
  {
    AnswersParts(s.frames, s.all, s.callback, Over(s.request), s.fences);
    AnswersParts(s'.frames, s'.all, s'.callback, Over(s'.request), s'.fences);
    LedgerUpdated(s.all, s.callback, u, s'.all[u], s'.callback);
    FramesUpdated(s.frames, s.all, s.callback, Over(s.request), u, s'.all[u], s'.callback);
    SettledUpdated(s.frames, s.all, s.callback, u, s'.all[u], s'.callback);
  }

  // Callbacks keep the answers ----------------------------------------------------

  lemma FrameOfResult(f: Frame, c: Callback, u: nat, packet: Option<Packet>, ok: bool, returned: seq<Returned>)
    requires Booked(f, c, u) && c.Free?
    ensures var (g, m, e) := Taken(f, packet, ok);
      var a := Absorb(g, returned);
      Booked(a.frame, Delivering(u, a.outputs, m, e), u) && Succeeds(f, a.frame)
      && FencesOf(returned) == OutputFences(a.outputs) + a.closed
  {
    BookedParts(f, c, u);
    assert f.delivered + [] == f.delivered && f.metadata + [] == f.metadata;
    PacketAnswersOnce(f, packet, ok);
    var (g, m, e) := Taken(f, packet, ok);
    AbsorbSplits(g, returned);
    BookedParts(Absorb(g, returned).frame, Delivering(u, Absorb(g, returned).outputs, m, e), u);
  }

  lemma ResultKeepsAnswers(s: State, number: nat, packet: Option<Packet>, ok: bool, returned: seq<Returned>)
    requires AnswersOf(s) && s.callback.Free?
    ensures AnswersOf(Result(s, number, packet, ok, returned))
  {
    var s' := Result(s, number, packet, ok, returned);
    if InFlight(s, number) {
      var u := s.frames[number];
      TableOf(s, number);
      FrameOfResult(s.all[u], s.callback, u, packet, ok, returned);
      AnswersUpdated(s, s', u);
    } else {
      AnswersParts(s.frames, s.all, s.callback, Over(s.request), s.fences);
      AnswersParts(s'.frames, s'.all, s'.callback, Over(s'.request), s'.fences);
    }
  }

  lemma DeliverKeepsAnswers(s: State)
    requires AnswersOf(s) && s.callback.Delivering? && s.callback.frame < |s.all|
    ensures AnswersOf(Deliver(s))
  {
    var s', u := Deliver(s), s.callback.frame;
    var f, g := s.all[u], s'.all[u];
    BookedParts(f, s.callback, u);
    BookedParts(g, s'.callback, u);
    assert g.delivered + [] == g.delivered && g.metadata + [] == g.metadata;
    assert g.metadata == f.metadata + DueMetadata(s.callback, u);
    AnswersUpdated(s, s', u);
  }

  lemma NotifyKeepsAnswers(s: State, message: Message<nat>)
    requires AnswersOf(s) && s.callback.Free?
    ensures AnswersOf(Notify(s, message))
  {
    var s' := Notify(s, message);
    if !message.Unknown? && InFlight(s, message.number) {
      var u := s.frames[message.number];
      BookedParts(s.all[u], s.callback, u);
      BookedParts(s'.all[u], s'.callback, u);
      TableOf(s, message.number);
      AnswersUpdated(s, s', u);
    } else {
      AnswersPassed(s, s');
    }
  }

  lemma TableOf(s: State, number: nat)
    requires AnswersOf(s) && number in s.frames
    ensures InFlight(s, number) && s.all[s.frames[number]].number == number
    ensures Tracked(s.frames, s.all, s.frames[number]) && Booked(s.all[s.frames[number]], s.callback, s.frames[number])
  {
    AnswersParts(s.frames, s.all, s.callback, Over(s.request), s.fences);
  }

  // A callback leaves the books alone when it neither takes nor owes anything.
  lemma AnswersPassed(s: State, s': State)
    requires AnswersOf(s) && !s.callback.Delivering? && !s'.callback.Delivering?
    requires s'.all == s.all && s'.frames == s.frames && Over(s'.request) == Over(s.request)
    requires s'.fences == s.fences
    requires forall n :: Concerns(s.callback, s.all, n) ==> Concerns(s'.callback, s.all, n)
    ensures AnswersOf(s')
  {
    AnswersParts(s.frames, s.all, s.callback, Over(s.request), s.fences);
    AnswersParts(s'.frames, s'.all, s'.callback, Over(s'.request), s'.fences);
    forall u: nat | u < |s.all| ensures Booked(s.all[u], s'.callback, u) {
      BookedSame(s.all[u], s.callback, s'.callback, u);
    }
  }

  lemma RetireKeepsAnswers(s: State)
    requires AnswersOf(s) && s.callback.Retiring?
    ensures AnswersOf(Retire(s))
  {
    var s' := Retire(s);
    AnswersParts(s.frames, s.all, s.callback, Over(s.request), s.fences);
    AnswersParts(s'.frames, s'.all, s'.callback, Over(s'.request), s'.fences);
    forall u: nat | u < |s.all| ensures Booked(s.all[u], s'.callback, u) {
      BookedSame(s.all[u], s.callback, s'.callback, u);
    }
    forall u: nat | u < |s.all|
      ensures Tracked(s'.frames, s.all, u) || s.all[u].refused || Over(s.request) || Answered(s.all[u])
    {
      BookedParts(s.all[u], s.callback, u);
      assert s.all[u].delivered + [] == s.all[u].delivered;
    }
  }

  // The request thread keeps the answers ------------------------------------------

  lemma NewFrameBooked(order: Order, c: Callback, u: nat)
    requires c.Delivering? ==> c.frame != u
    ensures Booked(NewFrame(order), c, u)
  {
    BookedParts(NewFrame(order), c, u);
    MissingAll(|order.slots|);
  }

  lemma LedgerGrows(all: seq<Frame>, c: Callback, f: Frame)
    requires Ledger(all, c) && Booked(f, c, |all|)
    ensures Ledger(all + [f], c)
  {
    var all' := all + [f];
    forall u: nat | u < |all'| ensures Booked(all'[u], c, u) {
      if u < |all| {
        assert Booked(all[u], c, u);
      }
    }
  }

  lemma FramesGrow(frames: map<nat, nat>, all: seq<Frame>, c: Callback, over: bool, f: Frame)
    requires Table(frames, all) && Settled(frames, all, c) && Fate(frames, all, c, over)
    requires f.number !in frames && !Complete(f)
    ensures Table(frames[f.number := |all|], all + [f])
    ensures Settled(frames[f.number := |all|], all + [f], c)
    ensures c.Delivering? && c.frame < |all| ==>
      Tracked(frames[f.number := |all|], all + [f], c.frame) || all[c.frame].refused
  {
    var all', frames' := all + [f], frames[f.number := |all|];
    forall n | n in frames' && frames'[n] < |all'| && Complete(all'[frames'[n]]) ensures Concerns(c, all', n) {
      assert n != f.number && Complete(all[frames[n]]) && Concerns(c, all, n);
    }
  }

  lemma FateGrows(frames: map<nat, nat>, all: seq<Frame>, c: Callback, over: bool, f: Frame, u: nat)
    requires Fate(frames, all, c, over) && f.number !in frames && u <= |all|
    ensures Tracked(frames[f.number := |all|], all + [f], u) || (all + [f])[u].refused || over
      || Answered((all + [f])[u])
  {
    if u < |all| {
      assert Tracked(frames, all, u) || all[u].refused || over || Answered(all[u]);
    }
  }

  lemma AnswersGrow(s: State, s': State, f: Frame)
    requires AnswersOf(s) && f.number !in s.frames && !Complete(f)
    requires s'.all == s.all + [f] && s'.frames == s.frames[f.number := |s.all|] && s'.callback == s.callback
    requires s'.fences == s.fences
    requires Over(s'.request) == Over(s.request)
    requires !s.callback.Delivering? || s.callback.frame < |s.all| ==> Booked(f, s.callback, |s.all|)
    ensures AnswersOf(s')
  {
    AnswersParts(s.frames, s.all, s.callback, Over(s.request), s.fences);
    AnswersParts(s'.frames, s'.all, s'.callback, Over(s'.request), s'.fences);
    LedgerGrows(s.all, s.callback, f);
    FramesGrow(s.frames, s.all, s.callback, Over(s.request), f);
    forall u: nat | u < |s'.all|
      ensures Tracked(s'.frames, s'.all, u) || s'.all[u].refused || Over(s.request) || Answered(s'.all[u])
    {
      FateGrows(s.frames, s.all, s.callback, Over(s.request), f, u);
    }
  }

  lemma BuildKeepsAnswers(s: State, normalized: bool)
    requires AnswersOf(s) && s.request.Building? && s.request.order.number !in s.frames && |s.request.order.slots| > 0
    ensures AnswersOf(Build(s, normalized))
  {
    var s' := Build(s, normalized);
    if s'.request.Submitting? {
      if !s.callback.Delivering? || s.callback.frame < |s.all| {
        NewFrameBooked(s.request.order, s.callback, |s.all|);
      }
      AnswersGrow(s, s', NewFrame(s.request.order));
    }
  }

  lemma EndSubmitKeepsAnswers(s: State, ok: bool)
    requires AnswersOf(s) && s.request.Submitting? && Quiet(s.request, s.frames, s.all)
    ensures AnswersOf(EndSubmit(s, ok))
  {
    var s' := EndSubmit(s, ok);
    if !ok {
      AnswersParts(s.frames, s.all, s.callback, Over(s.request), s.fences);
      AnswersParts(s'.frames, s'.all, s'.callback, Over(s'.request), s'.fences);
      var u := s.request.frame;
      BookedParts(s.all[u], s.callback, u);
      BookedParts(s'.all[u], s.callback, u);
      forall v: nat | v < |s'.all|
        ensures Tracked(s'.frames, s'.all, v) || s'.all[v].refused || Over(s.request) || Answered(s'.all[v])
      {
        assert Tracked(s.frames, s.all, v) || s.all[v].refused || Over(s.request) || Answered(s.all[v]);
      }
    }
  }

  lemma EndCloseKeepsAnswers(s: State)
    requires AnswersOf(s) && s.callback.Free?
    requires s.request.ClosingVendor?
    ensures AnswersOf(EndClose(s))
  {
    var s' := EndClose(s);
    AnswersParts(s.frames, s.all, s.callback, Over(s.request), s.fences);
    AnswersParts(s'.frames, s'.all, s'.callback, Over(s'.request), s'.fences);
  }

  // The order of steps -----------------------------------------------------------

  lemma CaptureKeepsFlow(s: State, number: nat, buffers: seq<(Client, Handle)>, settings: bool)
    requires FlowOf(s) && s.request.Idle?
    ensures FlowOf(Capture(s, number, buffers, settings))
  {
    FlowParts(s.streams, s.frames, s.all, s.request, s.fatal);
    var s' := Capture(s, number, buffers, settings);
    FlowParts(s'.streams, s'.frames, s'.all, s'.request, s'.fatal);
  }

  lemma EndDrainKeepsFlow(s: State)
    requires FlowOf(s) && s.request.Draining?
    ensures FlowOf(EndDrain(s))
  {
    FlowParts(s.streams, s.frames, s.all, s.request, s.fatal);
    var s' := EndDrain(s);
    FlowParts(s'.streams, s'.frames, s'.all, s'.request, s'.fatal);
  }

  // A buffer is pinned for one stream of the order.
  lemma OrderPinned(streams: Streams, order: Order, i: nat, stream: Stream)
    requires OrderOk(streams, Registering(order, i)) && i < |order.slots|
    requires var old' := streams[order.slots[i].client];
      stream.legacy == old'.legacy && stream.buffers == old'.buffers + {order.slots[i].handle}
    ensures OrderOk(streams[order.slots[i].client := stream], Linking(order, i))
  {
    var slots, streams' := order.slots, streams[order.slots[i].client := stream];
    forall k: nat | k < |slots| ensures Known(streams', slots[k]) && (k <= i ==> Pinned(streams', slots[k])) {
      assert Known(streams, slots[k]) && (k < i ==> Pinned(streams, slots[k]));
    }
  }

  lemma FlowPinned(streams: Streams, frames: map<nat, nat>, all: seq<Frame>, order: Order, i: nat, fatal: bool,
      stream: Stream)
    requires Flow(streams, frames, all, Registering(order, i), fatal) && i < |order.slots|
    requires order.slots[i].client in streams
    requires var former := streams[order.slots[i].client];
      stream.legacy == former.legacy && stream.buffers == former.buffers + {order.slots[i].handle}
    ensures Flow(streams[order.slots[i].client := stream], frames, all, Linking(order, i), fatal)
  {
    FlowParts(streams, frames, all, Registering(order, i), fatal);
    FlowParts(streams[order.slots[i].client := stream], frames, all, Linking(order, i), fatal);
    OrderPinned(streams, order, i, stream);
  }

  lemma FlowTurned(streams: Streams, frames: map<nat, nat>, all: seq<Frame>, order: Order, i: nat, fatal: bool)
    requires Flow(streams, frames, all, Registering(order, i), fatal)
    ensures Flow(streams, frames, all, Idle, fatal)
    ensures i < |order.slots| && Pinned(streams, order.slots[i]) ==>
      Flow(streams, frames, all, Registering(order, i + 1), fatal)
    ensures i == |order.slots| ==> Flow(streams, frames, all, Building(order), fatal)
  {
    FlowParts(streams, frames, all, Registering(order, i), fatal);
    FlowParts(streams, frames, all, Registering(order, i + 1), fatal);
    FlowParts(streams, frames, all, Building(order), fatal);
    FlowParts(streams, frames, all, Idle, fatal);
  }

  lemma TurnKeepsFlow(streams: Streams, frames: map<nat, nat>, all: seq<Frame>, order: Order, i: nat, fatal: bool,
      gralloc: Gralloc, registered: bool, memory: bool)
    requires Flow(streams, frames, all, Registering(order, i), fatal) && i <= |order.slots|
    ensures var (streams', _, r) := Turn(streams, gralloc, order, i, registered, memory);
      Flow(streams', frames, all, r, fatal)
  {
    var (streams', _, r) := Turn(streams, gralloc, order, i, registered, memory);
    if r.Linking? {
      FlowPinned(streams, frames, all, order, i, fatal, streams'[order.slots[i].client]);
    } else {
      FlowTurned(streams, frames, all, order, i, fatal);
    }
  }

  lemma EndLinkKeepsFlow(s: State, ok: bool)
    requires FlowOf(s) && s.request.Linking? && s.request.i < |s.request.order.slots|
    requires s.request.order.slots[s.request.i].client in s.streams
    ensures FlowOf(EndLink(s, ok))
  {
    FlowParts(s.streams, s.frames, s.all, s.request, s.fatal);
    var s' := EndLink(s, ok);
    FlowParts(s'.streams, s'.frames, s'.all, s'.request, s'.fatal);
  }

  // What is put in flight is configured, pinned and registered.
  lemma OrderBacked(streams: Streams, order: Order, fatal: bool, k: nat)
    requires OrderOk(streams, Building(order)) && Registered(streams, Building(order), fatal) && k < |order.slots|
    ensures Backed(streams, order.slots[k])
  {
    assert Known(streams, order.slots[k]) && Pinned(streams, order.slots[k]);
  }

  lemma LiveGrows(streams: Streams, frames: map<nat, nat>, all: seq<Frame>, f: Frame)
    requires Live(streams, frames, all) && Table(frames, all) && f.number !in frames
    requires forall k: nat :: k < |f.slots| ==> Backed(streams, f.slots[k])
    ensures Live(streams, frames[f.number := |all|], all + [f])
  {
    var frames', all' := frames[f.number := |all|], all + [f];
    forall n, k: nat | n in frames' && frames'[n] < |all'| && k < |all'[frames'[n]].slots|
      ensures Backed(streams, all'[frames'[n]].slots[k])
    {
      if n != f.number {
        assert Backed(streams, all[frames[n]].slots[k]);
      }
    }
  }

  lemma FlowBuilt(streams: Streams, frames: map<nat, nat>, all: seq<Frame>, order: Order, fatal: bool)
    requires Flow(streams, frames, all, Building(order), fatal) && Table(frames, all)
    ensures Flow(streams, frames[order.number := |all|], all + [NewFrame(order)], Submitting(|all|), fatal)
  {
    var frames', all' := frames[order.number := |all|], all + [NewFrame(order)];
    FlowParts(streams, frames, all, Building(order), fatal);
    FlowParts(streams, frames', all', Submitting(|all|), fatal);
    forall k: nat | k < |order.slots| ensures Backed(streams, order.slots[k]) {
      OrderBacked(streams, order, fatal, k);
    }
    LiveGrows(streams, frames, all, NewFrame(order));
  }

  lemma FlowUnbuilt(streams: Streams, frames: map<nat, nat>, all: seq<Frame>, order: Order, fatal: bool)
    requires Flow(streams, frames, all, Building(order), fatal)
    ensures Flow(streams, frames, all, Idle, fatal)
  {
    FlowParts(streams, frames, all, Building(order), fatal);
    FlowParts(streams, frames, all, Idle, fatal);
  }

  lemma BuildKeepsFlow(s: State, normalized: bool)
    requires FlowOf(s) && s.request.Building? && Table(s.frames, s.all)
    ensures FlowOf(Build(s, normalized))
  {
    FlowBuilt(s.streams, s.frames, s.all, s.request.order, s.fatal);
    FlowUnbuilt(s.streams, s.frames, s.all, s.request.order, s.fatal);
  }

  lemma EndSubmitKeepsFlow(s: State, ok: bool)
    requires FlowOf(s) && s.request.Submitting? && s.request.frame < |s.all|
    ensures FlowOf(EndSubmit(s, ok))
  {
    FlowParts(s.streams, s.frames, s.all, s.request, s.fatal);
    var s' := EndSubmit(s, ok);
    FlowParts(s'.streams, s'.frames, s'.all, s'.request, s'.fatal);
  }

  lemma {:induction false} FreshEmpty(list: seq<Client>, serial: nat)
    ensures forall c :: c in Fresh(list, serial) ==>
      c in list && Fresh(list, serial)[c].buffers == {} == Fresh(list, serial)[c].registered
    ensures forall c :: c in Fresh(list, serial) ==> serial <= Fresh(list, serial)[c].legacy < serial + |list|
  {
    if list != [] {
      FreshEmpty(list[..|list| - 1], serial);
    }
  }

  lemma ConfigureKeepsFlow(s: State, list: seq<Client>, memory: map<Client, Attributes>)
    requires FlowOf(s) && s.request.Idle?
    ensures FlowOf(Configure(s, list, memory))
  {
    FlowParts(s.streams, s.frames, s.all, s.request, s.fatal);
    FreshEmpty(list, s.device.serial);
    var s' := Configure(s, list, memory);
    FlowParts(s'.streams, s'.frames, s'.all, s'.request, s'.fatal);
  }

  lemma EndReopenKeepsFlow(s: State, outcome: Reopened)
    requires FlowOf(s) && s.request.Reopening? && s.callback.Free?
    ensures FlowOf(EndReopen(s, outcome))
  {
    FlowParts(s.streams, s.frames, s.all, s.request, s.fatal);
    var s' := EndReopen(s, outcome);
    FlowParts(s'.streams, s'.frames, s'.all, s'.request, s'.fatal);
  }

  lemma EndConfigureKeepsFlow(s: State, ok: bool)
    requires FlowOf(s) && s.request.Configuring?
    ensures FlowOf(EndConfigure(s, ok))
  {
    FlowParts(s.streams, s.frames, s.all, s.request, s.fatal);
    var s' := EndConfigure(s, ok);
    FlowParts(s'.streams, s'.frames, s'.all, s'.request, s'.fatal);
  }

  lemma SwapKeepsFlow(s: State)
    requires FlowOf(s) && s.request.Swapping?
    ensures FlowOf(Swap(s))
  {
    FlowParts(s.streams, s.frames, s.all, s.request, s.fatal);
    var s' := Swap(s);
    FlowParts(s'.streams, s'.frames, s'.all, s'.request, s'.fatal);
  }

  lemma EndCloseKeepsFlow(s: State)
    requires FlowOf(s) && s.request.ClosingVendor? && s.callback.Free?
    ensures FlowOf(EndClose(s))
  {
    FlowParts(s.streams, s.frames, s.all, s.request, s.fatal);
    var s' := EndClose(s);
    FlowParts(s'.streams, s'.frames, s'.all, s'.request, s'.fatal);
  }

  // Callbacks change neither the slots of a frame nor who refers to it.
  lemma FlowPassed(s: State, s': State)
    requires FlowOf(s)
    requires s'.streams == s.streams && s'.request == s.request && |s'.all| == |s.all| && (s.fatal ==> s'.fatal)
    requires forall u: nat :: u < |s.all| ==> s'.all[u].number == s.all[u].number && s'.all[u].slots == s.all[u].slots
    requires forall n :: n in s'.frames ==> n in s.frames && s'.frames[n] == s.frames[n]
    ensures FlowOf(s')
  {
    FlowParts(s.streams, s.frames, s.all, s.request, s.fatal);
    FlowParts(s'.streams, s'.frames, s'.all, s'.request, s'.fatal);
  }

  lemma {:induction false} AbsorbKeeps(f: Frame, buffers: seq<Returned>)
    ensures var a := Absorb(f, buffers); a.frame.number == f.number && a.frame.slots == f.slots
  {
    if buffers != [] {
      AbsorbKeeps(f, buffers[..|buffers| - 1]);
    }
  }

  lemma ResultKeepsFlow(s: State, number: nat, packet: Option<Packet>, ok: bool, returned: seq<Returned>)
    requires FlowOf(s) && s.device.vendor && s.device.ready && s.callback.Free?
    ensures FlowOf(Result(s, number, packet, ok, returned))
  {
    if InFlight(s, number) {
      AbsorbKeeps(Taken(s.all[s.frames[number]], packet, ok).0, returned);
    }
    FlowPassed(s, Result(s, number, packet, ok, returned));
  }

  lemma DeliverKeepsFlow(s: State)
    requires FlowOf(s) && s.callback.Delivering? && s.callback.frame < |s.all|
    ensures FlowOf(Deliver(s))
  {
    FlowPassed(s, Deliver(s));
  }

  lemma NotifyKeepsFlow(s: State, message: Message<nat>)
    requires FlowOf(s) && s.device.vendor && s.device.ready && s.callback.Free?
    ensures FlowOf(Notify(s, message))
  {
    FlowPassed(s, Notify(s, message));
  }

  lemma RetireKeepsFlow(s: State)
    requires FlowOf(s) && s.callback.Retiring?
    ensures FlowOf(Retire(s))
  {
    FlowPassed(s, Retire(s));
  }

  // Resources ---------------------------------------------------------------------

  // A callback starts only on an open device and may set fatal.
  lemma ResourcesCalled(s: State, s': State)
    requires ResourcesOf(s)
    requires s'.device == s.device && s'.streams == s.streams && s'.request == s.request
    requires s'.closing == s.closing && s'.gralloc == s.gralloc && (s.fatal ==> s'.fatal)
    requires s'.callback.Free? || !s.callback.Free? || (s.device.vendor && s.device.ready)
    ensures ResourcesOf(s')
  {
    ResourcesParts(s.device, s.streams, s.request, s.fatal, s.closing, !s.callback.Free?, s.gralloc);
    ResourcesParts(s'.device, s'.streams, s'.request, s'.fatal, s'.closing, !s'.callback.Free?, s'.gralloc);
  }

  // Steps of a request that change none of the resources.
  ghost predicate Onward(r: Request, r': Request, open: bool) {
    && (r.Idle? || Ordered(r) || r.Submitting? || r.Flushing?)
    && (r'.Idle? || r'.Flushing? || ((Ordered(r') || r'.Submitting?) && (open || Ordered(r))))
  }

  lemma ResourcesOnward(device: Device, streams: Streams, r: Request, r': Request, fatal: bool, fatal': bool,
      closing: bool, busy: bool, gralloc: Gralloc)
    requires Resources(device, streams, r, fatal, closing, busy, gralloc) && Onward(r, r', !fatal)
    requires fatal ==> fatal'
    ensures Resources(device, streams, r', fatal', closing, busy, gralloc)
  {
    ResourcesParts(device, streams, r, fatal, closing, busy, gralloc);
    ResourcesParts(device, streams, r', fatal', closing, busy, gralloc);
    AliveOnward(device, streams, r, r');
  }

  lemma AliveOnward(device: Device, streams: Streams, r: Request, r': Request)
    requires Alive(device, streams, r) && !Renewing(r) && !Renewing(r') && !r'.Releasing?
    ensures Alive(device, streams, r')
  {
    AliveParts(device, streams, r);
    AliveParts(device, streams, r');
  }

  lemma PinsHave(streams: Streams, c: Client, h: Handle)
    ensures (c, h) in Pins(streams) <==> c in streams && h in streams[c].buffers
  {}

  lemma PinAdded(streams: Streams, c: Client, h: Handle, stream: Stream)
    requires c in streams && h !in streams[c].buffers && stream.buffers == streams[c].buffers + {h}
    ensures |Pins(streams[c := stream])| == |Pins(streams)| + 1
  {
    var streams' := streams[c := stream];
    forall d, k ensures (d, k) in Pins(streams') <==> (d, k) in Pins(streams) || (d, k) == (c, h) {
      PinsHave(streams, d, k);
      PinsHave(streams', d, k);
    }
    assert Pins(streams') == Pins(streams) + {(c, h)};
    PinsHave(streams, c, h);
  }

  lemma PinDropped(streams: Streams, c: Client, h: Handle, stream: Stream)
    requires c in streams && h in streams[c].buffers && stream.buffers == streams[c].buffers - {h}
    ensures |Pins(streams[c := stream])| == |Pins(streams)| - 1
  {
    PinAdded(streams[c := stream], c, h, streams[c]);
    assert streams[c := stream][c := streams[c]] == streams;
  }

  lemma PinsSame(streams: Streams, c: Client, stream: Stream)
    requires c in streams && stream.buffers == streams[c].buffers
    ensures Pins(streams[c := stream]) == Pins(streams)
  {}

  lemma EmptyPins(streams: Streams)
    requires Empty(streams)
    ensures Pins(streams) == {}
  {}

  // The addresses stay the same when a stream's buffers change.
  lemma AliveUpdated(device: Device, streams: Streams, r: Request, c: Client, stream: Stream, r': Request)
    requires Alive(device, streams, r) && c in streams && stream.legacy == streams[c].legacy && !Renewing(r)
    requires !Renewing(r')
    requires Former(r) == Former(r') == map[]
    ensures Alive(device, streams[c := stream], r')
  {
    AliveParts(device, streams, r);
    AliveParts(device, streams[c := stream], r');
    assert Addresses(streams[c := stream]) == Addresses(streams) by {
      forall a ensures a in Addresses(streams[c := stream]) <==> a in Addresses(streams) {
        if a in Addresses(streams) {
          var d :| d in streams && streams[d].legacy == a;
          assert streams[c := stream][d].legacy == a;
        }
      }
    }
  }

  lemma ResourcesPinned(device: Device, streams: Streams, order: Order, i: nat, fatal: bool, closing: bool,
      busy: bool, gralloc: Gralloc, c: Client, h: Handle, stream: Stream)
    requires Resources(device, streams, Registering(order, i), fatal, closing, busy, gralloc)
    requires c in streams && h !in streams[c].buffers && stream == streams[c].(buffers := streams[c].buffers + {h})
    ensures Resources(device, streams[c := stream], Linking(order, i), fatal, closing, busy,
        gralloc.(registrations := gralloc.registrations + 1))
  {
    var gralloc' := gralloc.(registrations := gralloc.registrations + 1);
    ResourcesParts(device, streams, Registering(order, i), fatal, closing, busy, gralloc);
    ResourcesParts(device, streams[c := stream], Linking(order, i), fatal, closing, busy, gralloc');
    PinAdded(streams, c, h, stream);
    AliveUpdated(device, streams, Registering(order, i), c, stream, Linking(order, i));
  }

  // Pinning fails for want of memory: the buffer is registered and unregistered.
  lemma ResourcesUndone(device: Device, streams: Streams, order: Order, i: nat, fatal: bool, closing: bool,
      busy: bool, gralloc: Gralloc)
    requires Resources(device, streams, Registering(order, i), fatal, closing, busy, gralloc)
    ensures Resources(device, streams, Idle, fatal, closing, busy,
        Gralloc(gralloc.registrations + 1, gralloc.unregistrations + 1))
  {
    ResourcesParts(device, streams, Registering(order, i), fatal, closing, busy, gralloc);
    AliveParts(device, streams, Registering(order, i));
    ResourcesParts(device, streams, Idle, fatal, closing, busy,
        Gralloc(gralloc.registrations + 1, gralloc.unregistrations + 1));
    AliveParts(device, streams, Idle);
  }

  lemma TurnKeepsResources(device: Device, streams: Streams, order: Order, i: nat, fatal: bool, closing: bool,
      busy: bool, gralloc: Gralloc, registered: bool, memory: bool)
    requires Resources(device, streams, Registering(order, i), fatal, closing, busy, gralloc) && i <= |order.slots|
    ensures var (streams', gralloc', r) := Turn(streams, gralloc, order, i, registered, memory);
      Resources(device, streams', r, fatal, closing, busy, gralloc')
  {
    var (streams', gralloc', r) := Turn(streams, gralloc, order, i, registered, memory);
    if r.Linking? {
      var c := order.slots[i].client;
      ResourcesPinned(device, streams, order, i, fatal, closing, busy, gralloc, c, order.slots[i].handle, streams'[c]);
    } else if gralloc' == gralloc {
      ResourcesOnward(device, streams, Registering(order, i), r, fatal, fatal, closing, busy, gralloc);
    } else {
      ResourcesUndone(device, streams, order, i, fatal, closing, busy, gralloc);
    }
  }

  lemma ResourcesLinked(device: Device, streams: Streams, order: Order, i: nat, fatal: bool, closing: bool,
      busy: bool, gralloc: Gralloc, c: Client)
    requires Resources(device, streams, Linking(order, i), fatal, closing, busy, gralloc) && c in streams
    ensures Resources(device, streams[c := streams[c].(registered := streams[c].buffers)], Registering(order, i + 1),
        fatal, closing, busy, gralloc)
  {
    var stream := streams[c].(registered := streams[c].buffers);
    ResourcesParts(device, streams, Linking(order, i), fatal, closing, busy, gralloc);
    ResourcesParts(device, streams[c := stream], Registering(order, i + 1), fatal, closing, busy, gralloc);
    PinsSame(streams, c, stream);
    AliveUpdated(device, streams, Linking(order, i), c, stream, Registering(order, i + 1));
  }

  lemma EndLinkKeepsResources(s: State, ok: bool)
    requires ResourcesOf(s) && s.request.Linking? && s.request.i < |s.request.order.slots|
    requires s.request.order.slots[s.request.i].client in s.streams
    ensures ResourcesOf(EndLink(s, ok))
  {
    var order, i := s.request.order, s.request.i;
    ResourcesLinked(s.device, s.streams, order, i, s.fatal, s.closing, !s.callback.Free?, s.gralloc,
        order.slots[i].client);
    ResourcesOnward(s.device, s.streams, s.request, Idle, s.fatal, true, s.closing, !s.callback.Free?, s.gralloc);
  }

  // New streams get addresses of their own.
  lemma {:induction false} FreshNumbered(list: seq<Client>, serial: nat)
    ensures Numbered(Fresh(list, serial), serial + |list|)
  {
    if list != [] {
      FreshNumbered(list[..|list| - 1], serial);
      FreshEmpty(list[..|list| - 1], serial);
    }
  }

  lemma AliveRenewed(device: Device, streams: Streams, list: seq<Client>)
    requires Alive(device, streams, Idle)
    ensures var next := Fresh(list, device.serial);
      var device' := device.(serial := device.serial + |list|);
      Alive(device', streams, Reopening(next))
      && Alive(device'.(held := device.held + Addresses(next)), streams, Configuring(next))
  {
    var next, device' := Fresh(list, device.serial), device.(serial := device.serial + |list|);
    FreshNumbered(list, device.serial);
    FreshEmpty(list, device.serial);
    AliveParts(device, streams, Idle);
    AliveParts(device', streams, Reopening(next));
    AliveParts(device'.(held := device.held + Addresses(next)), streams, Configuring(next));
  }

  lemma ResourcesReopening(device: Device, streams: Streams, list: seq<Client>, fatal: bool, closing: bool,
      busy: bool, gralloc: Gralloc)
    requires Resources(device, streams, Idle, fatal, closing, busy, gralloc) && !fatal
    ensures Resources(device.(serial := device.serial + |list|), streams, Reopening(Fresh(list, device.serial)), fatal,
        closing, busy, gralloc)
  {
    var next, device' := Fresh(list, device.serial), device.(serial := device.serial + |list|);
    ResourcesParts(device, streams, Idle, fatal, closing, busy, gralloc);
    ResourcesParts(device', streams, Reopening(next), fatal, closing, busy, gralloc);
    AliveRenewed(device, streams, list);
    FreshEmpty(list, device.serial);
  }

  lemma ResourcesConfiguring(device: Device, streams: Streams, list: seq<Client>, fatal: bool, closing: bool,
      busy: bool, gralloc: Gralloc)
    requires Resources(device, streams, Idle, fatal, closing, busy, gralloc) && !fatal
    ensures var next := Fresh(list, device.serial);
      Resources(device.(serial := device.serial + |list|, held := device.held + Addresses(next)), streams,
          Configuring(next), fatal, closing, busy, gralloc)
  {
    var next := Fresh(list, device.serial);
    var device' := device.(serial := device.serial + |list|, held := device.held + Addresses(next));
    ResourcesParts(device, streams, Idle, fatal, closing, busy, gralloc);
    ResourcesParts(device', streams, Configuring(next), fatal, closing, busy, gralloc);
    AliveRenewed(device, streams, list);
    FreshEmpty(list, device.serial);
  }

  lemma ConfigureKeepsResources(s: State, list: seq<Client>, memory: map<Client, Attributes>)
    requires ResourcesOf(s) && s.request.Idle?
    ensures ResourcesOf(Configure(s, list, memory))
  {
    var s' := Configure(s, list, memory);
    if !s.fatal {
      ResourcesReopening(s.device, s.streams, list, s.fatal, s.closing, !s.callback.Free?, s.gralloc);
      ResourcesConfiguring(s.device, s.streams, list, s.fatal, s.closing, !s.callback.Free?, s.gralloc);
    }
  }

  // The new streams are given up but kept; the device may hold their addresses.
  lemma ResourcesFailed(device: Device, streams: Streams, r: Request, fatal: bool, closing: bool, busy: bool,
      gralloc: Gralloc, device': Device)
    requires Resources(device, streams, r, fatal, closing, busy, gralloc) && (r.Configuring? || (r.Reopening? && !busy))
    requires device' == device.(failed := device.failed + Addresses(r.next))
      || (r.Reopening? && device' == device.(vendor := false, held := {}, failed := device.failed + Addresses(r.next)))
    ensures Resources(device', streams, Idle, true, closing, busy, gralloc)
  {
    ResourcesParts(device, streams, r, fatal, closing, busy, gralloc);
    AliveParts(device, streams, r);
    ResourcesParts(device', streams, Idle, true, closing, busy, gralloc);
    AliveParts(device', streams, Idle);
  }

  lemma ResourcesRestarted(device: Device, streams: Streams, next: Streams, fatal: bool, closing: bool, busy: bool,
      gralloc: Gralloc)
    requires Resources(device, streams, Reopening(next), fatal, closing, busy, gralloc)
    ensures Resources(device.(held := Addresses(next)), streams, Configuring(next), fatal, closing, busy, gralloc)
  {
    ResourcesParts(device, streams, Reopening(next), fatal, closing, busy, gralloc);
    AliveParts(device, streams, Reopening(next));
    ResourcesParts(device.(held := Addresses(next)), streams, Configuring(next), fatal, closing, busy, gralloc);
    AliveParts(device.(held := Addresses(next)), streams, Configuring(next));
  }

  lemma EndReopenKeepsResources(s: State, outcome: Reopened)
    requires ResourcesOf(s) && s.request.Reopening? && s.callback.Free?
    ensures ResourcesOf(EndReopen(s, outcome))
  {
    var s' := EndReopen(s, outcome);
    if outcome == Ready {
      ResourcesRestarted(s.device, s.streams, s.request.next, s.fatal, s.closing, false, s.gralloc);
    } else {
      ResourcesFailed(s.device, s.streams, s.request, s.fatal, s.closing, false, s.gralloc, s'.device);
    }
  }

  lemma ResourcesConfigured(device: Device, streams: Streams, next: Streams, fatal: bool, closing: bool, busy: bool,
      gralloc: Gralloc)
    requires Resources(device, streams, Configuring(next), fatal, closing, busy, gralloc)
    ensures Resources(device.(held := Addresses(next)), streams, Swapping(next), fatal, closing, busy, gralloc)
  {
    ResourcesParts(device, streams, Configuring(next), fatal, closing, busy, gralloc);
    AliveParts(device, streams, Configuring(next));
    ResourcesParts(device.(held := Addresses(next)), streams, Swapping(next), fatal, closing, busy, gralloc);
    AliveParts(device.(held := Addresses(next)), streams, Swapping(next));
  }

  lemma EndConfigureKeepsResources(s: State, ok: bool)
    requires ResourcesOf(s) && s.request.Configuring?
    ensures ResourcesOf(EndConfigure(s, ok))
  {
    var s' := EndConfigure(s, ok);
    if ok {
      ResourcesConfigured(s.device, s.streams, s.request.next, s.fatal, s.closing, !s.callback.Free?, s.gralloc);
    } else {
      ResourcesFailed(s.device, s.streams, s.request, s.fatal, s.closing, !s.callback.Free?, s.gralloc, s'.device);
    }
  }

  // The old streams are freed only when the device holds none of their addresses.
  lemma SwapKeepsResources(s: State)
    requires ResourcesOf(s) && s.request.Swapping?
    ensures ResourcesOf(Swap(s))
  {
    var s' := Swap(s);
    ResourcesParts(s.device, s.streams, s.request, s.fatal, s.closing, !s.callback.Free?, s.gralloc);
    AliveParts(s.device, s.streams, s.request);
    ResourcesParts(s'.device, s'.streams, s'.request, s'.fatal, s'.closing, !s'.callback.Free?, s'.gralloc);
    AliveParts(s'.device, s'.streams, s'.request);
    EmptyPins(s.request.next);
    EmptyPins(map[]);
  }

  lemma ReleaseKeepsResources(s: State, c: Client, h: Handle)
    requires ResourcesOf(s) && s.request.Releasing? && c in s.request.former && h in s.request.former[c].buffers
    ensures ResourcesOf(Release(s, c, h))
  {
    var s' := Release(s, c, h);
    ResourcesParts(s.device, s.streams, s.request, s.fatal, s.closing, !s.callback.Free?, s.gralloc);
    AliveParts(s.device, s.streams, s.request);
    ResourcesParts(s'.device, s'.streams, s'.request, s'.fatal, s'.closing, !s'.callback.Free?, s'.gralloc);
    AliveParts(s'.device, s'.streams, s'.request);
    PinDropped(s.request.former, c, h, s'.request.former[c]);
  }

  lemma ResourcesReleased(device: Device, streams: Streams, former: Streams, last: bool, fatal: bool, closing: bool,
      busy: bool, gralloc: Gralloc)
    requires Resources(device, streams, Releasing(former, last), fatal, closing, busy, gralloc) && Empty(former)
    ensures Resources(device, streams, if last then Closed else Idle, fatal, closing, busy, gralloc)
  {
    ResourcesParts(device, streams, Releasing(former, last), fatal, closing, busy, gralloc);
    AliveParts(device, streams, Releasing(former, last));
    ResourcesParts(device, streams, if last then Closed else Idle, fatal, closing, busy, gralloc);
    AliveParts(device, streams, if last then Closed else Idle);
    EmptyPins(former);
    EmptyPins(map[]);
  }

  lemma EndCloseKeepsResources(s: State)
    requires ResourcesOf(s) && s.request.ClosingVendor? && s.callback.Free?
    ensures ResourcesOf(EndClose(s))
  {
    var s' := EndClose(s);
    ResourcesParts(s.device, s.streams, s.request, s.fatal, s.closing, !s.callback.Free?, s.gralloc);
    AliveParts(s.device, s.streams, s.request);
    ResourcesParts(s'.device, s'.streams, s'.request, s'.fatal, s'.closing, !s'.callback.Free?, s'.gralloc);
    AliveParts(s'.device, s'.streams, s'.request);
    EmptyPins(map[]);
  }
}
