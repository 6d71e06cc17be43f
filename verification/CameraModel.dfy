// camera/Camera3Wrapper.cpp on values: the adapter's state and every step one thread
// takes while it holds stateMutex, or between two calls into the device or the client.
// The device and the client choose all step parameters.

module CameraModel {
  import opened Options
  import opened ResultMetadata

  const ENOMEM := 12
  const EINVAL := 22
  const EBUSY := 16
  const ENODEV := 19
  const ETIMEDOUT := 110

  // Pointers owned by the framework; 0 is null.
  type Client = int
  type Handle = int

  datatype Format = Blob | ImplementationDefined | YCbCr420 | Rgba8888 | Yv12 | OtherFormat
  datatype Attributes = Attributes(output: bool, width: nat, height: nat, format: Format, encoder: bool)

  // A configured stream: the address of the copy the device works on, the buffers
  // pinned for it and the set last registered with the device.
  datatype Stream = Stream(legacy: nat, buffers: set<Handle>, registered: set<Handle>)
  type Streams = map<Client, Stream>

  datatype Slot = Slot(client: Client, legacy: nat, handle: Handle)
  datatype Returned = Returned(stream: nat, handle: Option<Handle>, status: int, fence: int)
  datatype Output = Output(slot: nat, status: int, fence: int)

  // An accepted request.  From `packets` on the fields are history: the partial packets
  // merged, the final one, what the client was given, and whether the device refused it.
  datatype Frame = Frame(
    number: nat, slots: seq<Slot>, returned: seq<bool>, remaining: int,
    metadataDone: bool, shutterDone: bool, partials: Metadata,
    packets: seq<Packet>, last: Option<Packet>, delivered: seq<Output>, metadata: seq<Metadata>, errors: nat,
    refused: bool)

  datatype Order = Order(number: nat, slots: seq<Slot>, settings: bool)

  // What the holder of requestMutex is doing.
  datatype Request =
    | Idle
    | Reopening(next: Streams)
    | Configuring(next: Streams)
    | Swapping(next: Streams)
    | Releasing(former: Streams, closing: bool)
    | Draining(order: Order)
    | Registering(order: Order, i: nat)
    | Linking(order: Order, i: nat)
    | Building(order: Order)
    | Submitting(frame: nat)
    | Flushing
    | ClosingVendor
    | Closed

  datatype Code = DeviceError | RequestError | ResultError | BufferError
  datatype Message<S> = Shutter(number: nat) | Error(number: nat, stream: Option<S>, code: Code) | Unknown

  // What the holder of callbackMutex is doing.
  datatype Callback =
    | Free
    | Delivering(frame: nat, outputs: seq<Output>, metadata: Option<Metadata>, error: bool)
    | Forwarding(message: Message<Client>, about: Option<nat>)
    | Retiring(number: nat)

  // The device: whether it may call back and is open, the next stream address, the
  // streams kept after a failed configuration and the addresses it may still hold.
  datatype Device = Device(ready: bool, vendor: bool, serial: nat, failed: set<nat>, held: set<nat>)
  datatype Gralloc = Gralloc(registrations: nat, unregistrations: nat)
  datatype Fences = Fences(received: multiset<int>, forwarded: multiset<int>, closed: multiset<int>)

  datatype State = State(
    device: Device, fatal: bool, closing: bool,
    streams: Streams, frames: map<nat, nat>, all: seq<Frame>,
    request: Request, callback: Callback,
    gralloc: Gralloc, fences: Fences, primed: bool, templates: map<int, int>)

  function Initial(): State {
    State(Device(false, true, 0, {}, {}), false, false, map[], map[], [], Idle, Free,
          Gralloc(0, 0), Fences(multiset{}, multiset{}, multiset{}), false, map[])
  }

  predicate InFlight(s: State, number: nat) {
    number in s.frames && s.frames[number] < |s.all|
  }

  // Results -------------------------------------------------------------------

  predicate Matches(f: Frame, k: nat, r: Returned) {
    && k < |f.slots| && k < |f.returned|
    && f.slots[k].legacy == r.stream && r.handle == Some(f.slots[k].handle) && !f.returned[k]
  }

  // The first outstanding slot a returned buffer fits, or the number of slots.
  function Fit(f: Frame, r: Returned, from: nat): (k: nat)
    requires from <= |f.slots|
    ensures from <= k <= |f.slots|
    ensures k < |f.slots| ==> Matches(f, k, r)
    ensures forall j: nat :: from <= j < k ==> !Matches(f, j, r)
    decreases |f.slots| - from
  {
    if from == |f.slots| || Matches(f, from, r) then from else Fit(f, r, from + 1)
  }

  function FencesOf(buffers: seq<Returned>): multiset<int> {
    if buffers == [] then multiset{} else
      FencesOf(buffers[..|buffers| - 1]) + Fence(buffers[|buffers| - 1].fence)
  }

  function OutputFences(outputs: seq<Output>): multiset<int> {
    if outputs == [] then multiset{} else
      OutputFences(outputs[..|outputs| - 1]) + Fence(outputs[|outputs| - 1].fence)
  }

  function Fence(fence: int): multiset<int> {
    if fence >= 0 then multiset{fence} else multiset{}
  }

  datatype Absorbed = Absorbed(frame: Frame, outputs: seq<Output>, closed: multiset<int>, bad: bool)

  function AbsorbOne(a: Absorbed, r: Returned): Absorbed {
    var k := Fit(a.frame, r, 0);
    if k == |a.frame.slots| then a.(closed := a.closed + Fence(r.fence), bad := true)
    else a.(frame := a.frame.(returned := a.frame.returned[k := true], remaining := a.frame.remaining - 1),
            outputs := a.outputs + [Output(k, r.status, r.fence)])
  }

  // The buffers of one result against the outstanding slots of its frame.
  function Absorb(f: Frame, buffers: seq<Returned>): Absorbed {
    if buffers == [] then Absorbed(f, [], multiset{}, false)
    else AbsorbOne(Absorb(f, buffers[..|buffers| - 1]), buffers[|buffers| - 1])
  }

  // The metadata of one result; `ok` is false when memory ran out while merging.
  function TakePacket(f: Frame, packet: Packet, ok: bool): (Frame, Option<Metadata>, bool) {
    if f.metadataDone then (f, None, false)
    else if !ok then (f.(metadataDone := true), None, true)
    else if IsPartial(packet) then
      (f.(partials := Merge(f.partials, packet), packets := f.packets + [packet]), None, false)
    else (f.(metadataDone := true, last := Some(packet)), Some(Finish(packet, f.partials)), false)
  }

  function Taken(f: Frame, packet: Option<Packet>, ok: bool): (Frame, Option<Metadata>, bool) {
    if packet.None? then (f, None, false) else TakePacket(f, packet.value, ok)
  }

  function Result(s: State, number: nat, packet: Option<Packet>, ok: bool, buffers: seq<Returned>): State {
    if !InFlight(s, number) then
      s.(fences := Fences(s.fences.received + FencesOf(buffers), s.fences.forwarded,
                          s.fences.closed + FencesOf(buffers)))
    else
      var u := s.frames[number];
      var (f, metadata, error) := Taken(s.all[u], packet, ok);
      var a := Absorb(f, buffers);
      s.(all := s.all[u := a.frame], fatal := s.fatal || a.bad, callback := Delivering(u, a.outputs, metadata, error),
         fences := Fences(s.fences.received + FencesOf(buffers), s.fences.forwarded, s.fences.closed + a.closed))
  }

  // The calls into the client, with only callbackMutex held.
  function Deliver(s: State): State
    requires s.callback.Delivering? && s.callback.frame < |s.all|
  {
    var c := s.callback;
    var f := s.all[c.frame];
    s.(all := s.all[c.frame := f.(delivered := f.delivered + c.outputs,
                                  metadata := f.metadata + if c.metadata.Some? then [c.metadata.value] else [],
                                  errors := f.errors + if c.error then 1 else 0)],
       fences := s.fences.(forwarded := s.fences.forwarded + OutputFences(c.outputs)), callback := Retiring(f.number))
  }

  predicate Complete(f: Frame) {
    f.remaining == 0 && f.metadataDone && f.shutterDone
  }

  function Retire(s: State): State
    requires s.callback.Retiring?
  {
    var n := s.callback.number;
    s.(frames := if InFlight(s, n) && Complete(s.all[s.frames[n]]) then s.frames - {n} else s.frames, callback := Free)
  }

  // Notifications -------------------------------------------------------------

  function Notified(f: Frame, message: Message<nat>): Frame {
    match message
    case Shutter(_) => f.(shutterDone := true)
    case Error(_, _, code) =>
      f.(metadataDone := f.metadataDone || code == RequestError || code == ResultError,
         shutterDone := f.shutterDone || code == RequestError)
    case Unknown => f
  }

  ghost function ClientOf(streams: Streams, legacy: nat): Option<Client> {
    if c :| c in streams && streams[c].legacy == legacy then Some(c) else None
  }

  ghost function Converted(streams: Streams, message: Message<nat>): Message<Client> {
    match message
    case Shutter(number) => Shutter(number)
    case Error(number, stream, code) =>
      Error(number, if stream.Some? then ClientOf(streams, stream.value) else None, code)
    case Unknown => Unknown
  }

  ghost function Notify(s: State, message: Message<nat>): State {
    if message.Unknown? then s.(callback := Forwarding(Unknown, None)) else
      var n := message.number;
      s.(all := if InFlight(s, n) then s.all[s.frames[n] := Notified(s.all[s.frames[n]], message)] else s.all,
         fatal := s.fatal || (message.Error? && message.code == DeviceError),
         callback := Forwarding(Converted(s.streams, message), Some(n)))
  }

  function Forward(s: State): State
    requires s.callback.Forwarding?
  {
    s.(callback := if s.callback.about.Some? then Retiring(s.callback.about.value) else Free)
  }

  // Capture -------------------------------------------------------------------

  predicate Open(s: State) {
    !s.fatal && !s.closing && s.device.ready
  }

  // The buffers of a request: for known streams, none null, no stream twice.
  predicate Usable(streams: Streams, buffers: seq<(Client, Handle)>) {
    && |buffers| > 0
    && (forall i :: 0 <= i < |buffers| ==> buffers[i].0 in streams && buffers[i].1 != 0)
    && (forall i, j :: 0 <= i < j < |buffers| ==> buffers[i].0 != buffers[j].0)
  }

  function Slots(streams: Streams, buffers: seq<(Client, Handle)>): (r: seq<Slot>)
    requires forall i :: 0 <= i < |buffers| ==> buffers[i].0 in streams
    ensures |r| == |buffers|
    ensures forall i :: 0 <= i < |r| ==> r[i] == Slot(buffers[i].0, streams[buffers[i].0].legacy, buffers[i].1)
  {
    seq(|buffers|, i requires 0 <= i < |buffers| && buffers[i].0 in streams =>
      Slot(buffers[i].0, streams[buffers[i].0].legacy, buffers[i].1))
  }

  predicate Pinned(streams: Streams, slot: Slot) {
    slot.client in streams && slot.handle in streams[slot.client].buffers
  }

  function Capture(s: State, number: nat, buffers: seq<(Client, Handle)>, settings: bool): State {
    if !Open(s) || number in s.frames || !Usable(s.streams, buffers) then s else
      var order := Order(number, Slots(s.streams, buffers), settings);
      s.(request := if forall i :: 0 <= i < |order.slots| ==> Pinned(s.streams, order.slots[i])
                    then Building(order) else Draining(order))
  }

  predicate Drained(s: State) {
    s.frames == map[] && !s.fatal
  }

  // drain() when its wait ends, which is sooner or later.
  function DrainCode(s: State): int {
    if s.frames != map[] && !s.fatal then -ETIMEDOUT else if s.fatal then -ENODEV else 0
  }

  function EndDrain(s: State): State
    requires s.request.Draining?
  {
    s.(request := if Drained(s) then Registering(s.request.order, 0) else Idle)
  }

  // One turn of the registration loop up to the call into the device: whether gralloc
  // accepts the buffer and whether there is memory for a reference to it.
  function Turn(streams: Streams, gralloc: Gralloc, order: Order, i: nat, registered: bool, memory: bool): (Streams,
      Gralloc, Request)
    requires i <= |order.slots|
  {
    if i == |order.slots| then (streams, gralloc, Building(order))
    else if Pinned(streams, order.slots[i]) then (streams, gralloc, Registering(order, i + 1))
    else if !registered || order.slots[i].client !in streams then (streams, gralloc, Idle)
    else if !memory then (streams, Gralloc(gralloc.registrations + 1, gralloc.unregistrations + 1), Idle)
    else
      var c, h := order.slots[i].client, order.slots[i].handle;
      (streams[c := streams[c].(buffers := streams[c].buffers + {h})],
       gralloc.(registrations := gralloc.registrations + 1), Linking(order, i))
  }

  function PinNext(s: State, registered: bool, memory: bool): State
    requires s.request.Registering? && s.request.i <= |s.request.order.slots|
  {
    var (streams, gralloc, request) := Turn(s.streams, s.gralloc, s.request.order, s.request.i, registered, memory);
    s.(streams := streams, gralloc := gralloc, request := request)
  }

  // The device's answer to register_stream_buffers.
  function EndLink(s: State, ok: bool): State
    requires s.request.Linking? && s.request.i < |s.request.order.slots|
    requires s.request.order.slots[s.request.i].client in s.streams
  {
    var order, i := s.request.order, s.request.i;
    if !ok then s.(fatal := true, request := Idle) else
      var c := order.slots[i].client;
      s.(streams := s.streams[c := s.streams[c].(registered := s.streams[c].buffers)],
         request := Registering(order, i + 1))
  }

  function NewFrame(order: Order): Frame {
    Frame(order.number, order.slots, seq(|order.slots|, _ => false), |order.slots|, false, false, map[],
          [], None, [], [], 0, false)
  }

  // Settings are normalized, the frame is put in flight and the device is called.
  function Build(s: State, normalized: bool): State
    requires s.request.Building?
  {
    var order := s.request.order;
    if (if order.settings then !normalized else !s.primed) then s.(request := Idle) else
      s.(primed := true, all := s.all + [NewFrame(order)], frames := s.frames[order.number := |s.all|],
         request := Submitting(|s.all|))
  }

  function EndSubmit(s: State, ok: bool): State
    requires s.request.Submitting? && s.request.frame < |s.all|
  {
    var u := s.request.frame;
    if ok then s.(request := Idle) else
      s.(frames := s.frames - {s.all[u].number}, all := s.all[u := s.all[u].(refused := true)], request := Idle)
  }

  // Configuration ---------------------------------------------------------------

  function Look(memory: map<Client, Attributes>, c: Client): Attributes {
    if c in memory then memory[c] else Attributes(false, 0, 0, OtherFormat, false)
  }

  predicate Processed(format: Format) {
    format in {ImplementationDefined, YCbCr420, Rgba8888, Yv12}
  }

  function Geometry(clients: set<Client>, memory: map<Client, Attributes>): set<(nat, nat)> {
    set c | c in clients && Processed(Look(memory, c).format) && !Look(memory, c).encoder ::
      (Look(memory, c).width, Look(memory, c).height)
  }

  predicate Counted(memory: map<Client, Attributes>, c: Client, known: set<Client>) {
    var format := Look(memory, c).format;
    format in {ImplementationDefined, YCbCr420, Rgba8888} || (format == Yv12 && c in known)
  }

  function ProcessedCount(list: seq<Client>, memory: map<Client, Attributes>): nat {
    if list == [] then 0 else
      ProcessedCount(list[..|list| - 1], memory) + if Processed(Look(memory, list[|list| - 1]).format) then 1 else 0
  }

  function JpegCount(list: seq<Client>, memory: map<Client, Attributes>): nat {
    if list == [] then 0 else
      JpegCount(list[..|list| - 1], memory) + if Look(memory, list[|list| - 1]).format == Blob then 1 else 0
  }

  predicate Acceptable(memory: map<Client, Attributes>, c: Client, known: set<Client>) {
    && c != 0 && Look(memory, c).output && Look(memory, c).width > 0 && Look(memory, c).height > 0
    && (Look(memory, c).format == Blob || Counted(memory, c, known))
  }

  // Sizes set, at most three processed outputs and one JPEG, none twice; YV12 only for
  // a stream already configured.
  predicate Supported(list: seq<Client>, memory: map<Client, Attributes>, known: set<Client>) {
    && |list| > 0
    && (forall i :: 0 <= i < |list| ==> Acceptable(memory, list[i], known))
    && (forall i, j :: 0 <= i < j < |list| ==> list[i] != list[j])
    && ProcessedCount(list, memory) <= 3 && JpegCount(list, memory) <= 1
  }

  function Fresh(list: seq<Client>, serial: nat): Streams {
    if list == [] then map[] else
      Fresh(list[..|list| - 1], serial)[list[|list| - 1] := Stream(serial + |list| - 1, {}, {})]
  }

  function Addresses(streams: Streams): set<nat> {
    set c | c in streams :: streams[c].legacy
  }

  function Configure(s: State, list: seq<Client>, memory: map<Client, Attributes>): State {
    if !Open(s) || s.frames != map[] || !Supported(list, memory, s.streams.Keys) then s else
      var next := Fresh(list, s.device.serial);
      var s' := s.(device := s.device.(serial := s.device.serial + |list|));
      if s.streams != map[] && Geometry(s.streams.Keys, memory) != Geometry(next.Keys, memory)
      then s'.(request := Reopening(next))
      else s'.(request := Configuring(next), device := s'.device.(held := s.device.held + Addresses(next)))
  }

  datatype Reopened = NoModule | NotOpened | Ready

  // reopenVendor; closing the device waits for its callbacks.
  function EndReopen(s: State, outcome: Reopened): State
    requires s.request.Reopening?
  {
    var next := s.request.next;
    match outcome
    case NoModule =>
      s.(fatal := true, device := s.device.(failed := s.device.failed + Addresses(next)), request := Idle)
    case NotOpened =>
      s.(device := s.device.(vendor := false, held := {}, failed := s.device.failed + Addresses(next)), fatal := true,
         request := Idle)
    case Ready => s.(device := s.device.(held := Addresses(next)), request := Configuring(next))
  }

  function EndConfigure(s: State, ok: bool): State
    requires s.request.Configuring?
  {
    var next := s.request.next;
    if ok then s.(device := s.device.(held := Addresses(next)), request := Swapping(next))
    else s.(fatal := true, device := s.device.(failed := s.device.failed + Addresses(next)), request := Idle)
  }

  function Swap(s: State): State
    requires s.request.Swapping?
  {
    s.(streams := s.request.next, primed := false, request := Releasing(s.streams, false))
  }

  // The destructor of one pinned buffer.
  function Release(s: State, c: Client, handle: Handle): State
    requires s.request.Releasing? && c in s.request.former
  {
    var stream := s.request.former[c];
    s.(gralloc := s.gralloc.(unregistrations := s.gralloc.unregistrations + 1),
       request := Releasing(s.request.former[c := stream.(buffers := stream.buffers - {handle})], s.request.closing))
  }

  // Closing the device; it returns when its callbacks have.
  function EndClose(s: State): State
    requires s.request.ClosingVendor?
  {
    s.(device := s.device.(vendor := false, held := {}, failed := {}), frames := map[], streams := map[],
       request := Releasing(s.streams, true))
  }

  // Runs ------------------------------------------------------------------------

  datatype CaptureStep =
    | BeginCapture(number: nat, buffers: seq<(Client, Handle)>, settings: bool)
    | DrainEnds
    | PinsNext(registered: bool, memory: bool)
    | LinkEnds(ok: bool)
    | Builds(normalized: bool)
    | SubmitEnds(ok: bool)

  datatype ConfigureStep =
    | BeginConfigure(list: seq<Client>, attributes: map<Client, Attributes>)
    | ReopenEnds(outcome: Reopened)
    | ConfigureEnds(ok: bool)
    | Swaps
    | Releases(client: Client, handle: Handle)
    | Released

  datatype DeviceStep =
    | Initialize(ok: bool)
    | BeginFlush
    | FlushEnds(code: int)
    | Template(kind: int, content: int)
    | BeginClose
    | CloseEnds

  datatype CallbackStep =
    | GetsResult(number: nat, packet: Option<Packet>, ok: bool, returned: seq<Returned>)
    | Delivers
    | GetsNotice(message: Message<nat>)
    | Forwards
    | Retires

  // One thread holds requestMutex and one callbackMutex.
  datatype Step = OfCapture(c: CaptureStep) | OfConfigure(f: ConfigureStep) | OfDevice(d: DeviceStep)
    | OfCallback(b: CallbackStep)

  predicate Empty(streams: Streams) {
    forall c :: c in streams ==> streams[c].buffers == {}
  }

  predicate CanCapture(s: State, step: CaptureStep) {
    match step
    case BeginCapture(_, _, _) => s.request.Idle?
    case DrainEnds => s.request.Draining?
    case PinsNext(_, _) => s.request.Registering? && s.request.i <= |s.request.order.slots|
    case LinkEnds(_) =>
      && s.request.Linking? && s.request.i < |s.request.order.slots|
      && s.request.order.slots[s.request.i].client in s.streams
    case Builds(_) => s.request.Building?
    case SubmitEnds(_) => s.request.Submitting? && s.request.frame < |s.all|
  }

  function OnCapture(s: State, step: CaptureStep): State
    requires CanCapture(s, step)
  {
    match step
    case BeginCapture(number, buffers, settings) => Capture(s, number, buffers, settings)
    case DrainEnds => EndDrain(s)
    case PinsNext(registered, memory) => PinNext(s, registered, memory)
    case LinkEnds(ok) => EndLink(s, ok)
    case Builds(normalized) => Build(s, normalized)
    case SubmitEnds(ok) => EndSubmit(s, ok)
  }

  predicate CanConfigure(s: State, step: ConfigureStep) {
    match step
    case BeginConfigure(_, _) => s.request.Idle?
    case ReopenEnds(_) => s.request.Reopening? && s.callback.Free?
    case ConfigureEnds(_) => s.request.Configuring?
    case Swaps => s.request.Swapping?
    case Releases(c, h) => s.request.Releasing? && c in s.request.former && h in s.request.former[c].buffers
    case Released => s.request.Releasing? && Empty(s.request.former)
  }

  function OnConfigure(s: State, step: ConfigureStep): State
    requires CanConfigure(s, step)
  {
    match step
    case BeginConfigure(list, attributes) => Configure(s, list, attributes)
    case ReopenEnds(outcome) => EndReopen(s, outcome)
    case ConfigureEnds(ok) => EndConfigure(s, ok)
    case Swaps => Swap(s)
    case Releases(c, h) => Release(s, c, h)
    case Released => s.(request := if s.request.closing then Closed else Idle)
  }

  predicate CanRun(s: State, step: DeviceStep) {
    match step
    case Initialize(_) => s.request.Idle? && !s.device.ready
    case BeginFlush => s.request.Idle?
    case FlushEnds(code) => s.request.Flushing? && code == DrainCode(s)
    case Template(_, _) => s.request.Idle?
    case BeginClose => s.request.Idle?
    case CloseEnds => s.request.ClosingVendor? && s.callback.Free?
  }

  function OnDevice(s: State, step: DeviceStep): State
    requires CanRun(s, step)
  {
    match step
    case Initialize(ok) => s.(device := s.device.(ready := ok))
    case BeginFlush => s.(request := Flushing)
    case FlushEnds(_) => s.(request := Idle)
    case Template(kind, content) =>
      if s.device.vendor && kind !in s.templates then s.(templates := s.templates[kind := content]) else s
    case BeginClose => s.(closing := true, request := ClosingVendor)
    case CloseEnds => EndClose(s)
  }

  // The device calls back only while it is open and initialized.
  predicate CanCall(s: State, step: CallbackStep) {
    match step
    case GetsResult(_, _, _, _) => s.device.vendor && s.device.ready && s.callback.Free?
    case Delivers => s.callback.Delivering? && s.callback.frame < |s.all|
    case GetsNotice(_) => s.device.vendor && s.device.ready && s.callback.Free?
    case Forwards => s.callback.Forwarding?
    case Retires => s.callback.Retiring?
  }

  ghost function OnCallback(s: State, step: CallbackStep): State
    requires CanCall(s, step)
  {
    match step
    case GetsResult(number, packet, ok, returned) => Result(s, number, packet, ok, returned)
    case Delivers => Deliver(s)
    case GetsNotice(message) => Notify(s, message)
    case Forwards => Forward(s)
    case Retires => Retire(s)
  }

  predicate Enabled(s: State, step: Step) {
    match step
    case OfCapture(c) => CanCapture(s, c)
    case OfConfigure(f) => CanConfigure(s, f)
    case OfDevice(d) => CanRun(s, d)
    case OfCallback(b) => CanCall(s, b)
  }

  ghost function Apply(s: State, step: Step): State
    requires Enabled(s, step)
  {
    match step
    case OfCapture(c) => OnCapture(s, c)
    case OfConfigure(f) => OnConfigure(s, f)
    case OfDevice(d) => OnDevice(s, d)
    case OfCallback(b) => OnCallback(s, b)
  }

  ghost function Exec(s: State, steps: seq<Step>): Option<State> {
    if steps == [] then Some(s) else
      var before, last := Exec(s, steps[..|steps| - 1]), steps[|steps| - 1];
      if before.Some? && Enabled(before.value, last) then Some(Apply(before.value, last)) else None
  }

  // Some run leads from one state to the other.
  ghost predicate Runs(s: State, s': State) {
    exists steps: seq<Step> :: Exec(s, steps) == Some(s')
  }

  ghost predicate Reachable(s: State) {
    Runs(Initial(), s)
  }
}
