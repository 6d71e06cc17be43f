// What the client of the camera adapter gets for a request, in terms of what the device
// sent in the run and of nothing else.

module CameraHistory {
  import opened Options
  import opened ResultMetadata
  import opened CameraModel
  import opened CameraProofs
  import opened CameraTheorems

  // The device's messages ------------------------------------------------------------

  // The first entry of the quirk says so.
  predicate MarkedPartial(packet: Packet) {
    exists i :: 0 <= i < |packet| && packet[i] == Entry(QuirksPartialResult, [1])
      && forall j :: 0 <= j < i ==> packet[j].tag != QuirksPartialResult
  }

  lemma {:induction false} FindFirst(packet: Packet, tag: Tag, data: seq<int>)
    ensures Find(packet, tag) == Some(data) <==>
      exists i :: 0 <= i < |packet| && packet[i] == Entry(tag, data) && forall j :: 0 <= j < i ==> packet[j].tag != tag
    decreases packet
  {
    if packet != [] {
      FindFirst(packet[1..], tag, data);
      if packet[0].tag != tag {
        if Find(packet[1..], tag) == Some(data) {
          var i :| 0 <= i < |packet| - 1 && packet[1..][i] == Entry(tag, data)
            && forall j :: 0 <= j < i ==> packet[1..][j].tag != tag;
          assert packet[i + 1] == Entry(tag, data)
            && forall j :: 0 < j < i + 1 ==> packet[j] == packet[1..][j - 1];
        }
        if i :| 0 <= i < |packet| && packet[i] == Entry(tag, data) && forall j :: 0 <= j < i ==> packet[j].tag != tag {
          assert packet[1..][i - 1] == Entry(tag, data);
        }
      } else {
        assert packet[0] == Entry(tag, packet[0].data);
      }
    }
  }

  lemma PartialExact(packet: Packet)
    ensures IsPartial(packet) <==> MarkedPartial(packet)
  {
    FindFirst(packet, QuirksPartialResult, [1]);
  }

  // What a step brings for request u, if it is in flight: a packet, or a message.
  datatype News = Nothing | Sent(packet: Packet, ok: bool) | Told(message: Message<nat>)

  function NewsFor(frames: map<nat, nat>, step: Step, u: nat): News {
    if !step.OfCallback? then Nothing
    else match step.b
      case GetsResult(number, packet, ok, _) =>
        if number in frames && frames[number] == u && packet.Some? then Sent(packet.value, ok) else Nothing
      case GetsNotice(message) =>
        if !message.Unknown? && message.number in frames && frames[message.number] == u then Told(message) else Nothing
      case _ => Nothing
  }

  // A shutter, or an error for the whole request.
  predicate Shows(n: News) {
    n.Told? && (n.message.Shutter? || (n.message.Error? && n.message.code == RequestError))
  }

  // An error that says there will be no metadata.
  predicate Reports(n: News) {
    n.Told? && n.message.Error? && n.message.code in {RequestError, ResultError}
  }

  // A final packet, or one for which memory ran out.
  predicate Finishes(n: News) {
    n.Sent? && (!n.ok || !MarkedPartial(n.packet))
  }

  predicate Ends(n: News) {
    Finishes(n) || Reports(n)
  }

  // Accounts -------------------------------------------------------------------------

  // The flags of a request, the packets merged, and what the client has or is owed.
  datatype Account = Account(shutter: bool, done: bool, packets: seq<Packet>, metadata: seq<Metadata>, errors: nat)

  const Blank := Account(false, false, [], [], 0)

  // A packet counts until the metadata is done: a partial one is kept, a final one gives
  // the client the metadata, one without memory an error.
  function Post(a: Account, n: News): Account {
    var b := a.(shutter := a.shutter || Shows(n), done := a.done || Ends(n));
    if !n.Sent? || a.done then b
    else if !n.ok then b.(errors := a.errors + 1)
    else if MarkedPartial(n.packet) then b.(packets := a.packets + [n.packet])
    else b.(metadata := a.metadata + [Finish(n.packet, Overlay(a.packets))])
  }

  function AccountOf(f: Frame, c: Callback, u: nat): Account {
    Account(f.shutterDone, f.metadataDone, f.packets, f.metadata + DueMetadata(c, u), f.errors + DueErrors(c, u))
  }

  function At(all: seq<Frame>, c: Callback, u: nat): Account {
    if u < |all| then AccountOf(all[u], c, u) else Blank
  }

  // One step on one frame ------------------------------------------------------------

  lemma DuesOfNone(f: Frame, c: Callback, u: nat)
    requires !c.Delivering? || c.frame != u
    ensures AccountOf(f, c, u) == Account(f.shutterDone, f.metadataDone, f.packets, f.metadata, f.errors)
  {
    assert f.metadata + [] == f.metadata;
  }

  lemma {:induction false} AbsorbKeeps(f: Frame, buffers: seq<Returned>)
    ensures var g := Absorb(f, buffers).frame; g == f.(returned := g.returned, remaining := g.remaining)
  {
    if buffers != [] {
      AbsorbKeeps(f, buffers[..|buffers| - 1]);
    }
  }

  // The packet of a result is posted to the account of its frame.
  lemma PacketPosts(f: Frame, c: Callback, u: nat, packet: Option<Packet>, ok: bool, outputs: seq<Output>)
    requires !c.Delivering? && (!f.metadataDone ==> f.partials == Overlay(f.packets))
    ensures var (g, m, e) := Taken(f, packet, ok);
      AccountOf(g, Delivering(u, outputs, m, e), u)
        == Post(AccountOf(f, c, u), if packet.Some? then Sent(packet.value, ok) else Nothing)
  {
    DuesOfNone(f, c, u);
    if packet.Some? {
      PartialExact(packet.value);
    }
    assert f.metadata + [] == f.metadata;
  }

  lemma SameAccount(f: Frame, g: Frame, c: Callback, u: nat)
    requires g == f.(returned := g.returned, remaining := g.remaining)
    ensures AccountOf(f, c, u) == AccountOf(g, c, u)
  {}

  lemma ResultPosts(f: Frame, c: Callback, u: nat, packet: Option<Packet>, ok: bool, buffers: seq<Returned>)
    requires !c.Delivering? && (!f.metadataDone ==> f.partials == Overlay(f.packets))
    ensures var (g, m, e) := Taken(f, packet, ok);
      var a := Absorb(g, buffers);
      AccountOf(a.frame, Delivering(u, a.outputs, m, e), u)
        == Post(AccountOf(f, c, u), if packet.Some? then Sent(packet.value, ok) else Nothing)
  {
    var (g, m, e) := Taken(f, packet, ok);
    var a := Absorb(g, buffers);
    PacketPosts(f, c, u, packet, ok, a.outputs);
    AbsorbKeeps(g, buffers);
    SameAccount(g, a.frame, Delivering(u, a.outputs, m, e), u);
  }

  lemma NoticePosts(f: Frame, c: Callback, d: Callback, u: nat, message: Message<nat>)
    requires !c.Delivering? && !d.Delivering? && !message.Unknown?
    ensures AccountOf(Notified(f, message), d, u) == Post(AccountOf(f, c, u), Told(message))
  {
    DuesOfNone(f, c, u);
    DuesOfNone(Notified(f, message), d, u);
  }

  lemma DeliverPosts(f: Frame, u: nat, outputs: seq<Output>, m: Option<Metadata>, e: bool, g: Frame, d: Callback)
    requires !d.Delivering?
    requires g == f.(delivered := f.delivered + outputs, metadata := f.metadata + if m.Some? then [m.value] else [],
                     errors := f.errors + if e then 1 else 0)
    ensures AccountOf(g, d, u) == AccountOf(f, Delivering(u, outputs, m, e), u)
  {
    DuesOfNone(g, d, u);
  }

  // The callback's steps post what they bring.
  lemma ResultStep(s: State, number: nat, packet: Option<Packet>, ok: bool, buffers: seq<Returned>, u: nat)
    requires s.callback.Free? && u < |s.all| && Table(s.frames, s.all)
    requires !s.all[u].metadataDone ==> s.all[u].partials == Overlay(s.all[u].packets)
    ensures var s' := Result(s, number, packet, ok, buffers);
      At(s'.all, s'.callback, u)
        == Post(At(s.all, s.callback, u), NewsFor(s.frames, OfCallback(GetsResult(number, packet, ok, buffers)), u))
  {
    var s' := Result(s, number, packet, ok, buffers);
    if number in s.frames && s.frames[number] == u {
      ResultPosts(s.all[u], s.callback, u, packet, ok, buffers);
    } else {
      DuesOfNone(s.all[u], s.callback, u);
      DuesOfNone(s.all[u], s'.callback, u);
    }
  }

  lemma NoticeStep(s: State, message: Message<nat>, u: nat)
    requires s.callback.Free? && u < |s.all|
    ensures var s' := Notify(s, message);
      At(s'.all, s'.callback, u)
        == Post(At(s.all, s.callback, u), NewsFor(s.frames, OfCallback(GetsNotice(message)), u))
  {
    var s' := Notify(s, message);
    if !message.Unknown? && message.number in s.frames && s.frames[message.number] == u {
      NoticePosts(s.all[u], s.callback, s'.callback, u, message);
    } else {
      DuesOfNone(s.all[u], s.callback, u);
      DuesOfNone(s.all[u], s'.callback, u);
    }
  }

  lemma DeliverStep(s: State, u: nat)
    requires s.callback.Delivering? && s.callback.frame < |s.all| && u < |s.all|
    ensures At(Deliver(s).all, Deliver(s).callback, u) == At(s.all, s.callback, u)
  {
    var c, s' := s.callback, Deliver(s);
    if c.frame == u {
      DeliverPosts(s.all[u], u, c.outputs, c.metadata, c.error, s'.all[u], s'.callback);
    } else {
      DuesOfNone(s.all[u], c, u);
      DuesOfNone(s.all[u], s'.callback, u);
    }
  }

  lemma QuietStep(s: State, step: CallbackStep, u: nat)
    requires CanCall(s, step) && (step.Forwards? || step.Retires?) && u < |s.all|
    ensures OnCallback(s, step).all == s.all
    ensures At(s.all, OnCallback(s, step).callback, u) == At(s.all, s.callback, u)
  {
    DuesOfNone(s.all[u], s.callback, u);
    DuesOfNone(s.all[u], OnCallback(s, step).callback, u);
  }

  lemma CallbackPosts(s: State, step: CallbackStep, u: nat)
    requires CanCall(s, step) && u < |s.all| && Table(s.frames, s.all)
    requires !s.all[u].metadataDone ==> s.all[u].partials == Overlay(s.all[u].packets)
    ensures At(OnCallback(s, step).all, OnCallback(s, step).callback, u)
      == Post(At(s.all, s.callback, u), NewsFor(s.frames, OfCallback(step), u))
  {
    match step
    case GetsResult(number, packet, ok, returned) => ResultStep(s, number, packet, ok, returned, u);
    case GetsNotice(message) => NoticeStep(s, message, u);
    case Delivers => DeliverStep(s, u);
    case Forwards => QuietStep(s, step, u);
    case Retires => QuietStep(s, step, u);
  }

  // The request thread posts nothing, and opens blank accounts.
  lemma NewIsBlank(order: Order, c: Callback, u: nat)
    requires c.Delivering? ==> c.frame != u
    ensures AccountOf(NewFrame(order), c, u) == Blank
  {
    DuesOfNone(NewFrame(order), c, u);
  }

  lemma CapturePosts(s: State, step: CaptureStep, u: nat)
    requires CanCapture(s, step) && (s.callback.Delivering? ==> s.callback.frame < |s.all|)
    ensures At(OnCapture(s, step).all, OnCapture(s, step).callback, u) == At(s.all, s.callback, u)
  {
    match step
    case BeginCapture(_, _, _) =>
    case DrainEnds =>
    case PinsNext(_, _) =>
    case LinkEnds(ok) => assert EndLink(s, ok).all == s.all && EndLink(s, ok).callback == s.callback;
    case Builds(_) =>
      if s.request.Building? && u == |s.all| {
        NewIsBlank(s.request.order, s.callback, u);
      }
    case SubmitEnds(_) => SubmitPosts(s, step.ok, u);
  }

  lemma SubmitPosts(s: State, ok: bool, u: nat)
    requires s.request.Submitting? && s.request.frame < |s.all|
    ensures At(EndSubmit(s, ok).all, EndSubmit(s, ok).callback, u) == At(s.all, s.callback, u)
  {
    var s' := EndSubmit(s, ok);
    if u < |s.all| {
      assert s'.all[u] == s.all[u].(refused := s'.all[u].refused);
    }
  }

  lemma ConfigurePosts(s: State, step: ConfigureStep)
    requires CanConfigure(s, step)
    ensures OnConfigure(s, step).all == s.all && OnConfigure(s, step).callback == s.callback
  {
    match step
    case ReopenEnds(outcome) =>
      assert EndReopen(s, outcome).all == s.all && EndReopen(s, outcome).callback == s.callback;
    case _ =>
  }

  lemma DevicePosts(s: State, step: DeviceStep)
    requires CanRun(s, step)
    ensures OnDevice(s, step).all == s.all && OnDevice(s, step).callback == s.callback
  {}

  lemma StepPosts(s: State, step: Step, u: nat)
    requires Reachable(s) && Enabled(s, step)
    ensures var s' := Apply(s, step);
      At(s'.all, s'.callback, u) == Post(At(s.all, s.callback, u), NewsFor(s.frames, step, u))
  {
    ReachableAnswers(s);
    match step
    case OfCapture(c) => CapturePosts(s, c, u);
    case OfConfigure(f) => ConfigurePosts(s, f);
    case OfDevice(d) => DevicePosts(s, d);
    case OfCallback(b) =>
      if u < |s.all| {
        BookedParts(s.all[u], s.callback, u);
        CallbackPosts(s, b, u);
      } else {
        CallbackFrame(s, b);
        assert forall n :: n in s.frames ==> s.frames[n] < u;
      }
  }

  // Runs --------------------------------------------------------------------------------

  // News of a kind came for the request in the run.
  ghost predicate Ever(steps: seq<Step>, u: nat, what: News -> bool)
    requires Exec(Initial(), steps).Some?
  {
    steps != [] && (
      var before, last := steps[..|steps| - 1], steps[|steps| - 1];
      Ever(before, u, what) || what(NewsFor(Exec(Initial(), before).value.frames, last, u)))
  }

  // The packets sent for it.
  ghost function Packets(steps: seq<Step>, u: nat): seq<Packet>
    requires Exec(Initial(), steps).Some?
  {
    if steps == [] then [] else
      var before, last := steps[..|steps| - 1], steps[|steps| - 1];
      var n := NewsFor(Exec(Initial(), before).value.frames, last, u);
      if n.Sent? then Packets(before, u) + [n.packet] else Packets(before, u)
  }

  ghost function History(steps: seq<Step>, u: nat): Account
    requires Exec(Initial(), steps).Some?
  {
    if steps == [] then Blank else
      var before, last := steps[..|steps| - 1], steps[|steps| - 1];
      Post(History(before, u), NewsFor(Exec(Initial(), before).value.frames, last, u))
  }

  lemma {:induction false} AccountIsHistory(steps: seq<Step>, s: State, u: nat)
    requires Exec(Initial(), steps) == Some(s)
    ensures At(s.all, s.callback, u) == History(steps, u)
  {
    if steps != [] {
      var before := Exec(Initial(), steps[..|steps| - 1]).value;
      AccountIsHistory(steps[..|steps| - 1], before, u);
      assert Runs(Initial(), before);
      StepPosts(before, steps[|steps| - 1], u);
    }
  }

  lemma {:induction false} HistoryFlags(steps: seq<Step>, u: nat)
    requires Exec(Initial(), steps).Some?
    ensures History(steps, u).shutter <==> Ever(steps, u, Shows)
    ensures History(steps, u).done <==> Ever(steps, u, Ends)
    ensures |History(steps, u).metadata| + History(steps, u).errors <= 1
    ensures !History(steps, u).done ==> History(steps, u).packets == Packets(steps, u)
    ensures !History(steps, u).done ==> |History(steps, u).metadata| + History(steps, u).errors == 0
    ensures History(steps, u).done ==>
      |History(steps, u).metadata| + History(steps, u).errors == 1 || Ever(steps, u, Reports)
  {
    if steps != [] {
      HistoryFlags(steps[..|steps| - 1], u);
    }
  }

  // The shutter of a request is done exactly when a shutter or a request error came for it
  // while it was in flight, its metadata exactly when a final packet, a failed merge, a
  // result error or a request error did.
  lemma FlagsExact(steps: seq<Step>, s: State, u: nat)
    requires Exec(Initial(), steps) == Some(s) && u < |s.all|
    ensures s.all[u].shutterDone <==> Ever(steps, u, Shows)
    ensures s.all[u].metadataDone <==> Ever(steps, u, Ends)
  {
    AccountIsHistory(steps, s, u);
    HistoryFlags(steps, u);
  }

  // The first news that ends the metadata settles the answer for good.
  lemma {:induction false} AnswerStays(steps: seq<Step>, i: nat, u: nat)
    requires Exec(Initial(), steps).Some? && i < |steps|
    requires Exec(Initial(), steps[..i]).Some? && Exec(Initial(), steps[..i + 1]).Some?
    requires Ends(NewsFor(Exec(Initial(), steps[..i]).value.frames, steps[i], u))
    ensures History(steps, u).done
    ensures History(steps, u).metadata == History(steps[..i + 1], u).metadata
    ensures History(steps, u).errors == History(steps[..i + 1], u).errors
  {
    if i + 1 == |steps| {
      assert steps[..i + 1] == steps && steps[..|steps| - 1] == steps[..i];
    } else {
      var before := steps[..|steps| - 1];
      assert before[..i] == steps[..i] && before[..i + 1] == steps[..i + 1];
      AnswerStays(before, i, u);
    }
  }

  lemma {:induction false} ExecPrefix(steps: seq<Step>, i: nat)
    requires Exec(Initial(), steps).Some? && i <= |steps|
    ensures Exec(Initial(), steps[..i]).Some?
  {
    if i < |steps| {
      ExecPrefix(steps[..|steps| - 1], i);
      assert steps[..|steps| - 1][..i] == steps[..i];
    } else {
      assert steps[..i] == steps;
    }
  }

  // What the client has or is owed for a request, once step i was the first to end its
  // metadata: after a final packet the metadata made of it and the packets before, after
  // one without memory an error, after the device's error nothing.
  lemma AnswerExact(steps: seq<Step>, s: State, u: nat, i: nat)
    requires Exec(Initial(), steps) == Some(s) && u < |s.all| && i < |steps|
    requires Exec(Initial(), steps[..i]).Some? && !Ever(steps[..i], u, Ends)
    requires Ends(NewsFor(Exec(Initial(), steps[..i]).value.frames, steps[i], u))
    ensures var n, f := NewsFor(Exec(Initial(), steps[..i]).value.frames, steps[i], u), s.all[u];
      && f.metadata + DueMetadata(s.callback, u)
        == (if n.Sent? && n.ok then [Finish(n.packet, Overlay(Packets(steps[..i], u)))] else [])
      && f.errors + DueErrors(s.callback, u) == (if n.Sent? && !n.ok then 1 else 0)
  {
    ExecPrefix(steps, i + 1);
    AccountIsHistory(steps, s, u);
    HistoryFlags(steps[..i], u);
    AnswerStays(steps, i, u);
    assert steps[..i + 1][..i] == steps[..i];
    assert History(steps[..i + 1], u)
      == Post(History(steps[..i], u), NewsFor(Exec(Initial(), steps[..i]).value.frames, steps[i], u));
  }

  // Before that it has nothing.
  lemma NoAnswerYet(steps: seq<Step>, s: State, u: nat)
    requires Exec(Initial(), steps) == Some(s) && u < |s.all| && !Ever(steps, u, Ends)
    ensures s.all[u].metadata + DueMetadata(s.callback, u) == [] && s.all[u].errors + DueErrors(s.callback, u) == 0
  {
    AccountIsHistory(steps, s, u);
    HistoryFlags(steps, u);
  }

  // A request that left the table without being refused got exactly one metadata or
  // error, unless the device reported an error for it.
  lemma AnsweredUnlessReported(steps: seq<Step>, s: State, u: nat)
    requires Exec(Initial(), steps) == Some(s) && !Over(s.request) && u < |s.all|
    requires !Tracked(s.frames, s.all, u) && !s.all[u].refused
    ensures |s.all[u].metadata| + s.all[u].errors == 1 || Ever(steps, u, Reports)
  {
    assert Runs(Initial(), s);
    ReachableAnswers(s);
    AccountIsHistory(steps, s, u);
    HistoryFlags(steps, u);
    assert Tracked(s.frames, s.all, u) || s.all[u].refused || Over(s.request) || Answered(s.all[u]);
    DuesOfNone(s.all[u], s.callback, u);
  }

  // A request given all its buffers, the end of its metadata and its shutter is out of the
  // table once callbackMutex is free.
  lemma LeavesTheTable(steps: seq<Step>, s: State, u: nat)
    requires Exec(Initial(), steps) == Some(s) && u < |s.all| && s.callback.Free?
    requires |s.all[u].delivered| == |s.all[u].slots| && Ever(steps, u, Ends) && Ever(steps, u, Shows)
    ensures !Tracked(s.frames, s.all, u)
  {
    assert Runs(Initial(), s);
    FlagsExact(steps, s, u);
    ReachableAnswers(s);
    BookedParts(s.all[u], s.callback, u);
    assert s.all[u].delivered + [] == s.all[u].delivered;
  }

  // What one result brings for a request whose metadata is not done: an error exactly when
  // memory runs out for its packet, the metadata exactly for a final packet.
  lemma ResultAnswers(s: State, number: nat, packet: Option<Packet>, ok: bool, buffers: seq<Returned>)
    requires InFlight(s, number) && !s.all[s.frames[number]].metadataDone
    ensures var u, c := s.frames[number], Result(s, number, packet, ok, buffers).callback;
      && c.Delivering? && c.frame == u
      && (c.error <==> packet.Some? && !ok)
      && (c.metadata.Some? <==> packet.Some? && ok && !MarkedPartial(packet.value))
      && (c.metadata.Some? ==> c.metadata.value == Finish(packet.value, s.all[u].partials))
  {
    if packet.Some? {
      PartialExact(packet.value);
    }
  }

  // A shutter for a request in flight marks it, and so do the errors.
  lemma NoticeMarks(s: State, message: Message<nat>)
    requires !message.Unknown? && InFlight(s, message.number)
    ensures var f, g := s.all[s.frames[message.number]], Notify(s, message).all[s.frames[message.number]];
      && (g.shutterDone <==> f.shutterDone || message.Shutter? || message.code == RequestError)
      && (g.metadataDone <==> f.metadataDone || (message.Error? && message.code in {RequestError, ResultError}))
      && g == f.(shutterDone := g.shutterDone, metadataDone := g.metadataDone)
  {}

  // Buffers of a result -------------------------------------------------------------------

  predicate Names(r: Returned, slot: Slot) {
    r.stream == slot.legacy && r.handle == Some(slot.handle)
  }

  // The slots of a request name different streams.
  predicate OwnStreams(slots: seq<Slot>) {
    forall j, k :: 0 <= j < k < |slots| ==> slots[j].legacy != slots[k].legacy
  }

  lemma SlotsOwn(streams: Streams, serial: nat, buffers: seq<(Client, Handle)>)
    requires Numbered(streams, serial) && Usable(streams, buffers)
    ensures OwnStreams(Slots(streams, buffers))
  {}

  // Every outstanding buffer a result names is given back, and no other.
  lemma {:induction false} ReturnedExact(f: Frame, buffers: seq<Returned>, k: nat)
    requires OwnStreams(f.slots) && |f.returned| == |f.slots| && k < |f.slots|
    ensures var g := Absorb(f, buffers).frame;
      && |g.returned| == |f.slots| && g.slots == f.slots
      && (g.returned[k] <==> f.returned[k] || exists i :: 0 <= i < |buffers| && Names(buffers[i], f.slots[k]))
  {
    if buffers != [] {
      var before, last := buffers[..|buffers| - 1], buffers[|buffers| - 1];
      ReturnedExact(f, before, k);
      var a := Absorb(f, before);
      AbsorbKeeps(f, before);
      FitExact(a.frame, last, k);
      assert buffers == before + [last];
      if i :| 0 <= i < |before| && Names(before[i], f.slots[k]) {
        assert Names(buffers[i], f.slots[k]);
      }
    }
  }

  lemma FitExact(f: Frame, r: Returned, k: nat)
    requires OwnStreams(f.slots) && |f.returned| == |f.slots| && k < |f.slots|
    ensures Fit(f, r, 0) == k <==> Names(r, f.slots[k]) && !f.returned[k]
  {
    var n := Fit(f, r, 0);
    if Names(r, f.slots[k]) && !f.returned[k] {
      assert Matches(f, k, r);
      assert n <= k;
    }
  }

  // What each step may do -------------------------------------------------------------------

  // What makes the adapter fatal: the device refuses a registration or a configuration,
  // cannot be restarted, reports that it is broken, or returns a buffer nobody waits for.
  ghost predicate Breaks(s: State, step: Step)
    requires Enabled(s, step)
  {
    match step
    case OfCapture(c) => c.LinkEnds? && !c.ok
    case OfConfigure(f) => (f.ConfigureEnds? && !f.ok) || (f.ReopenEnds? && !f.outcome.Ready?)
    case OfDevice(_) => false
    case OfCallback(b) =>
      || (b.GetsNotice? && b.message.Error? && b.message.code == DeviceError)
      || (b.GetsResult? && InFlight(s, b.number) && |Apply(s, step).callback.outputs| < |b.returned|)
  }

  lemma FatalExactly(s: State, step: Step)
    requires Enabled(s, step)
    ensures Apply(s, step).fatal <==> s.fatal || Breaks(s, step)
  {
    match step
    case OfCapture(c) => FatalByCapture(s, c);
    case OfConfigure(f) => FatalByConfigure(s, f);
    case OfDevice(_) =>
    case OfCallback(b) => FatalByCallback(s, b);
  }

  lemma FatalByCapture(s: State, step: CaptureStep)
    requires CanCapture(s, step)
    ensures OnCapture(s, step).fatal <==> s.fatal || (step.LinkEnds? && !step.ok)
  {}

  lemma FatalByConfigure(s: State, step: ConfigureStep)
    requires CanConfigure(s, step)
    ensures OnConfigure(s, step).fatal <==>
      s.fatal || (step.ConfigureEnds? && !step.ok) || (step.ReopenEnds? && !step.outcome.Ready?)
  {}

  lemma FatalByCallback(s: State, step: CallbackStep)
    requires CanCall(s, step)
    ensures step.GetsResult? && InFlight(s, step.number) ==> OnCallback(s, step).callback.Delivering?
    ensures OnCallback(s, step).fatal <==>
      || s.fatal || (step.GetsNotice? && step.message.Error? && step.message.code == DeviceError)
      || (step.GetsResult? && InFlight(s, step.number) && |OnCallback(s, step).callback.outputs| < |step.returned|)
  {
    if step.GetsResult? && InFlight(s, step.number) {
      var (f, _, _) := Taken(s.all[s.frames[step.number]], step.packet, step.ok);
      BadExactly(f, step.returned);
    }
  }

  // Without settings a request needs earlier ones: those of a frame built since the streams
  // were last replaced.
  lemma PrimedExactly(s: State, step: Step)
    requires Enabled(s, step)
    ensures Apply(s, step).primed <==>
      !(step.OfConfigure? && step.f.Swaps?) && (s.primed || (step.OfCapture? && step.c.Builds?
        && s.request.order.settings && Apply(s, step).request.Submitting?))
  {
    match step
    case OfCapture(c) => PrimedByCapture(s, c);
    case OfConfigure(f) => PrimedByConfigure(s, f);
    case OfDevice(_) =>
    case OfCallback(b) => PrimedByCallback(s, b);
  }

  lemma PrimedByCapture(s: State, step: CaptureStep)
    requires CanCapture(s, step)
    ensures OnCapture(s, step).primed <==>
      s.primed || (step.Builds? && s.request.order.settings && OnCapture(s, step).request.Submitting?)
    ensures step.Builds? ==>
      (OnCapture(s, step).request.Submitting? <==> if s.request.order.settings then step.normalized else s.primed)
  {}

  lemma PrimedByConfigure(s: State, step: ConfigureStep)
    requires CanConfigure(s, step)
    ensures OnConfigure(s, step).primed <==> s.primed && !step.Swaps?
  {
    match step
    case BeginConfigure(list, attributes) => assert Configure(s, list, attributes).primed == s.primed;
    case ReopenEnds(outcome) => assert EndReopen(s, outcome).primed == s.primed;
    case ConfigureEnds(ok) => assert EndConfigure(s, ok).primed == s.primed;
    case Swaps =>
    case Releases(c, h) => assert Release(s, c, h).primed == s.primed;
    case Released =>
  }

  lemma PrimedByCallback(s: State, step: CallbackStep)
    requires CanCall(s, step)
    ensures OnCallback(s, step).primed == s.primed
  {
    match step
    case GetsResult(number, packet, ok, returned) => PrimedByResult(s, number, packet, ok, returned);
    case Delivers => assert Deliver(s).primed == s.primed;
    case GetsNotice(message) => assert Notify(s, message).primed == s.primed;
    case Forwards => assert Forward(s).primed == s.primed;
    case Retires => assert Retire(s).primed == s.primed;
  }

  lemma PrimedByResult(s: State, number: nat, packet: Option<Packet>, ok: bool, returned: seq<Returned>)
    ensures Result(s, number, packet, ok, returned).primed == s.primed
  {}

  // A fatal, closing or uninitialized adapter takes no request and no configuration.
  lemma ClosedRefuses(s: State, number: nat, buffers: seq<(Client, Handle)>, settings: bool, list: seq<Client>,
      attributes: map<Client, Attributes>)
    requires s.fatal || s.closing || !s.device.ready
    ensures Capture(s, number, buffers, settings) == s && Configure(s, list, attributes) == s
  {}

  // The first template of a kind is the one the client gets from then on.
  lemma TemplateServed(s: State, kind: int, content: int)
    requires s.request.Idle? && s.device.vendor
    ensures var s' := OnDevice(s, Template(kind, content));
      kind in s'.templates && s'.templates[kind] == if kind in s.templates then s.templates[kind] else content
  {}

  // A size some stream asks the device to produce.
  predicate Asks(streams: set<Client>, attributes: map<Client, Attributes>, width: nat, height: nat) {
    exists c :: c in streams && c in attributes && attributes[c].width == width && attributes[c].height == height
      && attributes[c].format in {ImplementationDefined, YCbCr420, Rgba8888, Yv12} && !attributes[c].encoder
  }

  function Members(list: seq<Client>): set<Client> {
    set c | c in list
  }

  // An accepted configuration restarts the device exactly when there were streams before
  // and some size is asked for only by the old ones or only by the new ones.
  lemma RestartExact(s: State, list: seq<Client>, attributes: map<Client, Attributes>)
    requires s.request.Idle? && Renewing(Configure(s, list, attributes).request)
    ensures Configure(s, list, attributes).request.Reopening? <==>
      s.streams != map[] && exists width: nat, height: nat ::
        Asks(s.streams.Keys, attributes, width, height) != Asks(Members(list), attributes, width, height)
  {
    var next := Fresh(list, s.device.serial);
    FreshKeys(list, s.device.serial);
    var before, after := s.streams.Keys, next.Keys;
    assert forall c :: c in after <==> c in Members(list);
    assert after == Members(list);
    forall width: nat, height: nat
      ensures (width, height) in Geometry(before, attributes) <==> Asks(before, attributes, width, height)
      ensures (width, height) in Geometry(after, attributes) <==> Asks(after, attributes, width, height)
    {
      GeometryAsks(before, attributes, width, height);
      GeometryAsks(after, attributes, width, height);
    }
    if Geometry(before, attributes) != Geometry(after, attributes) {
      var size: (nat, nat) :| (size in Geometry(before, attributes)) != (size in Geometry(after, attributes));
      assert Asks(before, attributes, size.0, size.1) != Asks(after, attributes, size.0, size.1);
    }
  }

  lemma GeometryAsks(clients: set<Client>, attributes: map<Client, Attributes>, width: nat, height: nat)
    ensures (width, height) in Geometry(clients, attributes) <==> Asks(clients, attributes, width, height)
  {}

  lemma {:induction false} FreshKeys(list: seq<Client>, serial: nat)
    ensures forall c :: c in Fresh(list, serial) <==> c in list
  {
    if list != [] {
      FreshKeys(list[..|list| - 1], serial);
      assert list == list[..|list| - 1] + [list[|list| - 1]];
    }
  }

  // An accepted request owes every buffer that was asked for, each in its stream.
  lemma NewFrameExact(streams: Streams, number: nat, buffers: seq<(Client, Handle)>, settings: bool)
    requires Usable(streams, buffers)
    ensures var f := NewFrame(Order(number, Slots(streams, buffers), settings));
      && f.number == number && f.remaining == |f.slots| == |f.returned| == |buffers| && f.delivered == []
      && (forall k :: 0 <= k < |buffers| ==> !f.returned[k])
      && forall k :: 0 <= k < |buffers| ==>
        f.slots[k] == Slot(buffers[k].0, streams[buffers[k].0].legacy, buffers[k].1)
  {}

  // A message is passed on as it is, except that the stream of an error becomes the
  // client's stream at that address, if there is one.
  lemma PassedOn(s: State, message: Message<nat>, c: Client)
    requires Reachable(s)
    ensures var next := Notify(s, message).callback;
      && next.Forwarding? && next.about == (if message.Unknown? then None else Some(message.number))
      && match message
         case Unknown => next.message == Unknown
         case Shutter(number) => next.message == Shutter(number)
         case Error(number, stream, code) =>
           && next.message.Error? && next.message.number == number && next.message.code == code
           && (next.message.stream == Some(c) <==> c in s.streams && stream == Some(s.streams[c].legacy))
  {
    if message.Error? && message.stream.Some? {
      ErrorStreamExact(s, message.stream.value, c);
    }
  }

  // The limits of a configuration count places in its list.
  ghost function Places(list: seq<Client>, attributes: map<Client, Attributes>, formats: set<Format>): set<nat> {
    set i: nat | i < |list| && list[i] in attributes && attributes[list[i]].format in formats
  }

  lemma {:induction false} CountsExact(list: seq<Client>, attributes: map<Client, Attributes>)
    ensures ProcessedCount(list, attributes)
      == |Places(list, attributes, {ImplementationDefined, YCbCr420, Rgba8888, Yv12})|
    ensures JpegCount(list, attributes) == |Places(list, attributes, {Blob})|
  {
    if list != [] {
      var before, last := list[..|list| - 1], |list| - 1;
      CountsExact(before, attributes);
      PlacesMore(list, attributes, {ImplementationDefined, YCbCr420, Rgba8888, Yv12});
      PlacesMore(list, attributes, {Blob});
    } else {
      assert Places(list, attributes, {ImplementationDefined, YCbCr420, Rgba8888, Yv12}) == {};
      assert Places(list, attributes, {Blob}) == {};
    }
  }

  lemma PlacesMore(list: seq<Client>, attributes: map<Client, Attributes>, formats: set<Format>)
    requires list != []
    ensures var last := |list| - 1;
      |Places(list, attributes, formats)| == |Places(list[..last], attributes, formats)|
        + if list[last] in attributes && attributes[list[last]].format in formats then 1 else 0
  {
    var last := |list| - 1;
    var before, after := Places(list[..last], attributes, formats), Places(list, attributes, formats);
    if last in after {
      assert after == before + {last};
    } else {
      assert after == before;
    }
  }
}
