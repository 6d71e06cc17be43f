// configmgr/audio_config.c: reference-counted routing.  A 32-bit device mask is the set
// of its bit numbers; `IN` is the number of the direction bit.

module RoutingModel {
  import opened Options

  type Mask = set<nat>

  const IN: nat := 31
  const OFF := 0
  const ON := 1

  // A device: the bits of its type without the direction, its direction, how often it is
  // in use, the ids of its paths, and the paths applied to the mixer so far.
  datatype Device = Device(low: Mask, input: bool, useCount: int, paths: seq<int>, fired: seq<nat>)

  datatype StreamType = OutPcm | InPcm | OutCompress | InCompress | OutHw | InHw | GlobalStream

  datatype Stream = Stream(kind: StreamType, refCount: int, maxRefCount: int, enable: int, disable: int, current: Mask)

  datatype Config = Config(devices: seq<Device>, streams: seq<Stream>, outAll: Mask, inAll: Mask)

  predicate IsInput(s: Stream) {
    s.kind in {InPcm, InCompress, InHw}
  }

  // Paths of one device ---------------------------------------------------------

  // apply_device_path_l
  function FirePath(d: Device, p: nat): Device
    requires p < |d.paths|
  {
    if d.paths[p] == OFF then
      if d.useCount - 1 > 0 then d.(useCount := d.useCount - 1)
      else d.(useCount := d.useCount - 1, fired := d.fired + [p])
    else if d.paths[p] == ON then
      if d.useCount + 1 > 1 then d.(useCount := d.useCount + 1)
      else d.(useCount := d.useCount + 1, fired := d.fired + [p])
    else d.(fired := d.fired + [p])
  }

  function FireFound(d: Device, p: Option<nat>): Device
    requires p.Some? ==> p.value < |d.paths|
  {
    if p.Some? then FirePath(d, p.value) else d
  }

  // The single walk that looks for both paths.
  function FindPaths(paths: seq<int>, i: nat, found0: Option<nat>, found1: Option<nat>, first: int,
      second: int): (r: (Option<nat>, Option<nat>))
    requires i <= |paths|
    requires (found0.Some? ==> found0.value < |paths|) && (found1.Some? ==> found1.value < |paths|)
    ensures (r.0.Some? ==> r.0.value < |paths|) && (r.1.Some? ==> r.1.value < |paths|)
    decreases |paths| - i
  {
    if i == |paths| then (found0, found1)
    else if paths[i] == first then
      if found1.Some? || first == second then (Some(i), found1)
      else FindPaths(paths, i + 1, Some(i), found1, first, second)
    else if paths[i] == second then
      if found0.Some? then (found0, Some(i)) else FindPaths(paths, i + 1, found0, Some(i), first, second)
    else FindPaths(paths, i + 1, found0, found1, first, second)
  }

  // apply_paths_by_id_l
  function ApplyById(d: Device, first: int, second: int): Device {
    var (found0, found1) := FindPaths(d.paths, 0, None, None, first, second);
    FireFound(FireFound(d, found0), found1)
  }

  // Devices of a mask -------------------------------------------------------------

  predicate Hit(d: Device, left: Mask, input: bool) {
    (input ==> d.input) && d.low * left != {}
  }

  // apply_paths_to_devices_l from device i on; `left` are the bits not yet served.
  function Walk(devices: seq<Device>, i: nat, left: Mask, input: bool, first: int, second: int): (r: seq<Device>)
    requires i <= |devices|
    ensures |r| == |devices|
    decreases |devices| - i
  {
    if i == |devices| || left == {} then devices
    else if Hit(devices[i], left, input) then
      Walk(devices[i := ApplyById(devices[i], first, second)], i + 1, left - devices[i].low, input, first, second)
    else Walk(devices, i + 1, left, input, first, second)
  }

  function ApplyToDevices(devices: seq<Device>, mask: Mask, first: int, second: int): (r: seq<Device>)
    ensures |r| == |devices|
  {
    Walk(devices, 0, mask - {IN}, IN in mask, first, second)
  }

  predicate IsGlobal(d: Device) {
    d.low == {} && !d.input
  }

  // The first global device, or the number of devices.
  function GlobalIndex(devices: seq<Device>, i: nat): (g: nat)
    requires i <= |devices|
    ensures i <= g <= |devices|
    ensures g < |devices| ==> IsGlobal(devices[g])
    ensures forall j :: i <= j < g ==> !IsGlobal(devices[j])
    decreases |devices| - i
  {
    if i == |devices| || IsGlobal(devices[i]) then i else GlobalIndex(devices, i + 1)
  }

  function ApplyToGlobal(devices: seq<Device>, first: int, second: int): (r: seq<Device>)
    ensures |r| == |devices|
  {
    var g := GlobalIndex(devices, 0);
    if g == |devices| then devices else devices[g := ApplyById(devices[g], first, second)]
  }

  // Streams -----------------------------------------------------------------------

  predicate Refused(s: Stream, mask: Mask) {
    mask != {} && (IN in mask <==> !IsInput(s))
  }

  function Kept(cfg: Config, mask: Mask): Mask {
    if mask == {} then {} else if IN in mask then mask * cfg.inAll + {IN} else mask * cfg.outAll
  }

  function ApplyRoute(cfg: Config, i: nat, mask: Mask): Config
    requires i < |cfg.streams|
  {
    var s := cfg.streams[i];
    if Refused(s, mask) then cfg else
      var off := ApplyToDevices(cfg.devices, s.current - mask, s.disable, OFF);
      cfg.(devices := ApplyToDevices(off, mask - s.current, ON, s.enable),
           streams := cfg.streams[i := s.(current := Kept(cfg, mask))])
  }

  function OpenStream(cfg: Config, i: nat): (Config, bool)
    requires i < |cfg.streams|
  {
    var s := cfg.streams[i];
    if s.refCount >= s.maxRefCount then (cfg, false) else
      (cfg.(devices := if s.refCount + 1 == 1 then ApplyToGlobal(cfg.devices, ON, s.enable) else cfg.devices,
            streams := cfg.streams[i := s.(refCount := s.refCount + 1)]), true)
  }

  function ReleaseStream(cfg: Config, i: nat): Config
    requires i < |cfg.streams|
  {
    var s := cfg.streams[i];
    if s.refCount - 1 != 0 then cfg.(streams := cfg.streams[i := s.(refCount := s.refCount - 1)]) else
      var off := ApplyToDevices(cfg.devices, s.current, OFF, s.disable);
      cfg.(devices := ApplyToGlobal(off, s.disable, OFF), streams := cfg.streams[i := s.(refCount := 0, current := {})])
  }

  // get_stream tries the streams of the wanted type from the last one down.
  function Eligible(streams: seq<Stream>, n: nat, kind: StreamType): (i: int)
    requires n <= |streams|
    ensures -1 <= i < n
    ensures i >= 0 ==> streams[i].kind == kind && streams[i].refCount < streams[i].maxRefCount
    ensures forall j :: i < j < n ==> !(streams[j].kind == kind && streams[j].refCount < streams[j].maxRefCount)
  {
    if n == 0 then -1
    else if streams[n - 1].kind == kind && streams[n - 1].refCount < streams[n - 1].maxRefCount then n - 1
    else Eligible(streams, n - 1, kind)
  }
}

// What the counts mean over every run, for any configuration.
module RoutingProofs {
  import opened Options
  import opened RoutingModel

  predicate Has(paths: seq<int>, id: int) {
    exists p :: 0 <= p < |paths| && paths[p] == id
  }

  lemma {:induction false} FindPathsFinds(paths: seq<int>, i: nat, found0: Option<nat>, found1: Option<nat>,
      first: int, second: int)
    requires i <= |paths|
    requires found0.Some? ==> found0.value < i && paths[found0.value] == first
    requires found1.Some? ==> found1.value < i && paths[found1.value] == second
    requires found0.None? || found1.None?
    requires first == second ==> found0.None? && found1.None?
    ensures var (r0, r1) := FindPaths(paths, i, found0, found1, first, second);
      && (r0.Some? ==> paths[r0.value] == first) && (r1.Some? ==> paths[r1.value] == second && first != second)
      && (r0.Some? <==> found0.Some? || exists p :: i <= p < |paths| && paths[p] == first)
      && (first != second ==> (r1.Some? <==> found1.Some? || exists p :: i <= p < |paths| && paths[p] == second))
    decreases |paths| - i
  {
    if i < |paths| {
      if paths[i] == first {
        if !(found1.Some? || first == second) {
          FindPathsFinds(paths, i + 1, Some(i), found1, first, second);
        }
      } else if paths[i] == second {
        if found0.None? {
          FindPathsFinds(paths, i + 1, found0, Some(i), first, second);
        }
      } else {
        FindPathsFinds(paths, i + 1, found0, found1, first, second);
      }
    }
  }

  // How often paths of an id were applied.
  function Fires(d: Device, fired: seq<nat>, id: int): nat {
    if fired == [] then 0 else
      Fires(d, fired[..|fired| - 1], id)
      + if fired[|fired| - 1] < |d.paths| && d.paths[fired[|fired| - 1]] == id then 1 else 0
  }

  // How much more often "on" was applied than "off".
  function Switched(d: Device): int {
    Fires(d, d.fired, ON) - Fires(d, d.fired, OFF)
  }

  // A device is switched on once while its count is positive, and a negative count is
  // that many applications of "off" too many.
  predicate Level(d: Device) {
    Switched(d) == if d.useCount > 0 then 1 else d.useCount
  }

  predicate SameDevice(d: Device, e: Device) {
    e.low == d.low && e.input == d.input && e.paths == d.paths
  }

  lemma FiresMore(d: Device, p: nat, id: int)
    requires p < |d.paths|
    ensures Fires(d, d.fired + [p], id) == Fires(d, d.fired, id) + if d.paths[p] == id then 1 else 0
  {
    assert (d.fired + [p])[..|d.fired|] == d.fired;
  }

  lemma {:induction false} FiresSame(d: Device, e: Device, fired: seq<nat>, id: int)
    requires d.paths == e.paths
    ensures Fires(d, fired, id) == Fires(e, fired, id)
  {
    if fired != [] {
      FiresSame(d, e, fired[..|fired| - 1], id);
    }
  }

  // What one application of a path does to the count.
  function Bump(id: int): int {
    if id == ON then 1 else if id == OFF then -1 else 0
  }

  // "on" reaches the mixer exactly when the count becomes 1 or stays below, "off" when
  // it becomes 0 or less, any other path always; a device on its level stays there.
  lemma FirePathLevel(d: Device, p: nat)
    requires p < |d.paths| && Level(d)
    ensures var e := FirePath(d, p);
      && SameDevice(d, e) && e.useCount == d.useCount + Bump(d.paths[p]) && Level(e)
      && (d.paths[p] == ON ==> (e.fired == d.fired + [p] <==> d.useCount <= 0))
      && (d.paths[p] == OFF ==> (e.fired == d.fired + [p] <==> d.useCount <= 1))
      && (d.paths[p] != ON && d.paths[p] != OFF ==> e.fired == d.fired + [p])
  {
    var e := FirePath(d, p);
    FiresMore(d, p, ON);
    FiresMore(d, p, OFF);
    FiresSame(d, e, e.fired, ON);
    FiresSame(d, e, e.fired, OFF);
  }

  // What a pair of path ids does to a device's count: each once, if the device has it.
  function Change(d: Device, first: int, second: int): int {
    (if Has(d.paths, first) then Bump(first) else 0)
    + if first != second && Has(d.paths, second) then Bump(second) else 0
  }

  lemma ApplyByIdChanges(d: Device, first: int, second: int)
    requires Level(d)
    ensures var e := ApplyById(d, first, second);
      SameDevice(d, e) && Level(e) && e.useCount == d.useCount + Change(d, first, second)
  {
    var (found0, found1) := FindPaths(d.paths, 0, None, None, first, second);
    FindPathsFinds(d.paths, 0, None, None, first, second);
    var e := FireFound(d, found0);
    if found0.Some? {
      FirePathLevel(d, found0.value);
    }
    if found1.Some? {
      FirePathLevel(e, found1.value);
    }
  }

  // The walk over the devices -------------------------------------------------------

  // The device is the first of the walk that has the bit.
  predicate First(devices: seq<Device>, b: nat, k: nat, input: bool) {
    && k < |devices| && b in devices[k].low && (input ==> devices[k].input)
    && forall j :: 0 <= j < k && b in devices[j].low ==> input && !devices[j].input
  }

  predicate FirstForSome(devices: seq<Device>, mask: Mask, k: nat, input: bool) {
    exists b :: b in mask && b != IN && First(devices, b, k, input)
  }

  // The walk serves a device: it is the first for some bit of the mask.
  predicate Serves(devices: seq<Device>, mask: Mask, k: nat) {
    FirstForSome(devices, mask, k, IN in mask)
  }

  // The bits of a mask left when the walk comes to device i.
  ghost predicate LeftOver(devices: seq<Device>, i: nat, mask: Mask, left: Mask, input: bool)
    requires i <= |devices|
  {
    forall b :: b in left <==>
      b in mask && b != IN && forall j :: 0 <= j < i && b in devices[j].low ==> input && !devices[j].input
  }

  lemma HitIsFirst(devices: seq<Device>, i: nat, mask: Mask, left: Mask, input: bool)
    requires i < |devices| && LeftOver(devices, i, mask, left, input)
    ensures Hit(devices[i], left, input) <==> FirstForSome(devices, mask, i, input)
    ensures LeftOver(devices, i + 1, mask, if Hit(devices[i], left, input) then left - devices[i].low else left, input)
  {
    var d := devices[i];
    if exists b :: b in d.low && b in left {
      var b :| b in d.low && b in left;
      assert b in d.low * left;
      assert Hit(d, left, input) ==> First(devices, b, i, input);
    } else {
      assert d.low * left == {};
    }
  }

  lemma NothingLeft(devices: seq<Device>, i: nat, mask: Mask, input: bool, k: nat)
    requires i <= k < |devices| && LeftOver(devices, i, mask, {}, input)
    ensures !FirstForSome(devices, mask, k, input)
  {
    forall b | b in mask && b != IN ensures !First(devices, b, k, input) {
      assert b !in {};
    }
  }

  // What the walk leaves of a device.
  function Visited(all: seq<Device>, devices: seq<Device>, k: nat, mask: Mask, input: bool, first: int,
      second: int): Device
    requires k < |devices|
  {
    if FirstForSome(all, mask, k, input) then ApplyById(devices[k], first, second) else devices[k]
  }

  // In one walk exactly the devices that are the first of their direction to hold some bit
  // of the mask are served, however bits are shared.
  lemma {:induction false} WalkServes(all: seq<Device>, devices: seq<Device>, i: nat, mask: Mask, left: Mask,
      input: bool, first: int, second: int)
    requires i <= |devices| == |all| && forall k :: 0 <= k < |all| ==> SameDevice(all[k], devices[k])
    requires LeftOver(all, i, mask, left, input)
    ensures forall k :: 0 <= k < i ==> Walk(devices, i, left, input, first, second)[k] == devices[k]
    ensures forall k :: i <= k < |devices| ==>
      Walk(devices, i, left, input, first, second)[k] == Visited(all, devices, k, mask, input, first, second)
    decreases |devices| - i
  {
    if left == {} {
      forall k | i <= k < |devices| ensures !FirstForSome(all, mask, k, input) {
        NothingLeft(all, i, mask, input, k);
      }
    } else if i < |devices| {
      HitIsFirst(all, i, mask, left, input);
      if Hit(devices[i], left, input) {
        var d := ApplyById(devices[i], first, second);
        WalkServes(all, devices[i := d], i + 1, mask, left - devices[i].low, input, first, second);
      } else {
        WalkServes(all, devices, i + 1, mask, left, input, first, second);
      }
    }
  }

  function When(c: bool, n: int): int {
    if c then n else 0
  }

  function Served(devices: seq<Device>, mask: Mask, k: nat): nat {
    if Serves(devices, mask, k) then 1 else 0
  }

  lemma DevicesServed(devices: seq<Device>, mask: Mask, first: int, second: int, k: nat)
    requires k < |devices|
    ensures ApplyToDevices(devices, mask, first, second)[k] ==
      if Serves(devices, mask, k) then ApplyById(devices[k], first, second) else devices[k]
  {
    WalkServes(devices, devices, 0, mask, mask - {IN}, IN in mask, first, second);
  }

  predicate SameDevices(a: seq<Device>, b: seq<Device>) {
    |a| == |b| && forall k :: 0 <= k < |a| ==> SameDevice(a[k], b[k])
  }

  lemma ServesSame(a: seq<Device>, b: seq<Device>, mask: Mask, k: nat)
    requires SameDevices(a, b)
    ensures Serves(a, mask, k) <==> Serves(b, mask, k)
  {
    forall x | x in mask ensures First(a, x, k, IN in mask) <==> First(b, x, k, IN in mask) {}
  }

  predicate Leveled(devices: seq<Device>) {
    forall k :: 0 <= k < |devices| ==> Level(devices[k])
  }

  lemma DevicesChange(devices: seq<Device>, mask: Mask, first: int, second: int)
    requires Leveled(devices)
    ensures var r := ApplyToDevices(devices, mask, first, second);
      && SameDevices(devices, r) && Leveled(r)
      && forall k :: 0 <= k < |r| ==>
        r[k].useCount == devices[k].useCount + When(Serves(devices, mask, k), Change(devices[k], first, second))
  {
    forall k | 0 <= k < |devices|
      ensures var r := ApplyToDevices(devices, mask, first, second)[k];
        && SameDevice(devices[k], r) && Level(r)
        && r.useCount == devices[k].useCount + When(Serves(devices, mask, k), Change(devices[k], first, second))
    {
      DevicesServed(devices, mask, first, second, k);
      ApplyByIdChanges(devices[k], first, second);
    }
  }

  // The device told about opened streams.
  predicate ToldGlobal(devices: seq<Device>, k: nat) {
    k == GlobalIndex(devices, 0) && k < |devices|
  }

  function Global(devices: seq<Device>, k: nat): nat {
    if ToldGlobal(devices, k) then 1 else 0
  }

  lemma {:induction false} GlobalIndexSame(a: seq<Device>, b: seq<Device>, i: nat)
    requires i <= |a| && SameDevices(a, b)
    ensures GlobalIndex(a, i) == GlobalIndex(b, i)
    decreases |a| - i
  {
    if i < |a| {
      GlobalIndexSame(a, b, i + 1);
    }
  }

  lemma GlobalChanges(devices: seq<Device>, first: int, second: int)
    requires Leveled(devices)
    ensures var r := ApplyToGlobal(devices, first, second);
      && SameDevices(devices, r) && Leveled(r)
      && forall k :: 0 <= k < |r| ==>
        r[k].useCount == devices[k].useCount + When(ToldGlobal(devices, k), Change(devices[k], first, second))
  {
    var g := GlobalIndex(devices, 0);
    if g < |devices| {
      ApplyByIdChanges(devices[g], first, second);
    }
  }

  // Steps and runs ----------------------------------------------------------------------

  datatype Step = Route(i: nat, mask: Mask) | Open(i: nat) | Release(i: nat)

  function Apply(cfg: Config, step: Step): Config
    requires step.i < |cfg.streams|
  {
    match step
    case Route(i, mask) => ApplyRoute(cfg, i, mask)
    case Open(i) => OpenStream(cfg, i).0
    case Release(i) => ReleaseStream(cfg, i)
  }

  ghost function Exec(cfg: Config, steps: seq<Step>): Option<Config> {
    if steps == [] then Some(cfg) else
      var before, last := Exec(cfg, steps[..|steps| - 1]), steps[|steps| - 1];
      if before.Some? && last.i < |before.value.streams| then Some(Apply(before.value, last)) else None
  }

  ghost predicate Fresh(cfg: Config) {
    && (forall k :: 0 <= k < |cfg.devices| ==> cfg.devices[k].useCount == 0 && cfg.devices[k].fired == [])
    && (forall i :: 0 <= i < |cfg.streams| ==> cfg.streams[i].refCount == 0 && cfg.streams[i].current == {})
  }

  // Special paths do not swap on and off.
  predicate Unswapped(cfg: Config) {
    forall i :: 0 <= i < |cfg.streams| ==> cfg.streams[i].enable != OFF && cfg.streams[i].disable != ON
  }

  // How often a step enables and disables a device.
  function Up(cfg: Config, step: Step, k: nat): nat
    requires step.i < |cfg.streams|
  {
    var s := cfg.streams[step.i];
    match step
    case Route(_, mask) => if Refused(s, mask) then 0 else Served(cfg.devices, mask - s.current, k)
    case Open(_) => if s.refCount < s.maxRefCount && s.refCount == 0 then Global(cfg.devices, k) else 0
    case Release(_) => 0
  }

  function Down(cfg: Config, step: Step, k: nat): nat
    requires step.i < |cfg.streams|
  {
    var s := cfg.streams[step.i];
    match step
    case Route(_, mask) => if Refused(s, mask) then 0 else Served(cfg.devices, s.current - mask, k)
    case Open(_) => 0
    case Release(_) => if s.refCount == 1 then Served(cfg.devices, s.current, k) + Global(cfg.devices, k) else 0
  }

  predicate Shifted(d: Device, e: Device, up: nat, down: nat) {
    e.useCount == d.useCount + When(Has(d.paths, ON), up) - When(Has(d.paths, OFF), down)
  }

  // Each count moves by the step's hits on it; devices stay on their levels.
  ghost predicate Moved(cfg: Config, step: Step, cfg': Config)
    requires step.i < |cfg.streams|
  {
    && SameDevices(cfg.devices, cfg'.devices) && Leveled(cfg'.devices)
    && forall k: nat :: k < |cfg.devices| ==>
      Shifted(cfg.devices[k], cfg'.devices[k], Up(cfg, step, k), Down(cfg, step, k))
  }

  lemma PairChange(d: Device, path: int)
    ensures path != OFF ==> Change(d, ON, path) == When(Has(d.paths, ON), 1)
    ensures path != ON ==> Change(d, path, OFF) == Change(d, OFF, path) == When(Has(d.paths, OFF), -1)
  {}

  lemma RouteMoves(cfg: Config, i: nat, mask: Mask)
    requires Unswapped(cfg) && Leveled(cfg.devices) && i < |cfg.streams|
    ensures Moved(cfg, Route(i, mask), ApplyRoute(cfg, i, mask))
  {
    var s := cfg.streams[i];
    if !Refused(s, mask) {
      var off := ApplyToDevices(cfg.devices, s.current - mask, s.disable, OFF);
      DevicesChange(cfg.devices, s.current - mask, s.disable, OFF);
      DevicesChange(off, mask - s.current, ON, s.enable);
      forall k: nat | k < |cfg.devices|
        ensures Shifted(cfg.devices[k], ApplyRoute(cfg, i, mask).devices[k], Up(cfg, Route(i, mask), k),
            Down(cfg, Route(i, mask), k))
      {
        ServesSame(cfg.devices, off, mask - s.current, k);
        PairChange(cfg.devices[k], s.disable);
        PairChange(off[k], s.enable);
      }
    }
  }

  lemma OpenMoves(cfg: Config, i: nat)
    requires Unswapped(cfg) && Leveled(cfg.devices) && i < |cfg.streams|
    ensures Moved(cfg, Open(i), OpenStream(cfg, i).0)
  {
    var s, cfg' := cfg.streams[i], OpenStream(cfg, i).0;
    GlobalChanges(cfg.devices, ON, s.enable);
    forall k: nat | k < |cfg.devices|
      ensures Shifted(cfg.devices[k], cfg'.devices[k], Up(cfg, Open(i), k), 0)
    {
      PairChange(cfg.devices[k], s.enable);
    }
  }

  lemma ReleaseMoves(cfg: Config, i: nat)
    requires Unswapped(cfg) && Leveled(cfg.devices) && i < |cfg.streams|
    ensures Moved(cfg, Release(i), ReleaseStream(cfg, i))
  {
    var s, cfg' := cfg.streams[i], ReleaseStream(cfg, i);
    if s.refCount == 1 {
      var off := ApplyToDevices(cfg.devices, s.current, OFF, s.disable);
      DevicesChange(cfg.devices, s.current, OFF, s.disable);
      GlobalChanges(off, s.disable, OFF);
      GlobalIndexSame(cfg.devices, off, 0);
      forall k: nat | k < |cfg.devices|
        ensures Shifted(cfg.devices[k], cfg'.devices[k], 0, Down(cfg, Release(i), k))
      {
        ReleasedCount(cfg.devices, off, s, k);
      }
    }
  }

  lemma ReleasedCount(devices: seq<Device>, off: seq<Device>, s: Stream, k: nat)
    requires k < |devices| && SameDevices(devices, off) && s.disable != ON
    requires off[k].useCount
      == devices[k].useCount + When(Serves(devices, s.current, k), Change(devices[k], OFF, s.disable))
    ensures off[k].useCount + When(ToldGlobal(off, k), Change(off[k], s.disable, OFF))
      == devices[k].useCount - When(Has(devices[k].paths, OFF), Served(devices, s.current, k) + Global(devices, k))
  {
    PairChange(devices[k], s.disable);
    PairChange(off[k], s.disable);
    GlobalIndexSame(devices, off, 0);
  }

  lemma StepMoves(cfg: Config, step: Step)
    requires Unswapped(cfg) && Leveled(cfg.devices) && step.i < |cfg.streams|
    ensures Moved(cfg, step, Apply(cfg, step)) && Unswapped(Apply(cfg, step))
    ensures |Apply(cfg, step).streams| == |cfg.streams|
  {
    match step
    case Route(i, mask) => RouteMoves(cfg, i, mask);
    case Open(i) => OpenMoves(cfg, i);
    case Release(i) => ReleaseMoves(cfg, i);
  }

  // How often a run enabled and disabled a device.
  ghost function Ups(cfg: Config, steps: seq<Step>, k: nat): nat
    requires Exec(cfg, steps).Some?
  {
    if steps == [] then 0 else
      var before := Exec(cfg, steps[..|steps| - 1]).value;
      Ups(cfg, steps[..|steps| - 1], k) + Up(before, steps[|steps| - 1], k)
  }

  ghost function Downs(cfg: Config, steps: seq<Step>, k: nat): nat
    requires Exec(cfg, steps).Some?
  {
    if steps == [] then 0 else
      var before := Exec(cfg, steps[..|steps| - 1]).value;
      Downs(cfg, steps[..|steps| - 1], k) + Down(before, steps[|steps| - 1], k)
  }

  ghost predicate HitCount(cfg: Config, steps: seq<Step>, k: nat, count: int)
    requires k < |cfg.devices| && Exec(cfg, steps).Some?
  {
    count == When(Has(cfg.devices[k].paths, ON), Ups(cfg, steps, k))
      - When(Has(cfg.devices[k].paths, OFF), Downs(cfg, steps, k))
  }

  lemma FreshLeveled(cfg: Config)
    requires Fresh(cfg)
    ensures Leveled(cfg.devices)
  {
    forall k | 0 <= k < |cfg.devices| ensures Level(cfg.devices[k]) {
      assert Fires(cfg.devices[k], [], ON) == Fires(cfg.devices[k], [], OFF) == 0;
    }
  }

  // Any run, balanced or not, of any configuration: a count is the enabling hits on a
  // device that has an "on" path less the disabling hits if it has an "off" path, and the
  // device is switched on once while its count is positive.
  lemma {:induction false} HitsCounted(cfg: Config, steps: seq<Step>, cfg': Config)
    requires Unswapped(cfg) && Fresh(cfg) && Exec(cfg, steps) == Some(cfg')
    ensures Unswapped(cfg') && SameDevices(cfg.devices, cfg'.devices) && Leveled(cfg'.devices)
    ensures forall k: nat :: k < |cfg.devices| ==> HitCount(cfg, steps, k, cfg'.devices[k].useCount)
  {
    if steps == [] {
      FreshLeveled(cfg);
    } else {
      var before, last := Exec(cfg, steps[..|steps| - 1]).value, steps[|steps| - 1];
      HitsCounted(cfg, steps[..|steps| - 1], before);
      StepMoves(before, last);
      forall k: nat | k < |cfg.devices|
        ensures HitCount(cfg, steps, k, cfg'.devices[k].useCount)
      {
        assert HitCount(cfg, steps[..|steps| - 1], k, before.devices[k].useCount);
        assert Shifted(before.devices[k], cfg'.devices[k], Up(before, last, k), Down(before, last, k));
      }
    }
  }

  // A device without an "off" path: its count never comes down, and "on" reaches the
  // mixer with the first enabling hit and never again.
  lemma NeverOff(cfg: Config, steps: seq<Step>, cfg': Config, k: nat)
    requires Unswapped(cfg) && Fresh(cfg) && Exec(cfg, steps) == Some(cfg') && k < |cfg.devices|
    requires Has(cfg.devices[k].paths, ON) && !Has(cfg.devices[k].paths, OFF)
    ensures SameDevices(cfg.devices, cfg'.devices) && cfg'.devices[k].useCount == Ups(cfg, steps, k)
    ensures Fires(cfg'.devices[k], cfg'.devices[k].fired, ON) == if Ups(cfg, steps, k) > 0 then 1 else 0
  {
    HitsCounted(cfg, steps, cfg');
    assert HitCount(cfg, steps, k, cfg'.devices[k].useCount);
    FiresNone(cfg'.devices[k], cfg'.devices[k].fired, OFF);
  }

  lemma {:induction false} FiresNone(d: Device, fired: seq<nat>, id: int)
    requires !Has(d.paths, id)
    ensures Fires(d, fired, id) == 0
  {
    if fired != [] {
      FiresNone(d, fired[..|fired| - 1], id);
    }
  }

  // Counting users --------------------------------------------------------------------

  function Routed(devices: seq<Device>, streams: seq<Stream>, k: nat): nat {
    if streams == [] then 0 else
      Routed(devices, streams[..|streams| - 1], k) + Served(devices, streams[|streams| - 1].current, k)
  }

  function Opened(streams: seq<Stream>): nat {
    if streams == [] then 0 else
      Opened(streams[..|streams| - 1]) + if streams[|streams| - 1].refCount > 0 then 1 else 0
  }

  lemma {:induction false} RoutedUpdated(devices: seq<Device>, streams: seq<Stream>, i: nat, s: Stream, k: nat)
    requires i < |streams|
    ensures Routed(devices, streams[i := s], k) ==
      Routed(devices, streams, k) - Served(devices, streams[i].current, k) + Served(devices, s.current, k)
  {
    var last := |streams| - 1;
    if i < last {
      RoutedUpdated(devices, streams[..last], i, s, k);
      assert streams[i := s][..last] == streams[..last][i := s];
    } else {
      assert streams[i := s][..last] == streams[..last];
    }
  }

  lemma {:induction false} RoutedSame(a: seq<Device>, b: seq<Device>, streams: seq<Stream>, k: nat)
    requires SameDevices(a, b)
    ensures Routed(a, streams, k) == Routed(b, streams, k)
  {
    if streams != [] {
      RoutedSame(a, b, streams[..|streams| - 1], k);
      ServesSame(a, b, streams[|streams| - 1].current, k);
    }
  }

  lemma {:induction false} OpenedUpdated(streams: seq<Stream>, i: nat, s: Stream)
    requires i < |streams|
    ensures Opened(streams[i := s]) ==
      Opened(streams) - (if streams[i].refCount > 0 then 1 else 0) + if s.refCount > 0 then 1 else 0
  {
    var last := |streams| - 1;
    if i < last {
      OpenedUpdated(streams[..last], i, s);
      assert streams[i := s][..last] == streams[..last][i := s];
    } else {
      assert streams[i := s][..last] == streams[..last];
    }
  }

  // The streams a walk of whose mask would serve the device; for the global device, the
  // open streams.
  function Users(cfg: Config, k: nat): nat {
    Routed(cfg.devices, cfg.streams, k) + Global(cfg.devices, k) * Opened(cfg.streams)
  }

  predicate Switchable(d: Device) {
    Has(d.paths, ON) && Has(d.paths, OFF)
  }

  // Every device that can be switched both ways counts its users.
  ghost predicate Counted(cfg: Config) {
    forall k: nat :: k < |cfg.devices| && Switchable(cfg.devices[k]) ==> cfg.devices[k].useCount == Users(cfg, k)
  }

  // A route moves the device's hits with its use: what the walks of the differences do is
  // the difference of what walks of the whole masks would do.
  predicate Follows(devices: seq<Device>, k: nat, current: Mask, mask: Mask, kept: Mask) {
    Served(devices, current, k) - Served(devices, current - mask, k) + Served(devices, mask - current, k)
      == Served(devices, kept, k)
  }

  ghost predicate RouteFits(cfg: Config, i: nat, mask: Mask)
    requires i < |cfg.streams|
  {
    Refused(cfg.streams[i], mask) || forall k: nat :: k < |cfg.devices| && Switchable(cfg.devices[k]) ==>
      Follows(cfg.devices, k, cfg.streams[i].current, mask, Kept(cfg, mask))
  }

  lemma UsersMove(cfg: Config, cfg': Config, i: nat, s: Stream, k: nat)
    requires i < |cfg.streams| && cfg'.streams == cfg.streams[i := s] && SameDevices(cfg.devices, cfg'.devices)
    ensures Users(cfg', k)
      == Users(cfg, k) - Served(cfg.devices, cfg.streams[i].current, k) + Served(cfg.devices, s.current, k)
      + Global(cfg.devices, k) * ((if s.refCount > 0 then 1 else 0) - if cfg.streams[i].refCount > 0 then 1 else 0)
  {
    RoutedSame(cfg.devices, cfg'.devices, cfg'.streams, k);
    RoutedUpdated(cfg.devices, cfg.streams, i, s, k);
    OpenedUpdated(cfg.streams, i, s);
    GlobalIndexSame(cfg.devices, cfg'.devices, 0);
  }

  // A route keeps every count right exactly when it fits, whatever the devices share.
  lemma RouteExact(cfg: Config, i: nat, mask: Mask)
    requires Unswapped(cfg) && Leveled(cfg.devices) && Counted(cfg) && i < |cfg.streams|
    ensures Counted(ApplyRoute(cfg, i, mask)) <==> RouteFits(cfg, i, mask)
  {
    var s, cfg' := cfg.streams[i], ApplyRoute(cfg, i, mask);
    if !Refused(s, mask) {
      RouteMoves(cfg, i, mask);
      forall k: nat | k < |cfg.devices| && Switchable(cfg.devices[k])
        ensures Switchable(cfg'.devices[k])
        ensures cfg'.devices[k].useCount == Users(cfg', k) <==>
          Follows(cfg.devices, k, s.current, mask, Kept(cfg, mask))
      {
        UsersMove(cfg, cfg', i, s.(current := Kept(cfg, mask)), k);
      }
      assert forall k: nat :: k < |cfg.devices| && Switchable(cfg'.devices[k]) ==>
        SameDevice(cfg.devices[k], cfg'.devices[k]);
    }
  }

  lemma OpenKeeps(cfg: Config, i: nat)
    requires Unswapped(cfg) && Leveled(cfg.devices) && Counted(cfg) && i < |cfg.streams| && cfg.streams[i].refCount >= 0
    ensures Counted(OpenStream(cfg, i).0)
  {
    var s, cfg' := cfg.streams[i], OpenStream(cfg, i).0;
    OpenMoves(cfg, i);
    if s.refCount < s.maxRefCount {
      forall k: nat | k < |cfg'.devices| && Switchable(cfg'.devices[k])
        ensures cfg'.devices[k].useCount == Users(cfg', k)
      {
        assert SameDevice(cfg.devices[k], cfg'.devices[k]);
        UsersMove(cfg, cfg', i, s.(refCount := s.refCount + 1), k);
      }
    }
  }

  lemma ReleaseKeeps(cfg: Config, i: nat)
    requires Unswapped(cfg) && Leveled(cfg.devices) && Counted(cfg) && i < |cfg.streams| && cfg.streams[i].refCount > 0
    ensures Counted(ReleaseStream(cfg, i))
  {
    var s, cfg' := cfg.streams[i], ReleaseStream(cfg, i);
    ReleaseMoves(cfg, i);
    forall k: nat | k < |cfg'.devices| && Switchable(cfg'.devices[k])
      ensures cfg'.devices[k].useCount == Users(cfg', k)
    {
      assert SameDevice(cfg.devices[k], cfg'.devices[k]);
      UsersMove(cfg, cfg', i, cfg'.streams[i], k);
    }
  }

  ghost predicate Inv(cfg: Config) {
    && Unswapped(cfg) && Leveled(cfg.devices) && Counted(cfg)
    && forall i :: 0 <= i < |cfg.streams| ==> cfg.streams[i].refCount >= 0
  }

  // Routes fit, and a stream is released as often as it was opened.
  ghost predicate Sensible(cfg: Config, step: Step) {
    && step.i < |cfg.streams|
    && (step.Route? ==> RouteFits(cfg, step.i, step.mask))
    && (step.Release? ==> cfg.streams[step.i].refCount > 0)
  }

  ghost predicate Along(cfg: Config, steps: seq<Step>, ok: (Config, Step) -> bool) {
    steps == [] ||
    (Along(cfg, steps[..|steps| - 1], ok)
     && Exec(cfg, steps[..|steps| - 1]).Some? && ok(Exec(cfg, steps[..|steps| - 1]).value, steps[|steps| - 1]))
  }

  lemma {:induction false} NoneUsed(devices: seq<Device>, streams: seq<Stream>, k: nat)
    requires forall i :: 0 <= i < |streams| ==> streams[i].refCount == 0 && streams[i].current == {}
    ensures Routed(devices, streams, k) == 0 && Opened(streams) == 0
  {
    if streams != [] {
      NoneUsed(devices, streams[..|streams| - 1], k);
    }
  }

  lemma SensibleKeeps(cfg: Config, step: Step)
    requires Inv(cfg) && Sensible(cfg, step)
    ensures Inv(Apply(cfg, step))
  {
    StepMoves(cfg, step);
    match step
    case Route(i, mask) => RouteExact(cfg, i, mask);
    case Open(i) => OpenKeeps(cfg, i);
    case Release(i) => ReleaseKeeps(cfg, i);
  }

  // After any run of fitting routes and balanced opens and releases, every device that can
  // be switched both ways counts its users, and is switched on exactly while it has some.
  lemma {:induction false} CountsHold(cfg: Config, steps: seq<Step>, cfg': Config)
    requires Unswapped(cfg) && Fresh(cfg) && Exec(cfg, steps) == Some(cfg') && Along(cfg, steps, Sensible)
    ensures Inv(cfg')
    ensures forall k: nat :: k < |cfg'.devices| && Switchable(cfg'.devices[k]) ==>
      Switched(cfg'.devices[k]) == if Users(cfg', k) > 0 then 1 else 0
  {
    if steps == [] {
      FreshLeveled(cfg);
      forall k: nat ensures Users(cfg, k) == 0 {
        NoneUsed(cfg.devices, cfg.streams, k);
      }
    } else {
      var before := Exec(cfg, steps[..|steps| - 1]).value;
      CountsHold(cfg, steps[..|steps| - 1], before);
      SensibleKeeps(before, steps[|steps| - 1]);
    }
  }

  // Which routes fit ------------------------------------------------------------------

  // The bits for which a device is met first by walks of a direction.
  function Owned(devices: seq<Device>, k: nat, input: bool): Mask
    requires k < |devices|
  {
    set b | b in devices[k].low && b != IN && First(devices, b, k, input)
  }

  lemma ServesOwned(devices: seq<Device>, mask: Mask, k: nat)
    requires k < |devices|
    ensures Serves(devices, mask, k) <==> mask * Owned(devices, k, IN in mask) != {}
  {
    var owned := Owned(devices, k, IN in mask);
    if Serves(devices, mask, k) {
      var b :| b in mask && b != IN && First(devices, b, k, IN in mask);
      assert b in mask * owned;
    }
    if mask * owned != {} {
      var b :| b in mask * owned;
    }
  }

  // What is kept of a mask: some of its bits, and its direction.
  predicate Within(kept: Mask, mask: Mask) {
    kept <= mask && (IN in kept <==> IN in mask)
  }

  lemma KeptWithin(cfg: Config, mask: Mask)
    ensures Within(Kept(cfg, mask), mask)
  {}

  function One(mask: Mask): nat {
    if mask == {} then 0 else 1
  }

  // A first route keeps a device in step exactly when the bits kept still reach it if any
  // did; the end of all routes always does.
  lemma SettledExact(devices: seq<Device>, k: nat, current: Mask, mask: Mask, kept: Mask)
    requires k < |devices| && Within(kept, mask) && (current == {} || mask == {})
    ensures var owned := Owned(devices, k, IN in mask);
      Follows(devices, k, current, mask, kept) <==> (mask * owned != {} ==> kept * owned != {})
  {
    assert current - {} == current && mask - {} == mask && {} - mask == {} == {} - current;
    ServesOwned(devices, mask, k);
    ServesOwned(devices, kept, k);
    assert kept * Owned(devices, k, IN in mask) <= mask * Owned(devices, k, IN in mask);
  }

  // So when no bit is masked off, a first route and the end of all routes always fit.
  lemma SettledFits(cfg: Config, i: nat, mask: Mask)
    requires i < |cfg.streams| && (cfg.streams[i].current == {} || mask == {})
    requires Kept(cfg, mask) == mask
    ensures RouteFits(cfg, i, mask)
  {
    forall k: nat | k < |cfg.devices| ensures Follows(cfg.devices, k, cfg.streams[i].current, mask, mask) {
      SettledExact(cfg.devices, k, cfg.streams[i].current, mask, mask);
    }
  }

  // An output stream keeps a device of any bits in step exactly when: if bits kept reach
  // the device, the old route had none of its bits, or old and new route have the same or
  // some each that the other lacks; otherwise, if the new route only took bits away.
  lemma ManyBitsExact(devices: seq<Device>, k: nat, current: Mask, mask: Mask, kept: Mask)
    requires k < |devices| && IN !in current && IN !in mask && Within(kept, mask)
    ensures var owned := Owned(devices, k, false);
      var old', new' := current * owned, mask * owned;
      Follows(devices, k, current, mask, kept) <==>
        if kept * owned != {} then old' == {} || (old' <= new' <==> new' <= old') else new' < old' || old' == new' == {}
  {
    var owned := Owned(devices, k, false);
    ServesOwned(devices, current, k);
    ServesOwned(devices, kept, k);
    ServesOwned(devices, current - mask, k);
    ServesOwned(devices, mask - current, k);
    Splits(current, mask, owned);
    Splits(mask, current, owned);
    assert kept * owned <= mask * owned;
  }

  lemma Splits(a: Mask, b: Mask, owned: Mask)
    ensures (a - b) * owned == {} <==> a * owned <= b * owned
  {
    if (a - b) * owned == {} {
      forall x | x in a * owned ensures x in b * owned {
        assert x !in (a - b) * owned;
      }
    } else {
      var x :| x in (a - b) * owned;
      assert x in a * owned && x !in b * owned;
    }
  }

  // An input stream that goes on to another route keeps a device of any bits in step
  // exactly when the bits for which inputs meet it first come and go as those for which
  // all devices do: the differences of the masks have lost the direction bit.
  lemma InputExact(devices: seq<Device>, k: nat, current: Mask, mask: Mask, kept: Mask)
    requires k < |devices| && IN in current && IN in mask && Within(kept, mask)
    ensures var own, first := Owned(devices, k, true), Owned(devices, k, false);
      Follows(devices, k, current, mask, kept) <==>
        One(current * own) - One(kept * own) == One((current - mask) * first) - One((mask - current) * first)
  {
    ServesOwned(devices, current, k);
    ServesOwned(devices, kept, k);
    ServesOwned(devices, current - mask, k);
    ServesOwned(devices, mask - current, k);
  }

  // The condition on the masks alone, in all cases.
  predicate MasksFit(devices: seq<Device>, k: nat, current: Mask, mask: Mask, kept: Mask)
    requires k < |devices|
  {
    var own, first := Owned(devices, k, IN in mask), Owned(devices, k, false);
    if current == {} || mask == {} then mask * own != {} ==> kept * own != {}
    else if IN in mask then
      One(current * own) - One(kept * own) == One((current - mask) * first) - One((mask - current) * first)
    else
      var old', new' := current * own, mask * own;
      if kept * own != {} then old' == {} || (old' <= new' <==> new' <= old') else new' < old' || old' == new' == {}
  }

  // For a stream routed in its own direction so far, a route fits exactly when its masks
  // do for every device that can be switched both ways.
  lemma RouteOnMasks(cfg: Config, i: nat, mask: Mask)
    requires i < |cfg.streams|
    requires cfg.streams[i].current == {} || (IN in cfg.streams[i].current <==> IsInput(cfg.streams[i]))
    ensures RouteFits(cfg, i, mask) <==>
      Refused(cfg.streams[i], mask) || forall k: nat :: k < |cfg.devices| && Switchable(cfg.devices[k]) ==>
        MasksFit(cfg.devices, k, cfg.streams[i].current, mask, Kept(cfg, mask))
  {
    var current, kept := cfg.streams[i].current, Kept(cfg, mask);
    KeptWithin(cfg, mask);
    if !Refused(cfg.streams[i], mask) {
      forall k: nat | k < |cfg.devices|
        ensures Follows(cfg.devices, k, current, mask, kept) <==> MasksFit(cfg.devices, k, current, mask, kept)
      {
        if current == {} || mask == {} {
          SettledExact(cfg.devices, k, current, mask, kept);
        } else if IN in mask {
          InputExact(cfg.devices, k, current, mask, kept);
        } else {
          ManyBitsExact(cfg.devices, k, current, mask, kept);
        }
      }
    }
  }

  // The bit of a device.
  predicate HasBit(d: Device, b: nat) {
    b != IN && d.low == {b}
  }

  lemma ServesBit(devices: seq<Device>, mask: Mask, k: nat, b: nat)
    requires k < |devices| && HasBit(devices[k], b)
    ensures Serves(devices, mask, k) <==> b in mask && First(devices, b, k, IN in mask)
  {
    assert forall x :: First(devices, x, k, IN in mask) ==> x == b;
  }

  // A device with one bit stays in step exactly when: for an input stream that goes on to
  // another route, a bit that stays is kept or reaches no input, a bit that goes or comes
  // finds the device first among inputs as it does among all devices; in all other
  // routes, a bit that reaches the device is kept.
  lemma OneBitExact(devices: seq<Device>, k: nat, b: nat, current: Mask, mask: Mask, kept: Mask)
    requires k < |devices| && HasBit(devices[k], b) && Within(kept, mask)
    requires current == {} || mask == {} || (IN in current <==> IN in mask)
    ensures var input, any := First(devices, b, k, true), First(devices, b, k, false);
      Follows(devices, k, current, mask, kept) <==>
        if IN in current && IN in mask then
          && (b in current && b in mask ==> b in kept || !input)
          && (b in current && b !in mask ==> (input <==> any))
          && (b !in current && b in mask ==> (input && b in kept <==> any))
        else b in mask && First(devices, b, k, IN in mask) ==> b in kept
  {
    ServesBit(devices, current, k, b);
    ServesBit(devices, kept, k, b);
    ServesBit(devices, current - mask, k, b);
    ServesBit(devices, mask - current, k, b);
  }

  // An input stream that adds a bit first held by an output device to its route enables
  // that device, and the end of the route does not disable it.
  lemma OutputBitLeaks(cfg: Config, i: nat, k: nat, b: nat)
    requires Unswapped(cfg) && Leveled(cfg.devices) && i < |cfg.streams| && k < |cfg.devices|
    requires HasBit(cfg.devices[k], b) && !cfg.devices[k].input && First(cfg.devices, b, k, false)
    requires IsInput(cfg.streams[i]) && IN in cfg.streams[i].current && b !in cfg.streams[i].current
    ensures var routed := ApplyRoute(cfg, i, cfg.streams[i].current + {b});
      && routed.devices[k].useCount == cfg.devices[k].useCount + When(Has(cfg.devices[k].paths, ON), 1)
      && ApplyRoute(routed, i, {}).devices[k].useCount == routed.devices[k].useCount
  {
    var current := cfg.streams[i].current;
    var mask := current + {b};
    var routed := ApplyRoute(cfg, i, mask);
    RouteMoves(cfg, i, mask);
    assert current - mask == {} && mask - current == {b};
    ServesBit(cfg.devices, {b}, k, b);
    assert Shifted(cfg.devices[k], routed.devices[k], 1, 0);
    RouteMoves(routed, i, {});
    ServesSame(cfg.devices, routed.devices, routed.streams[i].current - {}, k);
    ServesBit(cfg.devices, routed.streams[i].current - {}, k, b);
    assert Shifted(routed.devices[k], ApplyRoute(routed, i, {}).devices[k], 0, 0);
  }

  // Devices of one bit each, none shared ------------------------------------------------

  predicate Apart(devices: seq<Device>) {
    forall j, k :: 0 <= j < k < |devices| ==> devices[j].low * devices[k].low == {}
  }

  ghost predicate OwnBits(devices: seq<Device>) {
    && Apart(devices)
    && forall k :: 0 <= k < |devices| ==> IsGlobal(devices[k]) || exists b :: HasBit(devices[k], b)
  }

  lemma NotShared(a: Mask, c: Mask, b: nat)
    requires a * c == {} && b in c
    ensures b !in a
  {
    assert b in a ==> b in a * c;
  }

  lemma OwnServes(devices: seq<Device>, mask: Mask, k: nat, b: nat)
    requires Apart(devices) && k < |devices| && HasBit(devices[k], b)
    ensures Serves(devices, mask, k) <==> b in mask && (IN in mask ==> devices[k].input)
  {
    ServesBit(devices, mask, k, b);
    forall j | 0 <= j < k ensures b !in devices[j].low {
      NotShared(devices[j].low, devices[k].low, b);
    }
  }

  // A mask names only devices of its own direction that the masks of all devices allow.
  ghost predicate Declared(cfg: Config, mask: Mask) {
    forall k: nat, b: nat :: k < |cfg.devices| && HasBit(cfg.devices[k], b) && b in mask ==>
      (cfg.devices[k].input <==> IN in mask) && b in if IN in mask then cfg.inAll else cfg.outAll
  }

  ghost predicate DirectedStream(devices: seq<Device>, current: Mask) {
    forall k: nat, b: nat :: k < |devices| && HasBit(devices[k], b) && b in current ==>
      (devices[k].input <==> IN in current)
  }

  ghost predicate Directed(cfg: Config) {
    forall i: nat :: i < |cfg.streams| ==> DirectedStream(cfg.devices, cfg.streams[i].current)
  }

  lemma DeclaredFits(cfg: Config, i: nat, mask: Mask)
    requires OwnBits(cfg.devices) && i < |cfg.streams| && Declared(cfg, mask)
    requires DirectedStream(cfg.devices, cfg.streams[i].current)
    ensures RouteFits(cfg, i, mask)
    ensures Refused(cfg.streams[i], mask) || DirectedStream(cfg.devices, Kept(cfg, mask))
  {
    var current, kept := cfg.streams[i].current, Kept(cfg, mask);
    forall k: nat | k < |cfg.devices| ensures Follows(cfg.devices, k, current, mask, kept) {
      if b :| HasBit(cfg.devices[k], b) {
        OwnServes(cfg.devices, current, k, b);
        OwnServes(cfg.devices, current - mask, k, b);
        OwnServes(cfg.devices, mask - current, k, b);
        OwnServes(cfg.devices, kept, k, b);
      }
    }
  }

  // Routes to declared devices, and balanced opens and releases.
  ghost predicate Plain(cfg: Config, step: Step) {
    && step.i < |cfg.streams|
    && (step.Route? ==> Declared(cfg, step.mask))
    && (step.Release? ==> cfg.streams[step.i].refCount > 0)
  }

  lemma {:induction false} PlainIsSensible(cfg: Config, steps: seq<Step>, cfg': Config)
    requires Unswapped(cfg) && Fresh(cfg) && OwnBits(cfg.devices)
    requires Exec(cfg, steps) == Some(cfg') && Along(cfg, steps, Plain)
    ensures Along(cfg, steps, Sensible) && Directed(cfg') && OwnBits(cfg'.devices)
  {
    if steps != [] {
      var before, last := Exec(cfg, steps[..|steps| - 1]).value, steps[|steps| - 1];
      PlainIsSensible(cfg, steps[..|steps| - 1], before);
      HitsCounted(cfg, steps[..|steps| - 1], before);
      StepMoves(before, last);
      SameBits(before.devices, cfg'.devices);
      assert DirectedStream(before.devices, before.streams[last.i].current);
      if last.Route? {
        DeclaredFits(before, last.i, last.mask);
      }
      forall j: nat | j < |cfg'.streams| ensures DirectedStream(cfg'.devices, cfg'.streams[j].current) {
        assert DirectedStream(before.devices, before.streams[j].current);
        assert DirectedStream(before.devices, {});
      }
    }
  }

  lemma SameBits(a: seq<Device>, b: seq<Device>)
    requires SameDevices(a, b) && OwnBits(a)
    ensures OwnBits(b) && forall current :: DirectedStream(a, current) ==> DirectedStream(b, current)
  {
    forall k | 0 <= k < |b| ensures IsGlobal(b[k]) || exists x :: HasBit(b[k], x) {
      assert IsGlobal(a[k]) || exists x :: HasBit(a[k], x);
      assert SameDevice(a[k], b[k]);
      if x :| HasBit(a[k], x) {
        assert HasBit(b[k], x);
      }
    }
    forall current | DirectedStream(a, current) ensures DirectedStream(b, current) {
      assert forall k: nat, x: nat :: k < |b| && HasBit(b[k], x) ==> HasBit(a[k], x) && a[k].input == b[k].input;
    }
  }

  function RoutedBit(streams: seq<Stream>, b: nat): nat {
    if streams == [] then 0 else
      RoutedBit(streams[..|streams| - 1], b) + if b in streams[|streams| - 1].current then 1 else 0
  }

  lemma {:induction false} RoutedIsBit(devices: seq<Device>, streams: seq<Stream>, k: nat, b: nat)
    requires Apart(devices) && k < |devices| && HasBit(devices[k], b)
    requires forall i: nat :: i < |streams| ==> DirectedStream(devices, streams[i].current)
    ensures Routed(devices, streams, k) == RoutedBit(streams, b)
  {
    if streams != [] {
      RoutedIsBit(devices, streams[..|streams| - 1], k, b);
      OwnServes(devices, streams[|streams| - 1].current, k, b);
    }
  }

  // With devices of one bit each, after any run of routes to declared devices and balanced
  // opens and releases, a count is the number of streams routed to the device.
  lemma PlainCounts(cfg: Config, steps: seq<Step>, cfg': Config, k: nat, b: nat)
    requires Unswapped(cfg) && Fresh(cfg) && OwnBits(cfg.devices)
    requires Exec(cfg, steps) == Some(cfg') && Along(cfg, steps, Plain)
    requires k < |cfg'.devices| && Switchable(cfg'.devices[k]) && HasBit(cfg'.devices[k], b)
    ensures cfg'.devices[k].useCount == RoutedBit(cfg'.streams, b)
  {
    PlainIsSensible(cfg, steps, cfg');
    CountsHold(cfg, steps, cfg');
    RoutedIsBit(cfg'.devices, cfg'.streams, k, b);
    assert !IsGlobal(cfg'.devices[k]);
  }

  // The global device counts the open streams, whatever the other devices share.
  lemma GlobalCounts(cfg: Config, steps: seq<Step>, cfg': Config)
    requires Unswapped(cfg) && Fresh(cfg) && Exec(cfg, steps) == Some(cfg') && Along(cfg, steps, Sensible)
    ensures var g := GlobalIndex(cfg'.devices, 0);
      g < |cfg'.devices| && Switchable(cfg'.devices[g]) ==> cfg'.devices[g].useCount == Opened(cfg'.streams)
  {
    CountsHold(cfg, steps, cfg');
    var g := GlobalIndex(cfg'.devices, 0);
    if g < |cfg'.devices| {
      GlobalUnrouted(cfg'.devices, cfg'.streams, g);
    }
  }

  lemma {:induction false} GlobalUnrouted(devices: seq<Device>, streams: seq<Stream>, k: nat)
    requires k < |devices| && IsGlobal(devices[k])
    ensures Routed(devices, streams, k) == 0
  {
    if streams != [] {
      GlobalUnrouted(devices, streams[..|streams| - 1], k);
    }
  }

  // Special paths ---------------------------------------------------------------------------

  predicate Special(id: int) {
    id != ON && id != OFF
  }

  // Any path but "on" and "off" reaches the mixer each time.
  lemma FirePathFires(d: Device, p: nat, id: int)
    requires p < |d.paths| && Special(id)
    ensures var e := FirePath(d, p);
      SameDevice(d, e) && Fires(e, e.fired, id) == Fires(d, d.fired, id) + if d.paths[p] == id then 1 else 0
  {
    var e := FirePath(d, p);
    FiresMore(d, p, id);
    FiresSame(d, e, e.fired, id);
  }

  // So often does a walk that names two paths apply a special one to a device it serves.
  function Named(d: Device, first: int, second: int, id: int): nat {
    if Has(d.paths, id) && (id == first || id == second) then 1 else 0
  }

  lemma ApplyByIdFires(d: Device, first: int, second: int, id: int)
    requires Special(id)
    ensures var e := ApplyById(d, first, second);
      SameDevice(d, e) && Fires(e, e.fired, id) == Fires(d, d.fired, id) + Named(d, first, second, id)
  {
    var (found0, found1) := FindPaths(d.paths, 0, None, None, first, second);
    FindPathsFinds(d.paths, 0, None, None, first, second);
    var e := FireFound(d, found0);
    if found0.Some? {
      FirePathFires(d, found0.value, id);
    }
    if found1.Some? {
      FirePathFires(e, found1.value, id);
    }
  }

  // The paths a walk adds: at most one of each kind, the first before the second.
  predicate InOrder(d: Device, added: seq<nat>, first: int, second: int) {
    && |added| <= 2 && (forall i :: 0 <= i < |added| ==> added[i] < |d.paths|)
    && (|added| == 1 ==> d.paths[added[0]] == first || d.paths[added[0]] == second)
    && (|added| == 2 ==> d.paths[added[0]] == first && d.paths[added[1]] == second)
  }

  function Added(d: Device, e: Device): seq<nat> {
    if |d.fired| <= |e.fired| then e.fired[|d.fired|..] else []
  }

  lemma FoundAdds(d: Device, found: Option<nat>)
    requires found.Some? ==> found.value < |d.paths|
    ensures var e := FireFound(d, found);
      && e.paths == d.paths && e.fired == d.fired + Added(d, e)
      && (Added(d, e) == [] || (found.Some? && Added(d, e) == [found.value]))
  {
    assert d.fired + [] == d.fired;
  }

  lemma AddedBoth(d: Device, m: Device, e: Device)
    requires m.fired == d.fired + Added(d, m) && e.fired == m.fired + Added(m, e)
    ensures e.fired == d.fired + Added(d, e) && Added(d, e) == Added(d, m) + Added(m, e)
  {
    assert e.fired == d.fired + (Added(d, m) + Added(m, e));
  }

  lemma ApplyByIdOrder(d: Device, first: int, second: int)
    ensures var e := ApplyById(d, first, second);
      e.fired == d.fired + Added(d, e) && InOrder(d, Added(d, e), first, second)
  {
    var (found0, found1) := FindPaths(d.paths, 0, None, None, first, second);
    FindPathsFinds(d.paths, 0, None, None, first, second);
    var m := FireFound(d, found0);
    FoundAdds(d, found0);
    FoundAdds(m, found1);
    AddedBoth(d, m, FireFound(m, found1));
  }

  // What a walk that names two paths does to a device, served or not: the special path is
  // fired if the device has it, and the two in their order.
  predicate Fired(d: Device, e: Device, served: bool, first: int, second: int, id: int) {
    && SameDevice(d, e) && e.fired == d.fired + Added(d, e) && InOrder(d, Added(d, e), first, second)
    && Fires(e, e.fired, id) == Fires(d, d.fired, id) + if served then Named(d, first, second, id) else 0
  }

  lemma ServedFires(d: Device, first: int, second: int, id: int)
    requires Special(id)
    ensures Fired(d, ApplyById(d, first, second), true, first, second, id) && Fired(d, d, false, first, second, id)
  {
    ApplyByIdFires(d, first, second, id);
    ApplyByIdOrder(d, first, second);
    assert d.fired == d.fired + [];
  }

  lemma DevicesFire(devices: seq<Device>, mask: Mask, first: int, second: int, k: nat, id: int)
    requires k < |devices| && Special(id)
    ensures var r := ApplyToDevices(devices, mask, first, second);
      Fired(devices[k], r[k], Serves(devices, mask, k), first, second, id)
  {
    DevicesServed(devices, mask, first, second, k);
    ServedFires(devices[k], first, second, id);
  }

  lemma GlobalFires(devices: seq<Device>, first: int, second: int, k: nat, id: int)
    requires k < |devices| && Special(id)
    ensures Fired(devices[k], ApplyToGlobal(devices, first, second)[k], ToldGlobal(devices, k), first, second, id)
  {
    ServedFires(devices[k], first, second, id);
  }

  lemma WalkSame(devices: seq<Device>, mask: Mask, first: int, second: int)
    ensures SameDevices(devices, ApplyToDevices(devices, mask, first, second))
  {
    forall k | 0 <= k < |devices| ensures SameDevice(devices[k], ApplyToDevices(devices, mask, first, second)[k]) {
      DevicesFire(devices, mask, first, second, k, 2);
    }
  }

  // What two walks one after the other do to a device.
  ghost predicate FiredTwice(d: Device, e: Device, served: bool, first: int, second: int, served': bool, first': int,
      second': int, id: int) {
    && SameDevice(d, e) && |d.fired| <= |e.fired| && e.fired[..|d.fired|] == d.fired
    && Fires(e, e.fired, id) == Fires(d, d.fired, id)
      + (if served then Named(d, first, second, id) else 0) + (if served' then Named(d, first', second', id) else 0)
    && exists n :: InTwo(d, Added(d, e), n, first, second, first', second')
  }

  predicate InTwo(d: Device, added: seq<nat>, n: int, first: int, second: int, first': int, second': int) {
    0 <= n <= |added| && InOrder(d, added[..n], first, second) && InOrder(d, added[n..], first', second')
  }

  lemma FiredBoth(d: Device, m: Device, e: Device, served: bool, first: int, second: int, served': bool, first': int,
      second': int, id: int)
    requires Fired(d, m, served, first, second, id) && Fired(m, e, served', first', second', id)
    ensures FiredTwice(d, e, served, first, second, served', first', second', id)
  {
    var n := |Added(d, m)|;
    FiresSame(d, m, m.fired, id);
    AddedBoth(d, m, e);
    assert Added(d, e)[..n] == Added(d, m) && Added(d, e)[n..] == Added(m, e);
    assert InTwo(d, Added(d, e), n, first, second, first', second');
  }

  // A route fires the stream's disable path, then "off", on every device the walk over the
  // bits that go serves, and "on", then the enable path, on those the walk over the bits
  // that come serves; of special paths these, if the device has them, and no others.
  lemma RouteFires(cfg: Config, i: nat, mask: Mask, k: nat, id: int)
    requires i < |cfg.streams| && !Refused(cfg.streams[i], mask) && k < |cfg.devices| && Special(id)
    ensures var s := cfg.streams[i];
      FiredTwice(cfg.devices[k], ApplyRoute(cfg, i, mask).devices[k],
        Serves(cfg.devices, s.current - mask, k), s.disable, OFF,
        Serves(cfg.devices, mask - s.current, k), ON, s.enable, id)
  {
    var s := cfg.streams[i];
    var off := ApplyToDevices(cfg.devices, s.current - mask, s.disable, OFF);
    var on := ApplyToDevices(off, mask - s.current, ON, s.enable);
    DevicesFire(cfg.devices, s.current - mask, s.disable, OFF, k, id);
    WalkSame(cfg.devices, s.current - mask, s.disable, OFF);
    DevicesFire(off, mask - s.current, ON, s.enable, k, id);
    ServesSame(cfg.devices, off, mask - s.current, k);
    FiredBoth(cfg.devices[k], off[k], on[k], Serves(cfg.devices, s.current - mask, k), s.disable, OFF,
      Serves(cfg.devices, mask - s.current, k), ON, s.enable, id);
  }

  // The open that makes the global device the user of a stream.
  predicate Opens(cfg: Config, i: nat, k: nat)
    requires i < |cfg.streams|
  {
    cfg.streams[i].refCount == 0 && 0 < cfg.streams[i].maxRefCount && ToldGlobal(cfg.devices, k)
  }

  lemma OpenedDevice(cfg: Config, i: nat, k: nat)
    requires i < |cfg.streams| && k < |cfg.devices|
    ensures OpenStream(cfg, i).0.devices[k]
      == if Opens(cfg, i, k) then ApplyById(cfg.devices[k], ON, cfg.streams[i].enable) else cfg.devices[k]
  {}

  // The first open of a stream fires "on" and then its enable path on the global device.
  lemma OpenFires(cfg: Config, i: nat, k: nat, id: int)
    requires i < |cfg.streams| && k < |cfg.devices| && Special(id)
    ensures var s := cfg.streams[i];
      Fired(cfg.devices[k], OpenStream(cfg, i).0.devices[k], Opens(cfg, i, k), ON, s.enable, id)
  {
    OpenedDevice(cfg, i, k);
    ServedFires(cfg.devices[k], ON, cfg.streams[i].enable, id);
  }

  // The last release fires "off" and then the disable path on the devices of its route,
  // and the disable path and then "off" on the global device.
  lemma ReleaseFires(cfg: Config, i: nat, k: nat, id: int)
    requires i < |cfg.streams| && k < |cfg.devices| && Special(id) && cfg.streams[i].refCount == 1
    ensures var s := cfg.streams[i];
      FiredTwice(cfg.devices[k], ReleaseStream(cfg, i).devices[k],
        Serves(cfg.devices, s.current, k), OFF, s.disable, ToldGlobal(cfg.devices, k), s.disable, OFF, id)
  {
    var s := cfg.streams[i];
    var off := ApplyToDevices(cfg.devices, s.current, OFF, s.disable);
    var told := ApplyToGlobal(off, s.disable, OFF);
    DevicesFire(cfg.devices, s.current, OFF, s.disable, k, id);
    WalkSame(cfg.devices, s.current, OFF, s.disable);
    GlobalFires(off, s.disable, OFF, k, id);
    GlobalIndexSame(cfg.devices, off, 0);
    FiredBoth(cfg.devices[k], off[k], told[k], Serves(cfg.devices, s.current, k), OFF, s.disable,
      ToldGlobal(cfg.devices, k), s.disable, OFF, id);
  }

  // Other releases and refused operations leave the devices alone, and each operation
  // leaves of the streams exactly this.
  lemma RouteStreams(cfg: Config, i: nat, mask: Mask)
    requires i < |cfg.streams|
    ensures var s, cfg' := cfg.streams[i], ApplyRoute(cfg, i, mask);
      if mask != {} && (IN in mask <==> s.kind !in {InPcm, InCompress, InHw}) then cfg' == cfg
      else
        && cfg'.outAll == cfg.outAll && cfg'.inAll == cfg.inAll
        && cfg'.streams == cfg.streams[i := s.(current := cfg'.streams[i].current)]
        && forall b: nat :: b in cfg'.streams[i].current <==>
          b in mask && (b == IN || b in if IN in mask then cfg.inAll else cfg.outAll)
  {}

  lemma OpenStreams(cfg: Config, i: nat)
    requires i < |cfg.streams|
    ensures var s, (cfg', ok) := cfg.streams[i], OpenStream(cfg, i);
      && (ok <==> s.refCount < s.maxRefCount)
      && (!ok ==> cfg' == cfg)
      && (ok ==> cfg'.streams == cfg.streams[i := s.(refCount := s.refCount + 1)])
      && (ok && s.refCount != 0 ==> cfg'.devices == cfg.devices)
  {}

  lemma ReleaseStreams(cfg: Config, i: nat)
    requires i < |cfg.streams|
    ensures var s, cfg' := cfg.streams[i], ReleaseStream(cfg, i);
      && cfg'.streams[i].refCount == s.refCount - 1
      && cfg'.streams[i].current == (if s.refCount == 1 then {} else s.current)
      && cfg'.streams == cfg.streams[i := s.(refCount := s.refCount - 1, current := cfg'.streams[i].current)]
      && (s.refCount != 1 ==> cfg'.devices == cfg.devices)
  {}

  // The configuration file of the tree ----------------------------------------------------

  // Its devices in order: speaker, headphone, headset, headset_in and mic; the paths are
  // 2 and 3 for playback, 4 and 5 for capture.
  function Shipped(outAll: Mask, inAll: Mask, instances: int): Config {
    Config([Device({1}, false, 0, [ON, 2, 3], []), Device({3}, false, 0, [ON, 2, 3], []),
            Device({2}, false, 0, [ON, 2, 3], []), Device({4}, true, 0, [4, 5], []),
            Device({2}, true, 0, [ON, 4, 5], [])],
           [Stream(OutPcm, 0, instances, 2, 3, {}), Stream(InPcm, 0, instances, 4, 5, {})], outAll, inAll)
  }

  lemma ShippedPaths(outAll: Mask, inAll: Mask, instances: int, k: nat)
    requires k < 5
    ensures var cfg := Shipped(outAll, inAll, instances);
      && Unswapped(cfg) && Fresh(cfg) && |cfg.devices| == 5
      && (Has(cfg.devices[k].paths, ON) <==> k != 3) && !Has(cfg.devices[k].paths, OFF)
  {
    if k != 3 {
      assert Shipped(outAll, inAll, instances).devices[k].paths[0] == ON;
    }
  }

  // No count of it ever comes down, and no "on" path reaches the mixer twice.
  lemma ShippedOnlyUp(outAll: Mask, inAll: Mask, instances: int, steps: seq<Step>, cfg': Config, k: nat)
    requires Exec(Shipped(outAll, inAll, instances), steps) == Some(cfg') && k < 5
    ensures |cfg'.devices| == 5
    ensures cfg'.devices[k].useCount == if k == 3 then 0 else Ups(Shipped(outAll, inAll, instances), steps, k)
    ensures Fires(cfg'.devices[k], cfg'.devices[k].fired, ON) <= 1
  {
    var cfg := Shipped(outAll, inAll, instances);
    ShippedPaths(outAll, inAll, instances, k);
    if k == 3 {
      HitsCounted(cfg, steps, cfg');
      assert HitCount(cfg, steps, k, cfg'.devices[k].useCount);
      FiresNone(cfg'.devices[k], cfg'.devices[k].fired, ON);
    } else {
      NeverOff(cfg, steps, cfg', k);
    }
  }

  // Recording that moves from the microphone to the headset's: the walk for the bit that
  // goes meets the headset, so no path of the microphone is applied and it stays on.
  lemma MicrophoneStays(cfg: Config, outAll: Mask, inAll: Mask, instances: int)
    requires Leveled(cfg.devices) && SameDevices(Shipped(outAll, inAll, instances).devices, cfg.devices)
    requires |cfg.streams| == 2 && IsInput(cfg.streams[1]) && cfg.streams[1].current == {IN, 2}
    ensures ApplyRoute(cfg, 1, {IN, 4}).devices[4] == cfg.devices[4]
    ensures ApplyRoute(cfg, 1, {IN, 4}).devices[2] == ApplyById(cfg.devices[2], cfg.streams[1].disable, OFF)
  {
    var s := cfg.streams[1];
    assert {IN, 2} - {IN, 4} == {2} && {IN, 4} - {IN, 2} == {4};
    var off := ApplyToDevices(cfg.devices, {2}, s.disable, OFF);
    forall k | k == 2 || k == 4
      ensures ApplyRoute(cfg, 1, {IN, 4}).devices[k]
        == if k == 2 then ApplyById(cfg.devices[k], s.disable, OFF) else cfg.devices[k]
    {
      assert HasBit(cfg.devices[k], 2) && HasBit(cfg.devices[2], 2);
      DevicesChange(cfg.devices, {2}, s.disable, OFF);
      DevicesServed(cfg.devices, {2}, s.disable, OFF, k);
      DevicesServed(off, {4}, ON, s.enable, k);
      ServesSame(cfg.devices, off, {4}, k);
      ServesBit(cfg.devices, {2}, k, 2);
      ServesBit(cfg.devices, {4}, k, 2);
    }
  }
}

// The configuration manager; its methods run with the manager's lock held.
module AudioRouting {
  import opened Options
  import opened RoutingModel

  class ConfigMgr {
    var devices: seq<Device>
    var streams: seq<Stream>
    const outAll: Mask
    const inAll: Mask

    ghost function View(): Config
      reads this
    {
      Config(devices, streams, outAll, inAll)
    }

    constructor (devices: seq<Device>, streams: seq<Stream>, outAll: Mask, inAll: Mask)
      ensures View() == Config(devices, streams, outAll, inAll)
    {
      this.devices, this.streams, this.outAll, this.inAll := devices, streams, outAll, inAll;
    }

    // apply_device_path_l
    method ApplyDevicePath(k: nat, p: nat)
      requires k < |devices| && p < |devices[k].paths|
      modifies this`devices
      ensures devices == old(devices)[k := FirePath(old(devices)[k], p)]
    {
      var d := devices[k];
      if d.paths[p] == OFF {
        d := d.(useCount := d.useCount - 1);
        devices := devices[k := d];
        if d.useCount > 0 { return; }
      } else if d.paths[p] == ON {
        d := d.(useCount := d.useCount + 1);
        devices := devices[k := d];
        if d.useCount > 1 { return; }
      }
      devices := devices[k := d.(fired := d.fired + [p])];
    }

    // apply_paths_by_id_l
    method ApplyPathsById(k: nat, first: int, second: int)
      requires k < |devices|
      modifies this`devices
      ensures devices == old(devices)[k := ApplyById(old(devices)[k], first, second)]
    {
      var paths := devices[k].paths;
      var found0: Option<nat>, found1: Option<nat> := None, None;
      ghost var goal := FindPaths(paths, 0, None, None, first, second);
      var i, done := 0, false;
      while i < |paths| && !done
        invariant i <= |paths|
        invariant (found0.Some? ==> found0.value < |paths|) && (found1.Some? ==> found1.value < |paths|)
        invariant goal == if done then (found0, found1) else FindPaths(paths, i, found0, found1, first, second)
      {
        if paths[i] == first {
          found0 := Some(i);
          done := found1.Some? || first == second;
        } else if paths[i] == second {
          found1 := Some(i);
          done := found0.Some?;
        }
        i := i + 1;
      }
      if found0.Some? {
        ApplyDevicePath(k, found0.value);
      }
      if found1.Some? {
        ApplyDevicePath(k, found1.value);
      }
    }

    // apply_paths_to_devices_l
    method ApplyPathsToDevices(mask: Mask, first: int, second: int)
      modifies this`devices
      ensures devices == ApplyToDevices(old(devices), mask, first, second)
    {
      var input, left, i := IN in mask, mask - {IN}, 0;
      while i < |devices| && left != {}
        invariant i <= |devices|
        invariant Walk(devices, i, left, input, first, second) == ApplyToDevices(old(devices), mask, first, second)
        decreases |devices| - i
      {
        if Hit(devices[i], left, input) {
          left := left - devices[i].low;
          ApplyPathsById(i, first, second);
        }
        i := i + 1;
      }
    }

    // apply_paths_to_global_l
    method ApplyPathsToGlobal(first: int, second: int)
      modifies this`devices
      ensures devices == ApplyToGlobal(old(devices), first, second)
    {
      var i := 0;
      while i < |devices| && !IsGlobal(devices[i])
        invariant i <= |devices| && GlobalIndex(devices, i) == GlobalIndex(devices, 0)
      {
        i := i + 1;
      }
      if i < |devices| {
        ApplyPathsById(i, first, second);
      }
    }

    // apply_route
    method ApplyRoute(i: nat, mask: Mask)
      requires i < |streams|
      modifies this
      ensures View() == RoutingModel.ApplyRoute(old(View()), i, mask)
    {
      var s := streams[i];
      var enabling, disabling, kept := mask - s.current, s.current - mask, mask;
      if mask != {} {
        if IN in mask {
          if !IsInput(s) { return; }
          kept := mask * inAll + {IN};
        } else {
          if IsInput(s) { return; }
          kept := mask * outAll;
        }
      }
      ApplyPathsToDevices(disabling, s.disable, OFF);
      ApplyPathsToDevices(enabling, ON, s.enable);
      streams := streams[i := s.(current := kept)];
    }

    // open_stream_l
    method OpenStream(i: nat) returns (ok: bool)
      requires i < |streams|
      modifies this
      ensures (View(), ok) == RoutingModel.OpenStream(old(View()), i)
    {
      var s := streams[i];
      if s.refCount < s.maxRefCount {
        streams := streams[i := s.(refCount := s.refCount + 1)];
        if s.refCount + 1 == 1 {
          ApplyPathsToGlobal(ON, s.enable);
        }
        return true;
      }
      return false;
    }

    // get_stream for a direction and encoding: the last stream of that type with a
    // reference to spare.
    method GetStream(input: bool, pcm: bool) returns (i: int)
      modifies this
      ensures var kind := if input then (if pcm then InPcm else InCompress) else (if pcm then OutPcm else OutCompress);
        i == Eligible(old(streams), |old(streams)|, kind)
      ensures View() == if i < 0 then old(View()) else RoutingModel.OpenStream(old(View()), i).0
    {
      var kind := if input then (if pcm then InPcm else InCompress) else (if pcm then OutPcm else OutCompress);
      i := |streams| - 1;
      while i >= 0
        invariant -1 <= i < |streams| && View() == old(View())
        invariant Eligible(streams, i + 1, kind) == Eligible(streams, |streams|, kind)
      {
        if streams[i].kind == kind {
          var ok := OpenStream(i);
          if ok { return; }
        }
        i := i - 1;
      }
    }

    // release_stream
    method ReleaseStream(i: nat)
      requires i < |streams|
      modifies this
      ensures View() == RoutingModel.ReleaseStream(old(View()), i)
    {
      var s := streams[i];
      streams := streams[i := s.(refCount := s.refCount - 1)];
      if s.refCount - 1 == 0 {
        ApplyPathsToDevices(s.current, OFF, s.disable);
        ApplyPathsToGlobal(s.disable, OFF);
        streams := streams[i := s.(refCount := 0, current := {})];
      }
    }
  }
}
