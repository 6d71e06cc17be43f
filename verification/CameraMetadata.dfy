// camera/LegacyMetadata.cpp: how the packets of one capture are merged into the
// metadata handed to the client.

module ResultMetadata {
  import opened Options

  datatype Tag = QuirksPartialResult | PipelineDepth | FlashState | Other(id: nat)
  datatype Entry = Entry(tag: Tag, data: seq<int>)

  // A packet as the device sends it, and metadata by tag.
  type Packet = seq<Entry>
  type Metadata = map<Tag, seq<int>>

  const PARTIAL := 1
  const PIPELINE_DEPTH := 8
  const FLASH_STATE_UNAVAILABLE := 0

  function Find(packet: Packet, tag: Tag): Option<seq<int>> {
    if packet == [] then None else if packet[0].tag == tag then Some(packet[0].data) else Find(packet[1..], tag)
  }

  // A packet that will be followed by more for the same capture.
  predicate IsPartial(packet: Packet) {
    Find(packet, QuirksPartialResult) == Some([PARTIAL])
  }

  // What a packet says about a tag: its last entry for it.
  function Latest(packet: Packet, tag: Tag): Option<seq<int>> {
    if packet == [] then None
    else if packet[|packet| - 1].tag == tag then Some(packet[|packet| - 1].data)
    else Latest(packet[..|packet| - 1], tag)
  }

  function Put(m: Metadata, entry: Entry): Metadata {
    if entry.tag == QuirksPartialResult then m else m[entry.tag := entry.data]
  }

  function Merge(m: Metadata, packet: Packet): Metadata {
    if packet == [] then m else Put(Merge(m, packet[..|packet| - 1]), packet[|packet| - 1])
  }

  // The partial packets of a capture laid over one another in arrival order.
  function Overlay(packets: seq<Packet>): Metadata {
    if packets == [] then map[] else Merge(Overlay(packets[..|packets| - 1]), packets[|packets| - 1])
  }

  function Flatten(packets: seq<Packet>): Packet {
    if packets == [] then [] else Flatten(packets[..|packets| - 1]) + packets[|packets| - 1]
  }

  function Fixed(m: Metadata): Metadata {
    m[PipelineDepth := [PIPELINE_DEPTH]][FlashState := [FLASH_STATE_UNAVAILABLE]]
  }

  // finishResult: the final packet overridden by the partials, plus two fixed values.
  function Finish(final: Packet, partials: Metadata): Metadata {
    Fixed(Merge(map[], final) + partials)
  }

  lemma {:induction false} MergeLatest(m: Metadata, packet: Packet, tag: Tag)
    requires tag != QuirksPartialResult
    ensures tag in Merge(m, packet) <==> tag in m || Latest(packet, tag).Some?
    ensures tag in Merge(m, packet) ==>
      Merge(m, packet)[tag] == if Latest(packet, tag).Some? then Latest(packet, tag).value else m[tag]
  {
    if packet != [] {
      MergeLatest(m, packet[..|packet| - 1], tag);
    }
  }

  lemma {:induction false} MergeSkipsQuirk(m: Metadata, packet: Packet)
    requires QuirksPartialResult !in m
    ensures QuirksPartialResult !in Merge(m, packet)
  {
    if packet != [] {
      MergeSkipsQuirk(m, packet[..|packet| - 1]);
    }
  }

  lemma {:induction false} LatestOfSum(a: Packet, b: Packet, tag: Tag)
    ensures Latest(a + b, tag) == if Latest(b, tag).Some? then Latest(b, tag) else Latest(a, tag)
  {
    if b == [] {
      assert a + b == a;
    } else {
      assert (a + b)[..|a + b| - 1] == a + b[..|b| - 1];
      LatestOfSum(a, b[..|b| - 1], tag);
    }
  }

  lemma {:induction false} OverlayLatest(packets: seq<Packet>, tag: Tag)
    requires tag != QuirksPartialResult
    ensures tag in Overlay(packets) <==> Latest(Flatten(packets), tag).Some?
    ensures tag in Overlay(packets) ==> Overlay(packets)[tag] == Latest(Flatten(packets), tag).value
  {
    if packets != [] {
      var before, last := packets[..|packets| - 1], packets[|packets| - 1];
      OverlayLatest(before, tag);
      MergeLatest(Overlay(before), last, tag);
      LatestOfSum(Flatten(before), last, tag);
    }
  }

  lemma {:induction false} OverlaySkipsQuirk(packets: seq<Packet>)
    ensures QuirksPartialResult !in Overlay(packets)
  {
    if packets != [] {
      OverlaySkipsQuirk(packets[..|packets| - 1]);
      MergeSkipsQuirk(Overlay(packets[..|packets| - 1]), packets[|packets| - 1]);
    }
  }

  // For every tag the client sees the last word of the final packet followed by the
  // partial packets in arrival order, except for the quirk and the two fixed tags.
  lemma DeliveredMetadata(final: Packet, packets: seq<Packet>, tag: Tag)
    ensures var m, said := Finish(final, Overlay(packets)), Latest(final + Flatten(packets), tag);
      match tag
      case QuirksPartialResult => tag !in m
      case PipelineDepth => tag in m && m[tag] == [PIPELINE_DEPTH]
      case FlashState => tag in m && m[tag] == [FLASH_STATE_UNAVAILABLE]
      case Other(_) => (tag in m <==> said.Some?) && (tag in m ==> m[tag] == said.value)
  {
    if tag == QuirksPartialResult {
      MergeSkipsQuirk(map[], final);
      OverlaySkipsQuirk(packets);
    } else {
      MergeLatest(map[], final, tag);
      OverlayLatest(packets, tag);
      LatestOfSum(final, Flatten(packets), tag);
    }
  }

  // The metadata object -------------------------------------------------------

  function ToMap(entries: seq<Entry>): Metadata {
    if entries == [] then map[]
    else ToMap(entries[..|entries| - 1])[entries[|entries| - 1].tag := entries[|entries| - 1].data]
  }

  ghost predicate Distinct(entries: seq<Entry>) {
    forall i, j :: 0 <= i < j < |entries| ==> entries[i].tag != entries[j].tag
  }

  lemma {:induction false} ToMapHas(entries: seq<Entry>, tag: Tag)
    ensures tag in ToMap(entries) <==> exists i :: 0 <= i < |entries| && entries[i].tag == tag
  {
    if entries != [] {
      ToMapHas(entries[..|entries| - 1], tag);
    }
  }

  lemma {:induction false} ToMapReplaced(entries: seq<Entry>, i: nat, data: seq<int>)
    requires Distinct(entries) && i < |entries|
    ensures ToMap(entries[i := Entry(entries[i].tag, data)]) == ToMap(entries)[entries[i].tag := data]
  {
    var last := |entries| - 1;
    var changed := entries[i := Entry(entries[i].tag, data)];
    if i < last {
      ToMapReplaced(entries[..last], i, data);
      assert changed[..last] == entries[..last][i := Entry(entries[i].tag, data)];
      assert entries[i].tag != entries[last].tag;
    } else {
      assert changed[..last] == entries[..last];
    }
  }

  lemma ToMapMore(entries: seq<Entry>, entry: Entry)
    ensures ToMap(entries + [entry]) == ToMap(entries)[entry.tag := entry.data]
  {
    assert (entries + [entry])[..|entries|] == entries;
  }

  lemma PutErased(m: Metadata, entry: Entry, tag: Tag)
    ensures entry.tag != tag ==> (m - {tag})[entry.tag := entry.data] == m[entry.tag := entry.data] - {tag}
    ensures entry.tag == tag && tag !in m ==> m[entry.tag := entry.data] - {tag} == m
  {}

  lemma {:induction false} ToMapErased(entries: seq<Entry>, i: nat)
    requires Distinct(entries) && i < |entries|
    ensures ToMap(entries[..i] + entries[i + 1..]) == ToMap(entries) - {entries[i].tag}
  {
    var last := |entries| - 1;
    var before, tag := entries[..last], entries[i].tag;
    PutErased(ToMap(before), entries[last], tag);
    if i < last {
      var rest := before[..i] + before[i + 1..];
      ToMapErased(before, i);
      ToMapMore(rest, entries[last]);
      assert entries[..i] + entries[i + 1..] == rest + [entries[last]];
    } else {
      assert entries[..i] + entries[i + 1..] == before;
      ToMapHas(before, tag);
    }
  }

  // CameraMetadata: a packed list of entries with one entry a tag.  `room` is how many
  // more updates will find memory; one that finds none changes nothing.
  class CameraMetadata {
    var entries: seq<Entry>
    var room: nat

    ghost predicate Valid()
      reads this
    {
      Distinct(entries)
    }

    ghost function Contents(): Metadata
      reads this
    {
      ToMap(entries)
    }

    constructor (room: nat)
      ensures Valid() && Contents() == map[] && this.room == room
    {
      entries, this.room := [], room;
    }

    method IndexOf(tag: Tag) returns (i: nat)
      ensures i <= |entries|
      ensures i < |entries| ==> entries[i].tag == tag
      ensures tag in Contents() <==> i < |entries|
    {
      i := 0;
      while i < |entries| && entries[i].tag != tag
        invariant i <= |entries| && forall j :: 0 <= j < i ==> entries[j].tag != tag
      {
        i := i + 1;
      }
      ToMapHas(entries, tag);
    }

    method Update(entry: Entry) returns (ok: bool)
      requires Valid()
      modifies this
      ensures Valid() && ok == (old(room) > 0)
      ensures Contents() == if ok then old(Contents())[entry.tag := entry.data] else old(Contents())
      ensures room == if ok then old(room) - 1 else 0
    {
      ok := room > 0;
      if ok {
        room := room - 1;
        var i := IndexOf(entry.tag);
        ToMapHas(entries, entry.tag);
        if i < |entries| {
          ToMapReplaced(entries, i, entry.data);
          entries := entries[i := Entry(entries[i].tag, entry.data)];
        } else {
          ghost var before := entries;
          entries := entries + [entry];
          assert entries[..|before|] == before;
        }
      }
    }

    method Erase(tag: Tag)
      requires Valid()
      modifies this`entries
      ensures Valid() && Contents() == old(Contents()) - {tag}
    {
      var i := IndexOf(tag);
      if i < |entries| {
        ToMapErased(entries, i);
        entries := entries[..i] + entries[i + 1..];
      }
    }
  }

  // How many updates merging a packet takes.
  function Updates(packet: Packet): nat {
    if packet == [] then 0 else
      Updates(packet[..|packet| - 1]) + if packet[|packet| - 1].tag == QuirksPartialResult then 0 else 1
  }

  lemma {:induction false} UpdatesGrow(packet: Packet, i: nat)
    requires i <= |packet|
    ensures Updates(packet[..i]) <= Updates(packet)
    decreases |packet| - i
  {
    if i < |packet| {
      assert packet[..i + 1][..i] == packet[..i];
      UpdatesGrow(packet, i + 1);
    } else {
      assert packet[..i] == packet;
    }
  }

  // mergeMetadata fails exactly when an entry cannot be read or memory runs out before
  // the packet is through; what comes before that has been merged.
  method MergeMetadata(destination: CameraMetadata, source: Option<Packet>, unreadable: set<nat>) returns (ok: bool)
    requires destination.Valid()
    modifies destination
    ensures destination.Valid()
    ensures ok <==> source.None? || Mergeable(source.value, unreadable, old(destination.room))
    ensures ok && source.None? ==> destination.Contents() == old(destination.Contents())
    ensures ok && source.Some? ==> destination.Contents() == Merge(old(destination.Contents()), source.value)
    ensures ok ==> destination.room == old(destination.room) - if source.None? then 0 else Updates(source.value)
    ensures !ok ==> MergedInPart(old(destination.Contents()), source.value, destination.Contents())
  {
    if source.None? {
      return true;
    }
    var packet, i := source.value, 0;
    ghost var m0, room0 := destination.Contents(), destination.room;
    while i < |packet|
      invariant i <= |packet| && destination.Valid() && forall j: nat :: j < i ==> j !in unreadable
      invariant Updates(packet[..i]) <= room0 && destination.room == room0 - Updates(packet[..i])
      invariant destination.Contents() == Merge(m0, packet[..i])
    {
      assert packet[..i + 1][..i] == packet[..i];
      UpdatesGrow(packet, i + 1);
      if i in unreadable {
        return false;
      }
      if packet[i].tag != QuirksPartialResult {
        var updated := destination.Update(packet[i]);
        if !updated {
          return false;
        }
      }
      i := i + 1;
    }
    assert packet[..i] == packet;
    return true;
  }

  ghost predicate MergedInPart(before: Metadata, packet: Packet, after: Metadata) {
    exists i :: 0 <= i < |packet| && after == Merge(before, packet[..i])
  }

  // All entries can be read, and there is memory for them.
  predicate Mergeable(packet: Packet, unreadable: set<nat>, room: int) {
    (forall i: nat :: i < |packet| ==> i !in unreadable) && Updates(packet) <= room
  }

  lemma PutWithout(a: Metadata, b: Metadata, entry: Entry)
    requires a - {QuirksPartialResult} == b - {QuirksPartialResult}
    ensures Put(a, entry) - {QuirksPartialResult} == b[entry.tag := entry.data] - {QuirksPartialResult}
  {
    var x, y := Put(a, entry) - {QuirksPartialResult}, b[entry.tag := entry.data] - {QuirksPartialResult};
    forall t | t != QuirksPartialResult ensures (t in x <==> t in y) && (t in x ==> x[t] == y[t]) {
      assert t in a <==> t in a - {QuirksPartialResult};
      assert t in b <==> t in b - {QuirksPartialResult};
      assert t in a ==> a[t] == (a - {QuirksPartialResult})[t];
      assert t in b ==> b[t] == (b - {QuirksPartialResult})[t];
    }
  }

  lemma {:induction false} MergeWithout(m: Metadata, entries: seq<Entry>)
    ensures Merge(m, entries) - {QuirksPartialResult} == m + ToMap(entries) - {QuirksPartialResult}
  {
    if entries != [] {
      var before, last := entries[..|entries| - 1], entries[|entries| - 1];
      MergeWithout(m, before);
      PutWithout(Merge(m, before), m + ToMap(before), last);
      assert m + ToMap(entries) == (m + ToMap(before))[last.tag := last.data];
    }
  }

  // finishResult on the merged final packet.
  method FinishResult(result: CameraMetadata, partials: CameraMetadata, unreadable: set<nat>) returns (ok: bool)
    requires result != partials && result.Valid() && partials.Valid()
    modifies result
    ensures result.Valid()
    ensures ok <==> Mergeable(partials.entries, unreadable, old(result.room) - 2)
    ensures ok ==> result.Contents() == Fixed(old(result.Contents()) + partials.Contents() - {QuirksPartialResult})
  {
    ghost var m0 := result.Contents();
    MergeWithout(m0, partials.entries);
    ghost var laid := m0 + partials.Contents();
    ok := MergeMetadata(result, Some(partials.entries), unreadable);
    assert ok ==> result.Contents() == Merge(m0, partials.entries);
    result.Erase(QuirksPartialResult);
    ghost var merged := result.Contents();
    assert ok ==> merged == laid - {QuirksPartialResult};
    var updated := result.Update(Entry(PipelineDepth, [PIPELINE_DEPTH]));
    ok := ok && updated;
    updated := result.Update(Entry(FlashState, [FLASH_STATE_UNAVAILABLE]));
    ok := ok && updated;
  }
}
