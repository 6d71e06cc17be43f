// libmocha/camera/VendorTagDescriptor.cpp: the descriptor of vendor tags, its reverse
// index and its wire form.

module VendorTagModel {
  import opened Options

  const BOUNDARY := 0x8000_0000
  const NUM_TYPES := 6
  const INT32_MAX := 0x7fff_ffff

  // The last two are no status of the source.  OutOfRange stands for a section index read
  // past the end of the sections, which the source does not test, Aborted for the end of
  // the process on an empty list of sections.
  datatype Status = BadValue | NotEnoughData | OutOfRange | Aborted
  datatype Result<T> = Ok(value: T) | Err(error: Status)

  // What the vendor's functions say about a tag.
  datatype Info = Info(name: Option<string>, section: Option<string>, kind: int)

  datatype Descriptor = Descriptor(
    count: nat, names: map<nat, string>, kinds: map<nat, nat>, sectionOf: map<nat, nat>,
    sections: seq<string>, reverse: map<string, map<string, nat>>)

  // Sorted containers ----------------------------------------------------------------

  // strcmp's order.
  predicate Less(a: string, b: string) {
    if b == [] then false
    else if a == [] then true
    else if a[0] == b[0] then Less(a[1..], b[1..])
    else a[0] < b[0]
  }

  // SortedVector::add keeps the vector ascending and each string once.
  function Place(v: seq<string>, s: string): (i: nat)
    ensures i <= |v|
    ensures i < |v| ==> !Less(v[i], s)
    ensures forall j :: 0 <= j < i ==> Less(v[j], s)
  {
    if v == [] || !Less(v[0], s) then 0 else 1 + Place(v[1..], s)
  }

  function SortedAdd(v: seq<string>, s: string): seq<string> {
    var i := Place(v, s);
    if i < |v| && v[i] == s then v else v[..i] + [s] + v[i..]
  }

  function SortedAll(list: seq<string>): seq<string> {
    if list == [] then [] else SortedAdd(SortedAll(list[..|list| - 1]), list[|list| - 1])
  }

  // The keys of a KeyedVector in its order.
  ghost function Ascending(keys: set<nat>): seq<nat>
    decreases |keys|
  {
    if keys == {} then [] else
      var m := Least(keys);
      [m] + Ascending(keys - {m})
  }

  ghost function Least(keys: set<nat>): (m: nat)
    requires keys != {}
    ensures m in keys && forall k :: k in keys ==> m <= k
    decreases |keys|
  {
    var k :| k in keys;
    if keys == {k} then k else
      var rest := keys - {k};
      assert forall x :: x in keys ==> x == k || x in rest;
      assert rest == {} ==> keys == {k};
      var m := Least(rest);
      if m < k then m else k
  }

  // The reverse index ------------------------------------------------------------------

  datatype Named = Named(tag: nat, section: string, name: string)

  function AddNamed(reverse: map<string, map<string, nat>>, n: Named): map<string, map<string, nat>> {
    var inner := if n.section in reverse then reverse[n.section] else map[];
    reverse[n.section := inner[n.name := n.tag]]
  }

  function ReverseOf(list: seq<Named>): map<string, map<string, nat>> {
    if list == [] then map[] else AddNamed(ReverseOf(list[..|list| - 1]), list[|list| - 1])
  }

  function LookupTag(d: Descriptor, name: string, section: string): Result<nat> {
    if section !in d.reverse then Err(BadValue)
    else if name !in d.reverse[section] then Err(BadValue)
    else Ok(d.reverse[section][name])
  }

  // From the vendor's functions -----------------------------------------------------------

  function Look(info: map<nat, Info>, tag: nat): Info {
    if tag in info then info[tag] else Info(None, None, -1)
  }

  function KindOf(info: map<nat, Info>, tag: nat): nat {
    if Look(info, tag).kind >= 0 then Look(info, tag).kind else 0
  }

  predicate Good(info: map<nat, Info>, tag: nat) {
    var i := Look(info, tag);
    tag >= BOUNDARY && i.name.Some? && i.section.Some? && 0 <= i.kind < NUM_TYPES
  }

  predicate AllGood(info: map<nat, Info>, tags: seq<nat>) {
    forall i :: 0 <= i < |tags| ==> Good(info, tags[i])
  }

  function NamedOf(info: map<nat, Info>, tag: nat): Named
    requires Good(info, tag)
  {
    Named(tag, Look(info, tag).section.value, Look(info, tag).name.value)
  }

  function AllNamed(info: map<nat, Info>, tags: seq<nat>): (r: seq<Named>)
    requires AllGood(info, tags)
    ensures |r| == |tags| && forall i :: 0 <= i < |r| ==> r[i] == NamedOf(info, tags[i])
  {
    seq(|tags|, i requires 0 <= i < |tags| && Good(info, tags[i]) => NamedOf(info, tags[i]))
  }

  function SectionsOf(list: seq<Named>): (r: seq<string>)
    ensures |r| == |list| && forall i :: 0 <= i < |r| ==> r[i] == list[i].section
  {
    seq(|list|, i requires 0 <= i < |list| => list[i].section)
  }

  function IndexIn(v: seq<string>, s: string): (i: nat)
    ensures i <= |v|
    ensures i < |v| ==> v[i] == s
    ensures s in v <==> i < |v|
  {
    if v == [] || v[0] == s then 0 else 1 + IndexIn(v[1..], s)
  }

  function SectionIndex(info: map<nat, Info>, sections: seq<string>, tag: nat): nat {
    if Look(info, tag).section.Some? then IndexIn(sections, Look(info, tag).section.value) else 0
  }

  function Build(info: map<nat, Info>, tags: seq<nat>): Descriptor
    requires AllGood(info, tags)
  {
    var named := AllNamed(info, tags);
    var sections := SortedAll(SectionsOf(named));
    Descriptor(
      |tags|,
      map t | t in tags :: Look(info, t).name.value,
      map t | t in tags :: KindOf(info, t),
      map t | t in tags :: SectionIndex(info, sections, t),
      sections,
      ReverseOf(named))
  }

  function CreateFromOps(info: map<nat, Info>, tags: seq<nat>): Result<Descriptor> {
    if AllGood(info, tags) then Ok(Build(info, tags)) else Err(BadValue)
  }

  // The wire form ----------------------------------------------------------------------------

  datatype Token = Int(value: nat) | Str(text: string)

  datatype Entry = Entry(tag: nat, kind: nat, name: string, section: nat)

  function EntryTokens(e: Entry): seq<Token> {
    [Int(e.tag), Int(e.kind), Str(e.name), Int(e.section)]
  }

  function EntriesTokens(entries: seq<Entry>): seq<Token> {
    if entries == [] then [] else EntryTokens(entries[0]) + EntriesTokens(entries[1..])
  }

  function Texts(v: seq<string>): seq<Token> {
    if v == [] then [] else [Str(v[0])] + Texts(v[1..])
  }

  // One entry is read: the entry and the rest, or why not.
  function ReadEntry(p: seq<Token>): Result<(Entry, seq<Token>)> {
    if p == [] || !p[0].Int? then Err(NotEnoughData)
    else if p[0].value < BOUNDARY then Err(BadValue)
    else if |p| < 2 || !p[1].Int? then Err(NotEnoughData)
    else if p[1].value >= NUM_TYPES then Err(BadValue)
    else if |p| < 3 || !p[2].Str? || p[2].text == "" then Err(NotEnoughData)
    else if |p| < 4 || !p[3].Int? then Err(NotEnoughData)
    else Ok((Entry(p[0].value, p[1].value, p[2].text, p[3].value), p[4..]))
  }

  function ReadEntries(p: seq<Token>, n: nat): Result<(seq<Entry>, seq<Token>)> {
    if n == 0 then Ok(([], p)) else
      var first := ReadEntry(p);
      if first.Err? then Err(first.error) else
        var rest := ReadEntries(first.value.1, n - 1);
        if rest.Err? then Err(rest.error) else Ok(([first.value.0] + rest.value.0, rest.value.1))
  }

  function ReadTexts(p: seq<Token>, n: nat): Result<seq<string>> {
    if n == 0 then Ok([])
    else if p == [] || !p[0].Str? || p[0].text == "" then Err(NotEnoughData)
    else
      var rest := ReadTexts(p[1..], n - 1);
      if rest.Err? then Err(rest.error) else Ok([p[0].text] + rest.value)
  }

  function MaxSection(entries: seq<Entry>): nat {
    if entries == [] then 0 else
      var before := MaxSection(entries[..|entries| - 1]);
      if before >= entries[|entries| - 1].section then before else entries[|entries| - 1].section
  }

  // The number of sections the indices ask for, in the source's 32 bits.
  function Needed(entries: seq<Entry>): nat {
    (MaxSection(entries) + 1) % 0x1_0000_0000
  }

  function ReadSections(p: seq<Token>, needed: nat): Result<seq<string>> {
    if p == [] || !p[0].Int? then Err(NotEnoughData)
    else if p[0].value < needed then Err(BadValue)
    else if p[0].value == 0 then Err(Aborted)
    else
      var texts := ReadTexts(p[1..], p[0].value);
      if texts.Err? then texts else Ok(SortedAll(texts.value))
  }

  // An entry replaces an earlier one of the same tag in the three maps.
  function Names(entries: seq<Entry>): (r: map<nat, string>)
    ensures forall i :: 0 <= i < |entries| ==> entries[i].tag in r
  {
    if entries == [] then map[]
    else Names(entries[..|entries| - 1])[entries[|entries| - 1].tag := entries[|entries| - 1].name]
  }

  function Kinds(entries: seq<Entry>): map<nat, nat> {
    if entries == [] then map[]
    else Kinds(entries[..|entries| - 1])[entries[|entries| - 1].tag := entries[|entries| - 1].kind]
  }

  function SectionOf(entries: seq<Entry>): (r: map<nat, nat>)
    ensures forall i :: 0 <= i < |entries| ==> entries[i].tag in r
  {
    if entries == [] then map[]
    else SectionOf(entries[..|entries| - 1])[entries[|entries| - 1].tag := entries[|entries| - 1].section]
  }

  function TagsOf(entries: seq<Entry>): (r: seq<nat>)
    ensures |r| == |entries| && forall i :: 0 <= i < |r| ==> r[i] == entries[i].tag
  {
    seq(|entries|, i requires 0 <= i < |entries| => entries[i].tag)
  }

  predicate Mapped(names: map<nat, string>, sectionOf: map<nat, nat>, tags: seq<nat>) {
    forall i :: 0 <= i < |tags| ==> tags[i] in names && tags[i] in sectionOf
  }

  // The tags with their sections and names as the finished maps have them, if all the
  // section indices are in range.
  function NamedBy(names: map<nat, string>, sectionOf: map<nat, nat>, tags: seq<nat>,
      sections: seq<string>): (r: Option<seq<Named>>)
    requires Mapped(names, sectionOf, tags)
    ensures r.Some? <==> forall i :: 0 <= i < |tags| ==> sectionOf[tags[i]] < |sections|
    ensures r.Some? ==> |r.value| == |tags|
    ensures r.Some? ==> forall i :: 0 <= i < |tags| ==>
      r.value[i] == Named(tags[i], sections[sectionOf[tags[i]]], names[tags[i]])
  {
    if forall i :: 0 <= i < |tags| ==> sectionOf[tags[i]] < |sections|
    then Some(seq(|tags|,
        i requires 0 <= i < |tags| && Mapped(names, sectionOf, tags) && sectionOf[tags[i]] < |sections| =>
          Named(tags[i], sections[sectionOf[tags[i]]], names[tags[i]])))
    else None
  }

  // The descriptor of the entries read.
  function Assemble(count: nat, entries: seq<Entry>, sections: seq<string>): Result<Descriptor> {
    var named := NamedBy(Names(entries), SectionOf(entries), TagsOf(entries), sections);
    if named.None? then Err(OutOfRange)
    else Ok(Descriptor(count, Names(entries), Kinds(entries), SectionOf(entries), sections, ReverseOf(named.value)))
  }

  function CreateFromParcel(p: seq<Token>): Result<Descriptor> {
    if p == [] || !p[0].Int? then Err(NotEnoughData)
    else if p[0].value > INT32_MAX then Err(BadValue)
    else
      var read := ReadEntries(p[1..], p[0].value);
      if read.Err? then Err(read.error) else
        var (entries, rest) := read.value;
        if p[0].value == 0 then Assemble(0, entries, []) else
          var sections := ReadSections(rest, Needed(entries));
          if sections.Err? then Err(sections.error) else Assemble(p[0].value, entries, sections.value)
  }

  // What writeToParcel needs of a descriptor: the three maps have the same tags.
  ghost predicate Writable(d: Descriptor) {
    d.kinds.Keys == d.names.Keys && d.sectionOf.Keys == d.names.Keys
  }

  ghost function EntriesOf(d: Descriptor, tags: seq<nat>): (r: seq<Entry>)
    requires Writable(d) && forall i :: 0 <= i < |tags| ==> tags[i] in d.names
    ensures |r| == |tags|
    ensures forall i :: 0 <= i < |r| ==>
      r[i] == Entry(tags[i], d.kinds[tags[i]], d.names[tags[i]], d.sectionOf[tags[i]])
  {
    seq(|tags|, i requires 0 <= i < |tags| && tags[i] in d.names && Writable(d) =>
      Entry(tags[i], d.kinds[tags[i]], d.names[tags[i]], d.sectionOf[tags[i]]))
  }

  function Tail(v: seq<string>): seq<Token> {
    if v == [] then [] else [Int(|v|)] + Texts(v)
  }

  ghost function Write(d: Descriptor): seq<Token>
    requires Writable(d)
  {
    AscendingAll(d.names.Keys);
    [Int(d.count)] + (EntriesTokens(EntriesOf(d, Ascending(d.names.Keys))) + Tail(d.sections))
  }

  // Ascending lists every key once.
  lemma {:induction false} AscendingAll(keys: set<nat>)
    ensures |Ascending(keys)| == |keys|
    ensures forall k :: k in keys <==> k in Ascending(keys)
    ensures forall i :: 0 <= i < |Ascending(keys)| ==> Ascending(keys)[i] in keys
    decreases |keys|
  {
    if keys != {} {
      AscendingAll(keys - {Least(keys)});
    }
  }

  lemma {:induction false} AscendingOrder(keys: set<nat>)
    ensures forall i, j :: 0 <= i < j < |Ascending(keys)| ==> Ascending(keys)[i] < Ascending(keys)[j]
    decreases |keys|
  {
    if keys != {} {
      var m := Least(keys);
      AscendingOrder(keys - {m});
      AscendingAll(keys - {m});
      AscendingCons(m, Ascending(keys - {m}));
    }
  }

  lemma AscendingCons(m: nat, v: seq<nat>)
    requires forall i, j :: 0 <= i < j < |v| ==> v[i] < v[j]
    requires forall i :: 0 <= i < |v| ==> m < v[i]
    ensures forall i, j :: 0 <= i < j < |[m] + v| ==> ([m] + v)[i] < ([m] + v)[j]
  {}
}

module VendorTagProofs {
  import opened Options
  import opened VendorTagModel

  // Strings in order -------------------------------------------------------------------------

  lemma {:induction false} LessTotal(a: string, b: string)
    ensures Less(a, b) || Less(b, a) || a == b
    ensures !(Less(a, b) && Less(b, a)) && !Less(a, a)
    decreases |a|
  {
    if a != [] {
      LessTotal(a[1..], a[1..]);
    }
    if a != [] && b != [] && a[0] == b[0] {
      LessTotal(a[1..], b[1..]);
      assert a == [a[0]] + a[1..] && b == [b[0]] + b[1..];
    }
  }

  lemma {:induction false} LessTransitive(a: string, b: string, c: string)
    requires Less(a, b) && Less(b, c)
    ensures Less(a, c)
  {
    if a != [] && a[0] == b[0] && b[0] == c[0] {
      LessTransitive(a[1..], b[1..], c[1..]);
    }
  }

  ghost predicate Sorted(v: seq<string>) {
    forall i, j :: 0 <= i < j < |v| ==> Less(v[i], v[j])
  }

  lemma SortedAddKeeps(v: seq<string>, s: string)
    requires Sorted(v)
    ensures Sorted(SortedAdd(v, s))
    ensures forall x :: x in SortedAdd(v, s) <==> x in v || x == s
  {
    var i := Place(v, s);
    assert v == v[..i] + v[i..];
    if i == |v| || v[i] != s {
      if i < |v| {
        LessTotal(v[i], s);
      }
      forall j | i < j < |v| ensures Less(s, v[j]) {
        LessTransitive(s, v[i], v[j]);
      }
      Inserted(v, i, s);
    }
  }

  lemma Inserted(v: seq<string>, i: nat, s: string)
    requires Sorted(v) && i <= |v|
    requires forall j :: 0 <= j < i ==> Less(v[j], s)
    requires forall j :: i <= j < |v| ==> Less(s, v[j])
    ensures Sorted(v[..i] + [s] + v[i..])
  {
    var w := v[..i] + [s] + v[i..];
    assert forall j :: 0 <= j < |w| ==> w[j] == if j < i then v[j] else if j == i then s else v[j - 1];
  }

  lemma {:induction false} SortedAllKeeps(list: seq<string>)
    ensures Sorted(SortedAll(list))
    ensures forall x :: x in SortedAll(list) <==> x in list
    ensures |SortedAll(list)| <= |list|
  {
    if list != [] {
      SortedAllKeeps(list[..|list| - 1]);
      SortedAddKeeps(SortedAll(list[..|list| - 1]), list[|list| - 1]);
    }
  }

  ghost predicate NoRepeats(list: seq<string>) {
    forall i, j :: 0 <= i < j < |list| ==> list[i] != list[j]
  }

  lemma {:induction false} NoneMerged(list: seq<string>)
    requires NoRepeats(list)
    ensures |SortedAll(list)| == |list|
  {
    if list != [] {
      var before, last := list[..|list| - 1], list[|list| - 1];
      NoneMerged(before);
      SortedAllKeeps(before);
      var v := SortedAll(before);
      assert last !in v;
      var i := Place(v, last);
      assert i < |v| ==> v[i] in v;
    }
  }

  // Adding strings that already come in order appends them.
  lemma {:induction false} SortedAllSame(v: seq<string>)
    requires Sorted(v)
    ensures SortedAll(v) == v
  {
    if v != [] {
      var before, last := v[..|v| - 1], v[|v| - 1];
      SortedAllSame(before);
      var i := Place(before, last);
      assert i == |before|;
      assert v == before + [last];
    }
  }

  // The reverse index ------------------------------------------------------------------------

  ghost predicate DistinctPairs(list: seq<Named>) {
    forall i, j :: 0 <= i < j < |list| ==> (list[i].section, list[i].name) != (list[j].section, list[j].name)
  }

  predicate Finds(reverse: map<string, map<string, nat>>, n: Named) {
    n.section in reverse && n.name in reverse[n.section] && reverse[n.section][n.name] == n.tag
  }

  // The index holds exactly the pairs of the list, each with its tag.
  lemma {:induction false} ReverseExact(list: seq<Named>, n: Named)
    requires DistinctPairs(list)
    ensures Finds(ReverseOf(list), n) <==> n in list
    ensures n.section in ReverseOf(list) <==> exists i :: 0 <= i < |list| && list[i].section == n.section
  {
    if list != [] {
      var before, last := list[..|list| - 1], list[|list| - 1];
      ReverseExact(before, n);
      ReverseExact(before, last);
      assert list == before + [last];
    }
  }

  // So its content does not depend on the order of the tags.
  lemma ReverseSame(a: seq<Named>, b: seq<Named>)
    requires DistinctPairs(a) && DistinctPairs(b) && forall n :: n in a <==> n in b
    ensures ReverseOf(a) == ReverseOf(b)
  {
    var r, q := ReverseOf(a), ReverseOf(b);
    forall s ensures s in r <==> s in q {
      ReverseExact(a, Named(0, s, ""));
      ReverseExact(b, Named(0, s, ""));
      if s in r {
        var i :| 0 <= i < |a| && a[i].section == s;
        assert a[i] in b;
      }
      if s in q {
        var i :| 0 <= i < |b| && b[i].section == s;
        assert b[i] in a;
      }
    }
    forall s | s in r ensures r[s] == q[s] {
      forall x ensures x in r[s] <==> x in q[s] {
        if x in r[s] {
          ReverseExact(a, Named(r[s][x], s, x));
          ReverseExact(b, Named(r[s][x], s, x));
        }
        if x in q[s] {
          ReverseExact(a, Named(q[s][x], s, x));
          ReverseExact(b, Named(q[s][x], s, x));
        }
      }
      forall x | x in r[s] ensures r[s][x] == q[s][x] {
        ReverseExact(a, Named(r[s][x], s, x));
        ReverseExact(b, Named(r[s][x], s, x));
      }
    }
  }

  // The vendor's answers for a tag are usable: its number, type, name and section.
  predicate Described(info: map<nat, Info>, t: nat) {
    && t >= 0x8000_0000 && t in info && 0 <= info[t].kind < 6 && info[t].name.Some? && info[t].section.Some?
  }

  // A descriptor is built exactly when the answers for all tags are usable, and it says of
  // each tag what the vendor said.
  lemma BuildExact(info: map<nat, Info>, tags: seq<nat>)
    ensures CreateFromOps(info, tags).Ok? <==> forall i :: 0 <= i < |tags| ==> Described(info, tags[i])
    ensures CreateFromOps(info, tags).Ok? ==> var d := CreateFromOps(info, tags).value;
      && d.count == |tags| && Writable(d) && (forall t :: t in d.names <==> t in tags)
      && forall t :: t in tags ==>
        && d.names[t] == info[t].name.value && d.kinds[t] == info[t].kind
        && d.sectionOf[t] < |d.sections| && d.sections[d.sectionOf[t]] == info[t].section.value
  {
    forall i | 0 <= i < |tags| ensures Good(info, tags[i]) <==> Described(info, tags[i]) {}
    if AllGood(info, tags) {
      var named, d := AllNamed(info, tags), Build(info, tags);
      SortedAllKeeps(SectionsOf(named));
      forall t | t in tags ensures Described(info, t) && d.sectionOf[t] < |d.sections|
          && d.sections[d.sectionOf[t]] == info[t].section.value
      {
        var i :| 0 <= i < |tags| && tags[i] == t;
        assert SectionsOf(named)[i] == info[t].section.value;
      }
    }
  }

  // The sections are exactly those of the tags, in order and once each.
  lemma SectionsExact(info: map<nat, Info>, tags: seq<nat>)
    requires AllGood(info, tags)
    ensures Sorted(Build(info, tags).sections)
    ensures forall x :: x in Build(info, tags).sections <==>
      exists i :: 0 <= i < |tags| && info[tags[i]].section == Some(x)
  {
    var list := SectionsOf(AllNamed(info, tags));
    SortedAllKeeps(list);
    forall x ensures x in list <==> exists i :: 0 <= i < |tags| && info[tags[i]].section == Some(x) {
      if x in list {
        var i :| 0 <= i < |list| && list[i] == x;
        assert info[tags[i]].section == Some(x);
      }
      if i :| 0 <= i < |tags| && info[tags[i]].section == Some(x) {
        assert list[i] == x;
      }
    }
  }

  // lookupTag undoes getTagName and getSectionName for every tag exactly when no two tags
  // share a section and a name.
  lemma LookupExact(info: map<nat, Info>, tags: seq<nat>)
    requires AllGood(info, tags) && forall i, j :: 0 <= i < j < |tags| ==> tags[i] != tags[j]
    ensures (forall i :: 0 <= i < |tags| ==> LooksUp(Build(info, tags), NamedOf(info, tags[i]))) <==>
      DistinctPairs(AllNamed(info, tags))
  {
    var named, d := AllNamed(info, tags), Build(info, tags);
    if DistinctPairs(named) {
      forall i | 0 <= i < |tags| ensures LooksUp(d, NamedOf(info, tags[i])) {
        ReverseExact(named, named[i]);
      }
    }
    if forall i :: 0 <= i < |tags| ==> LooksUp(d, NamedOf(info, tags[i])) {
      forall i, j | 0 <= i < j < |tags| ensures (named[i].section, named[i].name) != (named[j].section, named[j].name) {
        assert LooksUp(d, NamedOf(info, tags[i])) && LooksUp(d, NamedOf(info, tags[j]));
      }
    }
  }

  predicate LooksUp(d: Descriptor, n: Named) {
    LookupTag(d, n.name, n.section) == Ok(n.tag)
  }

  // The wire form ----------------------------------------------------------------------------

  predicate Readable(e: Entry) {
    e.tag >= BOUNDARY && e.kind < NUM_TYPES && e.name != ""
  }

  lemma ReadsEntry(e: Entry, rest: seq<Token>)
    requires Readable(e)
    ensures ReadEntry(EntryTokens(e) + rest) == Ok((e, rest))
  {
    assert (EntryTokens(e) + rest)[4..] == rest;
  }

  lemma {:induction false} ReadsEntries(entries: seq<Entry>, rest: seq<Token>)
    requires forall i :: 0 <= i < |entries| ==> Readable(entries[i])
    ensures ReadEntries(EntriesTokens(entries) + rest, |entries|) == Ok((entries, rest))
  {
    if entries == [] {
      assert EntriesTokens(entries) + rest == rest;
    } else {
      var more := EntriesTokens(entries[1..]) + rest;
      assert EntriesTokens(entries) + rest == EntryTokens(entries[0]) + more;
      ReadsEntry(entries[0], more);
      ReadsEntries(entries[1..], rest);
      assert entries == [entries[0]] + entries[1..];
    }
  }

  lemma {:induction false} ReadsTexts(v: seq<string>)
    requires forall i :: 0 <= i < |v| ==> v[i] != ""
    ensures ReadTexts(Texts(v), |v|) == Ok(v)
  {
    if v != [] {
      ReadsTexts(v[1..]);
      assert Texts(v)[1..] == Texts(v[1..]);
      assert v == [v[0]] + v[1..];
    }
  }

  lemma {:induction false} MaxSectionBelow(entries: seq<Entry>, n: nat)
    requires n > 0 && forall i :: 0 <= i < |entries| ==> entries[i].section < n
    ensures MaxSection(entries) < n
  {
    if entries != [] {
      MaxSectionBelow(entries[..|entries| - 1], n);
    }
  }

  lemma {:induction false} MaxSectionIs(entries: seq<Entry>)
    ensures forall i :: 0 <= i < |entries| ==> entries[i].section <= MaxSection(entries)
    ensures entries != [] ==> exists i :: 0 <= i < |entries| && entries[i].section == MaxSection(entries)
  {
    if entries != [] {
      var last := |entries| - 1;
      MaxSectionIs(entries[..last]);
      if entries[..last] != [] && MaxSection(entries[..last]) >= entries[last].section {
        var i :| 0 <= i < last && entries[..last][i].section == MaxSection(entries[..last]);
        assert entries[i].section == MaxSection(entries);
      } else {
        assert entries[last].section == MaxSection(entries);
      }
    }
  }

  predicate Is32(p: seq<Token>) {
    forall i :: 0 <= i < |p| && p[i].Int? ==> p[i].value < 0x1_0000_0000
  }

  lemma {:induction false} EntriesRead(p: seq<Token>, n: nat)
    requires Is32(p) && ReadEntries(p, n).Ok?
    ensures |ReadEntries(p, n).value.0| == n && Is32(ReadEntries(p, n).value.1)
    ensures forall i :: 0 <= i < n ==> ReadEntries(p, n).value.0[i].section < 0x1_0000_0000
    decreases n
  {
    if n > 0 {
      assert Is32(p[4..]);
      EntriesRead(p[4..], n - 1);
    }
  }

  lemma {:induction false} TextsRead(p: seq<Token>, n: nat)
    requires ReadTexts(p, n).Ok?
    ensures |ReadTexts(p, n).value| == n
    decreases n
  {
    if n > 0 {
      TextsRead(p[1..], n - 1);
    }
  }

  // What stands in a parcel that is read to its end: so many entries, and so many sections.
  ghost predicate Reads(p: seq<Token>, entries: seq<Entry>, texts: seq<string>) {
    && p != [] && p[0] == Int(|entries|) && 0 < |entries| <= INT32_MAX && Is32(p)
    && ReadEntries(p[1..], |entries|).Ok? && ReadEntries(p[1..], |entries|).value.0 == entries
    && var rest := ReadEntries(p[1..], |entries|).value.1;
       rest != [] && rest[0] == Int(|texts|) && ReadTexts(rest[1..], |texts|) == Ok(texts)
  }

  lemma NeededIs(entries: seq<Entry>)
    requires MaxSection(entries) < 0x1_0000_0000
    ensures Needed(entries) == if MaxSection(entries) == 0xFFFF_FFFF then 0 else MaxSection(entries) + 1
  {}

  // Some tag is left with a section index of n or more.
  predicate Beyond(entries: seq<Entry>, n: nat) {
    exists i :: 0 <= i < |entries| && SectionOf(entries)[entries[i].tag] >= n
  }

  lemma {:induction false} FinalSection(entries: seq<Entry>, i: nat)
    requires i < |entries|
    ensures SectionOf(entries)[entries[i].tag] <= MaxSection(entries)
    ensures DistinctTags(entries) ==> SectionOf(entries)[entries[i].tag] == entries[i].section
  {
    var last := |entries| - 1;
    if entries[i].tag != entries[last].tag {
      FinalSection(entries[..last], i);
    }
  }

  // The test of the number of sections lets a read past the end happen exactly when it
  // passes, there is a section, and a tag is left with an index that the sections do not
  // reach once equal names have merged; and it lets the process abort exactly when an
  // index of 2^32 - 1 makes it pass without any section.
  lemma SectionCheckExact(p: seq<Token>, entries: seq<Entry>, texts: seq<string>)
    requires Reads(p, entries, texts)
    ensures CreateFromParcel(p) == Err(OutOfRange) <==>
      texts != [] && Needed(entries) <= |texts| && Beyond(entries, |SortedAll(texts)|)
    ensures CreateFromParcel(p) == Err(Aborted) <==> texts == [] && MaxSection(entries) == 0xFFFF_FFFF
  {
    assert Is32(p[1..]);
    EntriesRead(p[1..], |entries|);
    var rest := ReadEntries(p[1..], |entries|).value.1;
    MaxSectionIs(entries);
    NeededIs(entries);
    if texts != [] && |texts| >= Needed(entries) {
      Unpacks(p, |entries|, entries, rest, SortedAll(texts));
    }
  }

  // When the sections have different names, only an index of 2^32 - 1 gets past the test;
  // and when the tags differ as well, each one that gets past is read past the end.
  lemma WrappedIndexExact(p: seq<Token>, entries: seq<Entry>, texts: seq<string>)
    requires Reads(p, entries, texts) && NoRepeats(texts)
    ensures CreateFromParcel(p) == Err(OutOfRange) <==>
      texts != [] && MaxSection(entries) == 0xFFFF_FFFF && Beyond(entries, |texts|)
    ensures DistinctTags(entries) ==>
      (CreateFromParcel(p) == Err(OutOfRange) <==> texts != [] && MaxSection(entries) == 0xFFFF_FFFF)
  {
    SectionCheckExact(p, entries, texts);
    assert Is32(p[1..]);
    EntriesRead(p[1..], |entries|);
    MaxSectionIs(entries);
    NeededIs(entries);
    NoneMerged(texts);
    forall i | 0 <= i < |entries|
      ensures SectionOf(entries)[entries[i].tag] <= MaxSection(entries)
      ensures DistinctTags(entries) ==> SectionOf(entries)[entries[i].tag] == entries[i].section
    {
      FinalSection(entries, i);
    }
  }

  ghost predicate DistinctTags(entries: seq<Entry>) {
    forall i, j :: 0 <= i < j < |entries| ==> entries[i].tag != entries[j].tag
  }

  lemma {:induction false} MapsOfEntries(entries: seq<Entry>, i: nat)
    requires DistinctTags(entries) && i < |entries|
    ensures entries[i].tag in Names(entries) && Names(entries)[entries[i].tag] == entries[i].name
    ensures entries[i].tag in Kinds(entries) && Kinds(entries)[entries[i].tag] == entries[i].kind
    ensures entries[i].tag in SectionOf(entries) && SectionOf(entries)[entries[i].tag] == entries[i].section
  {
    if i < |entries| - 1 {
      MapsOfEntries(entries[..|entries| - 1], i);
    }
  }

  lemma {:induction false} KeysOfEntries(entries: seq<Entry>, t: nat)
    ensures t in Names(entries) <==> exists i :: 0 <= i < |entries| && entries[i].tag == t
    ensures Kinds(entries).Keys == Names(entries).Keys && SectionOf(entries).Keys == Names(entries).Keys
  {
    if entries != [] {
      KeysOfEntries(entries[..|entries| - 1], t);
    }
  }

  ghost predicate Lists(tags: seq<nat>, keys: set<nat>) {
    && (forall t :: t in keys <==> exists i :: 0 <= i < |tags| && tags[i] == t)
    && forall i, j :: 0 <= i < j < |tags| ==> tags[i] != tags[j]
  }

  lemma AscendingLists(keys: set<nat>)
    ensures Lists(Ascending(keys), keys) && |Ascending(keys)| == |keys|
  {
    AscendingAll(keys);
    AscendingOrder(keys);
  }

  lemma NamesListed(d: Descriptor, tags: seq<nat>, t: nat)
    requires Writable(d) && Lists(tags, d.names.Keys)
    ensures t in Names(EntriesOf(d, tags)) <==> t in d.names
  {
    var entries := EntriesOf(d, tags);
    KeysOfEntries(entries, t);
    if t in d.names {
      var i :| 0 <= i < |tags| && tags[i] == t;
      assert entries[i].tag == t;
    }
    if i :| 0 <= i < |entries| && entries[i].tag == t {
      assert tags[i] == t;
    }
  }

  lemma KeysRebuilt(d: Descriptor, tags: seq<nat>)
    requires Writable(d) && Lists(tags, d.names.Keys)
    ensures var entries := EntriesOf(d, tags);
      Names(entries).Keys == Kinds(entries).Keys == SectionOf(entries).Keys == d.names.Keys
  {
    var entries := EntriesOf(d, tags);
    KeysOfEntries(entries, 0);
    forall t: nat ensures t in Names(entries).Keys <==> t in d.names.Keys {
      NamesListed(d, tags, t);
    }
  }

  lemma EntryRebuilt(d: Descriptor, tags: seq<nat>, t: nat)
    requires Writable(d) && Lists(tags, d.names.Keys) && t in d.names
    ensures var entries := EntriesOf(d, tags);
      && t in Names(entries) && Names(entries)[t] == d.names[t]
      && t in Kinds(entries) && Kinds(entries)[t] == d.kinds[t]
      && t in SectionOf(entries) && SectionOf(entries)[t] == d.sectionOf[t]
  {
    var i :| 0 <= i < |tags| && tags[i] == t;
    MapsOfEntries(EntriesOf(d, tags), i);
  }

  // Reading the entries of a descriptor rebuilds its three maps.
  lemma NamesRebuilt(d: Descriptor, tags: seq<nat>)
    requires Writable(d) && Lists(tags, d.names.Keys)
    ensures Names(EntriesOf(d, tags)) == d.names
  {
    KeysRebuilt(d, tags);
    forall t | t in d.names ensures Names(EntriesOf(d, tags))[t] == d.names[t] {
      EntryRebuilt(d, tags, t);
    }
  }

  lemma KindsRebuilt(d: Descriptor, tags: seq<nat>)
    requires Writable(d) && Lists(tags, d.names.Keys)
    ensures Kinds(EntriesOf(d, tags)) == d.kinds
  {
    KeysRebuilt(d, tags);
    forall t | t in d.kinds ensures Kinds(EntriesOf(d, tags))[t] == d.kinds[t] {
      EntryRebuilt(d, tags, t);
    }
  }

  lemma SectionOfRebuilt(d: Descriptor, tags: seq<nat>)
    requires Writable(d) && Lists(tags, d.names.Keys)
    ensures SectionOf(EntriesOf(d, tags)) == d.sectionOf
  {
    KeysRebuilt(d, tags);
    forall t | t in d.sectionOf ensures SectionOf(EntriesOf(d, tags))[t] == d.sectionOf[t] {
      EntryRebuilt(d, tags, t);
    }
  }

  // Tags, pairs and names as the wire form needs them.
  ghost predicate Wireable(info: map<nat, Info>, tags: seq<nat>) {
    && AllGood(info, tags) && |tags| <= INT32_MAX
    && (forall i, j :: 0 <= i < j < |tags| ==> tags[i] != tags[j])
    && DistinctPairs(AllNamed(info, tags))
    && forall i :: 0 <= i < |tags| ==> NamedOf(info, tags[i]).name != "" && NamedOf(info, tags[i]).section != ""
  }

  lemma {:induction false} DistinctCount(tags: seq<nat>, keys: set<nat>)
    requires forall i, j :: 0 <= i < j < |tags| ==> tags[i] != tags[j]
    requires forall t :: t in keys <==> t in tags
    ensures |keys| == |tags|
  {
    if tags == [] {
      assert keys == {};
    } else {
      var last := tags[|tags| - 1];
      DistinctCount(tags[..|tags| - 1], keys - {last});
    }
  }

  lemma SectionsNamed(info: map<nat, Info>, tags: seq<nat>)
    requires Wireable(info, tags)
    ensures var v := Build(info, tags).sections;
      Sorted(v) && (forall i :: 0 <= i < |v| ==> v[i] != "") && (v == [] <==> tags == [])
  {
    var named := AllNamed(info, tags);
    var v := SortedAll(SectionsOf(named));
    SortedAllKeeps(SectionsOf(named));
    forall i | 0 <= i < |v| ensures v[i] != "" {
      assert v[i] in v;
      var j :| 0 <= j < |named| && SectionsOf(named)[j] == v[i];
      assert NamedOf(info, tags[j]).section != "";
    }
    if tags != [] {
      assert SectionsOf(named)[0] in v;
    }
  }

  lemma BuildFacts(info: map<nat, Info>, tags: seq<nat>)
    requires Wireable(info, tags)
    ensures var d := Build(info, tags);
      Writable(d) && d.count == |tags| == |d.names.Keys| && forall t :: t in d.names <==> t in tags
  {
    DistinctCount(tags, Build(info, tags).names.Keys);
  }

  // What a tag's entry says, in terms of the descriptor's sections.
  lemma BuildEntry(info: map<nat, Info>, tags: seq<nat>, t: nat)
    requires Wireable(info, tags) && t in tags
    ensures var d := Build(info, tags);
      && t in d.names && t >= BOUNDARY && d.kinds[t] < NUM_TYPES && d.names[t] != ""
      && d.sectionOf[t] < |d.sections| && NamedOf(info, t) == Named(t, d.sections[d.sectionOf[t]], d.names[t])
  {
    var i :| 0 <= i < |tags| && tags[i] == t;
    var named := AllNamed(info, tags);
    SortedAllKeeps(SectionsOf(named));
    assert SectionsOf(named)[i] == NamedOf(info, t).section;
  }

  lemma EntriesFacts(info: map<nat, Info>, tags: seq<nat>, ks: seq<nat>)
    requires Wireable(info, tags) && Writable(Build(info, tags)) && Lists(ks, Build(info, tags).names.Keys)
    ensures var d := Build(info, tags); var entries := EntriesOf(d, ks);
      forall i :: 0 <= i < |entries| ==>
        && Readable(entries[i]) && entries[i].section < |d.sections|
        && NamedOf(info, ks[i]) == Named(entries[i].tag, d.sections[entries[i].section], entries[i].name)
  {
    forall i | 0 <= i < |ks| ensures ks[i] in tags {
      assert ks[i] in Build(info, tags).names;
    }
    forall i | 0 <= i < |ks| ensures var d := Build(info, tags); var e := EntriesOf(d, ks)[i];
      Readable(e) && e.section < |d.sections| && NamedOf(info, ks[i]) == Named(e.tag, d.sections[e.section], e.name)
    {
      BuildEntry(info, tags, ks[i]);
    }
  }

  // The index rebuilt in tag order is the one built in the vendor's order.
  lemma ReverseRebuilt(info: map<nat, Info>, tags: seq<nat>, ks: seq<nat>, named: seq<Named>)
    requires Wireable(info, tags) && |named| == |ks|
    requires forall t :: t in tags <==> exists i :: 0 <= i < |ks| && ks[i] == t
    requires forall i, j :: 0 <= i < j < |ks| ==> ks[i] != ks[j]
    requires forall i :: 0 <= i < |ks| ==> ks[i] in tags && named[i] == NamedOf(info, ks[i])
    ensures ReverseOf(named) == ReverseOf(AllNamed(info, tags))
  {
    var all := AllNamed(info, tags);
    forall n ensures n in named <==> n in all {
      if n in named {
        var i :| 0 <= i < |named| && named[i] == n;
        var j :| 0 <= j < |tags| && tags[j] == ks[i];
        assert all[j] == n;
      }
      if n in all {
        var j :| 0 <= j < |all| && all[j] == n;
        assert tags[j] in tags;
        var i :| 0 <= i < |ks| && ks[i] == tags[j];
        assert named[i] == n;
      }
    }
    PairsKept(info, tags, ks, named);
    ReverseSame(named, all);
  }

  lemma PairsKept(info: map<nat, Info>, tags: seq<nat>, ks: seq<nat>, named: seq<Named>)
    requires Wireable(info, tags) && |named| == |ks|
    requires forall i, j :: 0 <= i < j < |ks| ==> ks[i] != ks[j]
    requires forall i :: 0 <= i < |ks| ==> ks[i] in tags && named[i] == NamedOf(info, ks[i])
    ensures DistinctPairs(named)
  {
    var all := AllNamed(info, tags);
    forall i, j | 0 <= i < j < |named| ensures (named[i].section, named[i].name) != (named[j].section, named[j].name) {
      var a :| 0 <= a < |tags| && tags[a] == ks[i];
      var b :| 0 <= b < |tags| && tags[b] == ks[j];
      assert all[a] == named[i] && all[b] == named[j] && a != b;
    }
  }

  lemma SectionsRead(v: seq<string>, needed: nat)
    requires Sorted(v) && v != [] && needed <= |v|
    requires forall i :: 0 <= i < |v| ==> v[i] != ""
    ensures ReadSections([Int(|v|)] + Texts(v), needed) == Ok(v)
  {
    ReadsTexts(v);
    SortedAllSame(v);
    assert ([Int(|v|)] + Texts(v))[1..] == Texts(v);
  }

  lemma WriteSplits(d: Descriptor)
    requires Writable(d)
    ensures Lists(Ascending(d.names.Keys), d.names.Keys) && Write(d) != [] && Write(d)[0] == Int(d.count)
    ensures Write(d)[1..] == EntriesTokens(EntriesOf(d, Ascending(d.names.Keys))) + Tail(d.sections)
  {
    AscendingAll(d.names.Keys);
    AscendingLists(d.names.Keys);
  }

  lemma {:induction false} EntriesAt(entries: seq<Entry>, i: nat)
    requires i < |entries|
    ensures |EntriesTokens(entries)| == 4 * |entries|
    ensures EntriesTokens(entries)[4 * i..4 * i + 4]
      == [Int(entries[i].tag), Int(entries[i].kind), Str(entries[i].name), Int(entries[i].section)]
  {
    var rest := EntriesTokens(entries[1..]);
    if |entries| > 1 {
      EntriesAt(entries[1..], if i > 0 then i - 1 else 0);
    }
    if i > 0 {
      assert EntriesTokens(entries)[4 * i..4 * i + 4] == rest[4 * (i - 1)..4 * (i - 1) + 4];
    }
  }

  lemma {:induction false} TextsAt(v: seq<string>)
    ensures |Texts(v)| == |v| && forall j :: 0 <= j < |v| ==> Texts(v)[j] == Str(v[j])
  {
    if v != [] {
      TextsAt(v[1..]);
    }
  }

  // The wire form: the count; of each tag, in ascending order, the tag, its type, its name
  // and the index of its section; and unless there is none the number of sections and they.
  lemma WireLayout(d: Descriptor, ks: seq<nat>, i: nat)
    requires Writable(d) && ks == Ascending(d.names.Keys) && i < |ks|
    ensures |Write(d)| == 1 + 4 * |ks| + (if d.sections == [] then 0 else 1 + |d.sections|)
    ensures Write(d)[0] == Int(d.count)
    ensures ks[i] in d.names && Write(d)[4 * i + 1..4 * i + 5]
      == [Int(ks[i]), Int(d.kinds[ks[i]]), Str(d.names[ks[i]]), Int(d.sectionOf[ks[i]])]
    ensures d.sections != [] ==> Write(d)[4 * |ks| + 1] == Int(|d.sections|)
    ensures forall j :: 0 <= j < |d.sections| ==> Write(d)[4 * |ks| + 2 + j] == Str(d.sections[j])
  {
    AscendingAll(d.names.Keys);
    var entries := EntriesOf(d, ks);
    EntriesAt(entries, i);
    TextsAt(d.sections);
    LayoutOf(d, entries, i, Write(d));
  }

  lemma TagsAscend(d: Descriptor)
    ensures forall t :: t in d.names <==> t in Ascending(d.names.Keys)
    ensures forall a, b :: 0 <= a < b < |Ascending(d.names.Keys)| ==>
      Ascending(d.names.Keys)[a] < Ascending(d.names.Keys)[b]
  {
    AscendingAll(d.names.Keys);
    AscendingOrder(d.names.Keys);
  }

  lemma LayoutOf(d: Descriptor, entries: seq<Entry>, i: nat, p: seq<Token>)
    requires i < |entries| && |EntriesTokens(entries)| == 4 * |entries| && |Texts(d.sections)| == |d.sections|
    requires p == [Int(d.count)] + (EntriesTokens(entries) + Tail(d.sections))
    ensures |p| == 1 + 4 * |entries| + (if d.sections == [] then 0 else 1 + |d.sections|) && p[0] == Int(d.count)
    ensures p[4 * i + 1..4 * i + 5] == EntriesTokens(entries)[4 * i..4 * i + 4]
    ensures d.sections != [] ==> p[4 * |entries| + 1] == Int(|d.sections|)
    ensures forall j :: 0 <= j < |d.sections| ==> p[4 * |entries| + 2 + j] == Texts(d.sections)[j]
  {
    LayoutOfThree(Int(d.count), EntriesTokens(entries), Tail(d.sections), 4 * i, 4 * i + 4);
    if d.sections != [] {
      assert forall j :: 0 <= j < |d.sections| ==> Tail(d.sections)[1 + j] == Texts(d.sections)[j];
    }
  }

  lemma LayoutOfThree(head: Token, body: seq<Token>, tail: seq<Token>, lo: nat, hi: nat)
    requires lo <= hi <= |body|
    ensures var p := [head] + (body + tail);
      && |p| == 1 + |body| + |tail| && p[lo + 1..hi + 1] == body[lo..hi]
      && forall j :: 0 <= j < |tail| ==> p[1 + |body| + j] == tail[j]
  {}

  // What reading needs of the entries written.
  ghost predicate GoodEntries(d: Descriptor, entries: seq<Entry>) {
    forall i :: 0 <= i < |entries| ==> Readable(entries[i]) && entries[i].section < |d.sections|
  }

  lemma Unpacks(p: seq<Token>, n: nat, entries: seq<Entry>, rest: seq<Token>, sections: seq<string>)
    requires p != [] && p[0] == Int(n) && n <= INT32_MAX && ReadEntries(p[1..], n) == Ok((entries, rest))
    requires if n == 0 then sections == [] else ReadSections(rest, Needed(entries)) == Ok(sections)
    ensures CreateFromParcel(p) == Assemble(n, entries, sections)
  {}

  lemma NeededBelow(entries: seq<Entry>, n: nat)
    requires n > 0 && forall i :: 0 <= i < |entries| ==> entries[i].section < n
    ensures Needed(entries) <= n
  {
    MaxSectionBelow(entries, n);
  }

  lemma ReadsBack(d: Descriptor, p: seq<Token>, entries: seq<Entry>)
    requires p != [] && p[0] == Int(d.count) && d.count == |entries| <= INT32_MAX
    requires p[1..] == EntriesTokens(entries) + Tail(d.sections) && GoodEntries(d, entries)
    requires Sorted(d.sections) && forall i :: 0 <= i < |d.sections| ==> d.sections[i] != ""
    requires d.sections == [] <==> entries == []
    ensures CreateFromParcel(p) == Assemble(d.count, entries, d.sections)
  {
    ReadsEntries(entries, Tail(d.sections));
    if entries != [] {
      NeededBelow(entries, |d.sections|);
      SectionsRead(d.sections, Needed(entries));
    }
    Unpacks(p, |entries|, entries, Tail(d.sections), d.sections);
  }

  // What becomes of the entries written for a descriptor.
  lemma Assembles(d: Descriptor, ks: seq<nat>)
    requires Writable(d) && Lists(ks, d.names.Keys)
    ensures Mapped(d.names, d.sectionOf, ks)
    ensures var named := NamedBy(d.names, d.sectionOf, ks, d.sections);
      Assemble(d.count, EntriesOf(d, ks), d.sections)
        == if named.Some? then Ok(d.(reverse := ReverseOf(named.value))) else Err(OutOfRange)
  {
    NamesRebuilt(d, ks);
    KindsRebuilt(d, ks);
    SectionOfRebuilt(d, ks);
    assert TagsOf(EntriesOf(d, ks)) == ks;
  }

  lemma EntriesGood(info: map<nat, Info>, tags: seq<nat>, d: Descriptor, ks: seq<nat>) returns (named: seq<Named>)
    requires Wireable(info, tags) && d == Build(info, tags) && Writable(d) && Lists(ks, d.names.Keys)
    ensures GoodEntries(d, EntriesOf(d, ks)) && Mapped(d.names, d.sectionOf, ks)
    ensures NamedBy(d.names, d.sectionOf, ks, d.sections) == Some(named)
    ensures |named| == |ks| && forall i :: 0 <= i < |ks| ==> Good(info, ks[i]) && named[i] == NamedOf(info, ks[i])
  {
    EntriesFacts(info, tags, ks);
    ListsTags(info, tags, d, ks);
    forall i | 0 <= i < |ks| ensures d.sectionOf[ks[i]] < |d.sections| {
      assert EntriesOf(d, ks)[i].section < |d.sections|;
    }
    named := NamedBy(d.names, d.sectionOf, ks, d.sections).value;
  }

  lemma ListsTags(info: map<nat, Info>, tags: seq<nat>, d: Descriptor, ks: seq<nat>)
    requires AllGood(info, tags) && d == Build(info, tags) && Lists(ks, d.names.Keys)
    ensures forall t :: t in tags <==> exists i :: 0 <= i < |ks| && ks[i] == t
    ensures forall i :: 0 <= i < |ks| ==> ks[i] in tags && Good(info, ks[i])
  {
    forall t ensures t in tags <==> t in d.names {}
    forall i | 0 <= i < |ks| ensures ks[i] in tags && Good(info, ks[i]) {
      assert ks[i] in d.names;
    }
  }

  lemma WireReturns(info: map<nat, Info>, tags: seq<nat>, d: Descriptor, p: seq<Token>, ks: seq<nat>)
    requires Wireable(info, tags) && d == Build(info, tags) && Writable(d) && d.count == |tags| == |d.names|
    requires Lists(ks, d.names.Keys) && |ks| == |d.names| && p != [] && p[0] == Int(d.count)
    requires p[1..] == EntriesTokens(EntriesOf(d, ks)) + Tail(d.sections)
    ensures CreateFromParcel(p) == Ok(d)
  {
    SectionsNamed(info, tags);
    var named := EntriesGood(info, tags, d, ks);
    ListsTags(info, tags, d, ks);
    ReverseRebuilt(info, tags, ks, named);
    ReadsBack(d, p, EntriesOf(d, ks));
    Assembles(d, ks);
  }

  // A descriptor built from the vendor's functions comes back from the wire as it was:
  // the three maps, the sections and the reverse index.
  lemma WireRoundTrip(info: map<nat, Info>, tags: seq<nat>)
    requires Wireable(info, tags)
    ensures Writable(Build(info, tags)) && CreateFromParcel(Write(Build(info, tags))) == Ok(Build(info, tags))
  {
    var d := Build(info, tags);
    BuildFacts(info, tags);
    WriteSplits(d);
    AscendingLists(d.names.Keys);
    WireReturns(info, tags, d, Write(d), Ascending(d.names.Keys));
  }

  // Any descriptor on the wire ------------------------------------------------------------------

  predicate SamePair(a: Named, b: Named) {
    a.section == b.section && a.name == b.name
  }

  // The tag of the last of a list's elements with its section and name.
  ghost predicate LastOf(list: seq<Named>, n: Named) {
    exists i :: 0 <= i < |list| && list[i] == n && forall j :: i < j < |list| ==> !SamePair(list[j], n)
  }

  ghost predicate AnyOf(list: seq<Named>, n: Named) {
    exists i :: 0 <= i < |list| && SamePair(list[i], n)
  }

  lemma LastOfMore(list: seq<Named>, last: Named, n: Named)
    ensures LastOf(list + [last], n) <==> n == last || (!SamePair(last, n) && LastOf(list, n))
    ensures AnyOf(list + [last], n) <==> SamePair(last, n) || AnyOf(list, n)
  {
    var more := list + [last];
    assert more[|list|] == last;
    if !SamePair(last, n) && LastOf(list, n) {
      var i :| 0 <= i < |list| && list[i] == n && forall j :: i < j < |list| ==> !SamePair(list[j], n);
      assert more[i] == n && forall j :: i < j < |more| ==> !SamePair(more[j], n);
    }
    if n != last && LastOf(more, n) {
      var i :| 0 <= i < |more| && more[i] == n && forall j :: i < j < |more| ==> !SamePair(more[j], n);
      assert list[i] == n && forall j :: i < j < |list| ==> more[j] == list[j];
    }
    if AnyOf(list, n) {
      var i :| 0 <= i < |list| && SamePair(list[i], n);
      assert SamePair(more[i], n);
    }
  }

  // In an index built in the order of a list the last tag of a pair wins, and a section is
  // there only with some name.
  lemma {:induction false} ReverseLast(list: seq<Named>, n: Named)
    ensures Finds(ReverseOf(list), n) <==> LastOf(list, n)
    ensures n.section in ReverseOf(list) && n.name in ReverseOf(list)[n.section] <==> AnyOf(list, n)
    ensures forall s :: s in ReverseOf(list) ==> ReverseOf(list)[s] != map[]
  {
    if list != [] {
      var before, last := list[..|list| - 1], list[|list| - 1];
      ReverseLast(before, n);
      LastOfMore(before, last, n);
      assert list == before + [last];
      assert ReverseOf(list)[last.section][last.name] == last.tag;
    }
  }

  // A tag has a section and a name, as the three maps have it.
  predicate Bears(d: Descriptor, n: Named) {
    && n.tag in d.names && d.names[n.tag] == n.name
    && n.tag in d.sectionOf && d.sectionOf[n.tag] < |d.sections| && d.sections[d.sectionOf[n.tag]] == n.section
  }

  // The list of named tags holds exactly the tags of the maps.
  lemma NamedBears(d: Descriptor, tags: seq<nat>, named: seq<Named>, n: Named)
    requires Mapped(d.names, d.sectionOf, tags) && NamedBy(d.names, d.sectionOf, tags, d.sections) == Some(named)
    requires forall t :: t in d.names ==> exists i :: 0 <= i < |tags| && tags[i] == t
    ensures (exists i :: 0 <= i < |named| && named[i] == n) <==> Bears(d, n)
  {
    if Bears(d, n) {
      var i :| 0 <= i < |tags| && tags[i] == n.tag;
      assert named[i] == n;
    }
  }

  lemma ParcelParts(p: seq<Token>, d: Descriptor) returns (tags: seq<nat>, named: seq<Named>)
    requires CreateFromParcel(p) == Ok(d)
    ensures Mapped(d.names, d.sectionOf, tags) && NamedBy(d.names, d.sectionOf, tags, d.sections) == Some(named)
    ensures forall t :: t in d.names ==> exists i :: 0 <= i < |tags| && tags[i] == t
    ensures d.reverse == ReverseOf(named)
  {
    var entries := ReadEntries(p[1..], p[0].value).value.0;
    if p[0].value == 0 {
      assert entries == [];
    }
    tags := TagsOf(entries);
    forall t | t in d.names ensures exists i :: 0 <= i < |tags| && tags[i] == t {
      KeysOfEntries(entries, t);
      var i :| 0 <= i < |entries| && entries[i].tag == t;
      assert tags[i] == t;
    }
    named := NamedBy(d.names, d.sectionOf, tags, d.sections).value;
  }

  // After reading any parcel, repeated tags and all, lookupTag answers with a tag that has
  // the name and the section, and fails exactly when no tag has them.
  lemma ParcelLookup(p: seq<Token>, d: Descriptor, name: string, section: string)
    requires CreateFromParcel(p) == Ok(d)
    ensures LookupTag(d, name, section).Ok? ==> Bears(d, Named(LookupTag(d, name, section).value, section, name))
    ensures LookupTag(d, name, section).Err? <==> forall t: nat :: !Bears(d, Named(t, section, name))
  {
    var tags, named := ParcelParts(p, d);
    var pair := Named(0, section, name);
    ReverseLast(named, pair);
    if LookupTag(d, name, section).Ok? {
      var found := Named(LookupTag(d, name, section).value, section, name);
      ReverseLast(named, found);
      NamedBears(d, tags, named, found);
    } else if t: nat :| Bears(d, Named(t, section, name)) {
      NamedBears(d, tags, named, Named(t, section, name));
      assert AnyOf(named, pair);
    }
  }

  // The index answers each pair with the greatest tag that bears it.
  ghost predicate Greatest(d: Descriptor, n: Named) {
    Bears(d, n) && forall t: nat :: Bears(d, Named(t, n.section, n.name)) ==> t <= n.tag
  }

  // The spare levels keep it folded; IndexAgreesMeans unfolds it.
  ghost predicate IndexAgrees(d: Descriptor) {
    IndexAgreesAt(2, d)
  }

  ghost predicate IndexAgreesAt(level: nat, d: Descriptor) {
    if level > 0 then IndexAgreesAt(level - 1, d) else
      && (forall s :: s in d.reverse ==> d.reverse[s] != map[])
      && forall n :: Finds(d.reverse, n) <==> Greatest(d, n)
  }

  lemma IndexAgreesMeans(d: Descriptor)
    ensures IndexAgrees(d) <==>
      && (forall s :: s in d.reverse ==> d.reverse[s] != map[])
      && forall n :: Finds(d.reverse, n) <==> Greatest(d, n)
  {
    assert IndexAgreesAt(2, d) == IndexAgreesAt(1, d) == IndexAgreesAt(0, d);
  }

  lemma LastInOrder(list: seq<Named>, n: Named)
    requires forall i, j :: 0 <= i < j < |list| ==> list[i].tag < list[j].tag
    ensures LastOf(list, n) <==> n in list && forall m :: m in list && SamePair(m, n) ==> m.tag <= n.tag
  {
    if LastOf(list, n) {
      var i :| 0 <= i < |list| && list[i] == n && forall j :: i < j < |list| ==> !SamePair(list[j], n);
      forall m | m in list && SamePair(m, n) ensures m.tag <= n.tag {
        var j :| 0 <= j < |list| && list[j] == m;
        assert j <= i;
      }
    } else if n in list {
      var i :| 0 <= i < |list| && list[i] == n;
      var j :| i < j < |list| && SamePair(list[j], n);
      assert list[j] in list;
    }
  }

  lemma LastIsGreatest(d: Descriptor, ks: seq<nat>, named: seq<Named>, n: Named)
    requires Writable(d) && ks == Ascending(d.names.Keys) && Mapped(d.names, d.sectionOf, ks)
    requires NamedBy(d.names, d.sectionOf, ks, d.sections) == Some(named)
    ensures LastOf(named, n) <==> Greatest(d, n)
  {
    AscendingLists(d.names.Keys);
    AscendingOrder(d.names.Keys);
    LastInOrder(named, n);
    forall m ensures m in named <==> Bears(d, m) {
      NamedBears(d, ks, named, m);
    }
    SameGreatest(d, named, n);
  }

  lemma SameGreatest(d: Descriptor, named: seq<Named>, n: Named)
    requires forall m :: m in named <==> Bears(d, m)
    ensures Greatest(d, n) <==> n in named && forall m :: m in named && SamePair(m, n) ==> m.tag <= n.tag
  {
    if Greatest(d, n) {
      forall m | m in named && SamePair(m, n) ensures m.tag <= n.tag {
        assert m == Named(m.tag, n.section, n.name);
      }
    }
  }

  lemma HasName(names: map<string, nat>)
    requires names != map[]
    ensures exists x :: x in names
  {
    assert (forall x :: x !in names) ==> names == map[];
  }

  // Two indexes with the same answers and no empty section are the same.
  lemma SameAnswers(a: map<string, map<string, nat>>, b: map<string, map<string, nat>>)
    requires forall s :: s in a ==> a[s] != map[]
    requires forall n :: Finds(a, n) ==> Finds(b, n)
    ensures forall s :: s in a ==> s in b && forall x :: x in a[s] ==> x in b[s] && a[s][x] == b[s][x]
  {
    forall s | s in a ensures s in b && forall x :: x in a[s] ==> x in b[s] && a[s][x] == b[s][x] {
      forall x | x in a[s] ensures s in b && x in b[s] && a[s][x] == b[s][x] {
        assert Finds(a, Named(a[s][x], s, x));
      }
      HasName(a[s]);
    }
  }

  lemma IndexAgreesExact(d: Descriptor, ks: seq<nat>, named: seq<Named>)
    requires Writable(d) && ks == Ascending(d.names.Keys) && Mapped(d.names, d.sectionOf, ks)
    requires NamedBy(d.names, d.sectionOf, ks, d.sections) == Some(named)
    ensures d.reverse == ReverseOf(named) <==> IndexAgrees(d)
  {
    forall n ensures Finds(ReverseOf(named), n) <==> Greatest(d, n) {
      ReverseLast(named, n);
      LastIsGreatest(d, ks, named, n);
    }
    ReverseLast(named, Named(0, "", ""));
    IndexAgreesMeans(d);
    if IndexAgrees(d) {
      SameAnswers(d.reverse, ReverseOf(named));
      SameAnswers(ReverseOf(named), d.reverse);
      assert d.reverse.Keys == ReverseOf(named).Keys;
      forall s | s in d.reverse ensures d.reverse[s] == ReverseOf(named)[s] {
        assert d.reverse[s].Keys == ReverseOf(named)[s].Keys;
      }
    }
  }

  // What a descriptor must be to come back from the wire.
  ghost predicate Whole(d: Descriptor) {
    && d.count == |d.names| <= INT32_MAX
    && (forall t :: t in d.names ==> GoodTag(d, t))
    && Sorted(d.sections) && (forall i :: 0 <= i < |d.sections| ==> d.sections[i] != "")
    && (d.names == map[] ==> d.sections == [])
    && IndexAgrees(d)
  }

  ghost predicate GoodTag(d: Descriptor, t: nat) {
    && t >= BOUNDARY && t in d.names && d.names[t] != "" && t in d.kinds && d.kinds[t] < NUM_TYPES
    && t in d.sectionOf && d.sectionOf[t] < |d.sections|
  }

  // Of entries and what follows them, n or more entries are read exactly when all are
  // readable and the others follow.
  lemma {:induction false} ReadsOnly(entries: seq<Entry>, rest: seq<Token>, n: nat)
    requires ReadEntries(EntriesTokens(entries) + rest, n).Ok? && |entries| <= n
    ensures forall i :: 0 <= i < |entries| ==> Readable(entries[i])
    ensures ReadEntries(rest, n - |entries|).Ok?
  {
    if entries == [] {
      assert EntriesTokens(entries) + rest == rest;
    } else {
      var more := EntriesTokens(entries[1..]) + rest;
      assert EntriesTokens(entries) + rest == EntryTokens(entries[0]) + more;
      assert (EntryTokens(entries[0]) + more)[4..] == more;
      ReadsOnly(entries[1..], rest, n - 1);
      assert entries == [entries[0]] + entries[1..];
    }
  }

  // No entry can be read from the list of sections.
  lemma TailUnreadable(v: seq<string>, n: nat)
    requires n > 0
    ensures ReadEntries(Tail(v), n).Err?
  {
    if v != [] {
      assert Tail(v)[1] == Str(v[0]);
    }
  }

  lemma {:induction false} TextsOnly(v: seq<string>, i: nat)
    requires ReadTexts(Texts(v), |v|).Ok? && i < |v|
    ensures v[i] != ""
  {
    assert Texts(v)[1..] == Texts(v[1..]);
    if i > 0 {
      TextsOnly(v[1..], i - 1);
    }
  }

  lemma {:induction false} NamesAtMost(entries: seq<Entry>)
    ensures |Names(entries)| <= |entries|
  {
    if entries != [] {
      var before, last := Names(entries[..|entries| - 1]), entries[|entries| - 1];
      NamesAtMost(entries[..|entries| - 1]);
      assert Names(entries).Keys == before.Keys + {last.tag};
      assert |before.Keys + {last.tag}| <= |before.Keys| + 1;
      assert |before| == |before.Keys| && |Names(entries)| == |Names(entries).Keys|;
    }
  }

  lemma {:induction false} EntriesCount(p: seq<Token>, n: nat)
    requires ReadEntries(p, n).Ok?
    ensures |ReadEntries(p, n).value.0| == n
    decreases n
  {
    if n > 0 {
      EntriesCount(p[4..], n - 1);
    }
  }

  // Only as many entries as there are tags give the tags back.
  lemma CountReturns(d: Descriptor, p: seq<Token>, entries: seq<Entry>)
    requires p != [] && p[0] == Int(d.count) && p[1..] == EntriesTokens(entries) + Tail(d.sections)
    requires |entries| == |d.names| && CreateFromParcel(p) == Ok(d)
    ensures d.count == |entries| && forall i :: 0 <= i < |entries| ==> Readable(entries[i])
  {
    var es := ReadEntries(p[1..], d.count).value.0;
    EntriesCount(p[1..], d.count);
    assert Names(es) == d.names by {
      if d.count == 0 {
        assert es == [];
      }
    }
    NamesAtMost(es);
    ReadsOnly(entries, Tail(d.sections), d.count);
    if d.count > |entries| {
      TailUnreadable(d.sections, d.count - |entries|);
      assert false;
    }
  }

  lemma SectionsReturn(v: seq<string>, needed: nat)
    requires ReadSections(Tail(v), needed) == Ok(v)
    ensures Sorted(v) && forall i :: 0 <= i < |v| ==> v[i] != ""
  {
    assert v != [];
    assert Tail(v)[1..] == Texts(v);
    SortedAllKeeps(ReadTexts(Texts(v), |v|).value);
    forall i | 0 <= i < |v| ensures v[i] != "" {
      TextsOnly(v, i);
    }
  }

  // The tags of a descriptor are good exactly when the entries written for it are.
  lemma GoodWritten(d: Descriptor, ks: seq<nat>)
    requires Writable(d) && Lists(ks, d.names.Keys)
    ensures GoodEntries(d, EntriesOf(d, ks)) <==> forall t :: t in d.names ==> GoodTag(d, t)
  {
    var entries := EntriesOf(d, ks);
    if GoodEntries(d, entries) {
      forall t | t in d.names ensures GoodTag(d, t) {
        var i :| 0 <= i < |ks| && ks[i] == t;
        assert Readable(entries[i]) && entries[i].section < |d.sections|;
      }
    }
    if forall t :: t in d.names ==> GoodTag(d, t) {
      forall i | 0 <= i < |entries| ensures Readable(entries[i]) && entries[i].section < |d.sections| {
        assert GoodTag(d, ks[i]);
      }
    }
  }

  // What is written is put together again exactly when the sections are there and the
  // reverse index agrees.
  lemma AssemblesExact(d: Descriptor, ks: seq<nat>)
    requires Writable(d) && ks == Ascending(d.names.Keys) && Lists(ks, d.names.Keys)
    ensures Assemble(d.count, EntriesOf(d, ks), d.sections) == Ok(d) <==>
      (forall i :: 0 <= i < |ks| ==> EntriesOf(d, ks)[i].section < |d.sections|) && IndexAgrees(d)
  {
    Assembles(d, ks);
    var named := NamedBy(d.names, d.sectionOf, ks, d.sections);
    if named.Some? {
      IndexAgreesExact(d, ks, named.value);
    }
  }

  // A parcel holds what is written for a descriptor, its tags being listed by ks.
  ghost predicate Written(d: Descriptor, p: seq<Token>, ks: seq<nat>) {
    && Writable(d) && ks == Ascending(d.names.Keys) && Lists(ks, d.names.Keys) && |ks| == |d.names|
    && p != [] && p[0] == Int(d.count) && p[1..] == EntriesTokens(EntriesOf(d, ks)) + Tail(d.sections)
  }

  lemma WholeReturns(d: Descriptor, p: seq<Token>, ks: seq<nat>)
    requires Written(d, p, ks) && Whole(d)
    ensures CreateFromParcel(p) == Ok(d)
  {
    GoodWritten(d, ks);
    AssemblesExact(d, ks);
    EmptyTogether(d, EntriesOf(d, ks));
    ReadsBack(d, p, EntriesOf(d, ks));
  }

  lemma EmptyTogether(d: Descriptor, entries: seq<Entry>)
    requires |entries| == |d.names| && (d.names == map[] ==> d.sections == [])
    requires forall i :: 0 <= i < |entries| ==> entries[i].section < |d.sections|
    ensures d.sections == [] <==> entries == []
  {
    if entries == [] {
      assert d.names == map[];
    } else {
      assert entries[0].section < |d.sections|;
    }
  }

  // What a parcel that comes back says of its parts.
  lemma PartsReturn(d: Descriptor, p: seq<Token>, entries: seq<Entry>)
    requires p != [] && p[0] == Int(d.count) && p[1..] == EntriesTokens(entries) + Tail(d.sections)
    requires |entries| == |d.names| && CreateFromParcel(p) == Ok(d)
    ensures d.count == |entries| <= INT32_MAX && forall i :: 0 <= i < |entries| ==> Readable(entries[i])
    ensures entries == [] ==> d.sections == []
    ensures Sorted(d.sections) && forall i :: 0 <= i < |d.sections| ==> d.sections[i] != ""
    ensures Assemble(d.count, entries, d.sections) == Ok(d)
  {
    CountReturns(d, p, entries);
    ReadsEntries(entries, Tail(d.sections));
    if entries != [] {
      SectionsReturn(d.sections, Needed(entries));
    }
    Unpacks(p, |entries|, entries, Tail(d.sections), d.sections);
  }

  lemma ReturnsTags(d: Descriptor, p: seq<Token>, ks: seq<nat>)
    requires Written(d, p, ks) && Assemble(d.count, EntriesOf(d, ks), d.sections) == Ok(d)
    requires forall i :: 0 <= i < |ks| ==> Readable(EntriesOf(d, ks)[i])
    ensures (forall t :: t in d.names ==> GoodTag(d, t)) && IndexAgrees(d)
  {
    AssemblesExact(d, ks);
    GoodWritten(d, ks);
  }

  lemma ReturnsWhole(d: Descriptor, p: seq<Token>, ks: seq<nat>)
    requires Written(d, p, ks) && CreateFromParcel(p) == Ok(d)
    ensures Whole(d)
  {
    PartsReturn(d, p, EntriesOf(d, ks));
    ReturnsTags(d, p, ks);
  }

  // A descriptor comes back from its wire form unchanged exactly when it counts its tags,
  // each is valid and its section is there, the sections are in order and have names, and
  // the reverse index answers every pair with the greatest tag that bears it.
  lemma ReturnsExact(d: Descriptor)
    requires Writable(d)
    ensures CreateFromParcel(Write(d)) == Ok(d) <==> Whole(d)
  {
    var p, ks := Write(d), Ascending(d.names.Keys);
    WriteSplits(d);
    AscendingLists(d.names.Keys);
    if Whole(d) {
      WholeReturns(d, p, ks);
    }
    if CreateFromParcel(p) == Ok(d) {
      ReturnsWhole(d, p, ks);
    }
  }
}

// The descriptor object and its loops.
module VendorTagIndex {
  import opened Options
  import opened VendorTagModel

  method AddSorted(v: seq<string>, s: string) returns (w: seq<string>)
    ensures w == SortedAdd(v, s)
  {
    var i := Place(v, s);
    w := if i < |v| && v[i] == s then v else v[..i] + [s] + v[i..];
  }

  // The first loop of createDescriptorFromOps.
  method Collect(info: map<nat, Info>, tags: seq<nat>)
    returns (ok: bool, names: map<nat, string>, kinds: map<nat, nat>, sections: seq<string>)
    ensures ok <==> AllGood(info, tags)
    ensures ok ==>
      names == Build(info, tags).names && kinds == Build(info, tags).kinds && sections == Build(info, tags).sections
  {
    names, kinds, sections := map[], map[], [];
    var i := 0;
    while i < |tags|
      invariant i <= |tags| && AllGood(info, tags[..i])
      invariant names == (map t | t in tags[..i] :: Look(info, t).name.value)
      invariant kinds == (map t | t in tags[..i] :: KindOf(info, t))
      invariant sections == SortedAll(SectionsOf(AllNamed(info, tags[..i])))
    {
      var tag, said := tags[i], Look(info, tags[i]);
      if tag < BOUNDARY || said.name.None? || said.section.None? || said.kind < 0 || said.kind >= NUM_TYPES {
        return false, names, kinds, sections;
      }
      CollectStep(info, tags, i);
      names := names[tag := said.name.value];
      sections := AddSorted(sections, said.section.value);
      kinds := kinds[tag := said.kind];
      i := i + 1;
    }
    assert tags[..i] == tags;
    ok := true;
  }

  lemma CollectStep(info: map<nat, Info>, tags: seq<nat>, i: nat)
    requires i < |tags| && AllGood(info, tags[..i]) && Good(info, tags[i])
    ensures AllGood(info, tags[..i + 1])
    ensures (map t | t in tags[..i + 1] :: Look(info, t).name.value)
      == (map t | t in tags[..i] :: Look(info, t).name.value)[tags[i] := Look(info, tags[i]).name.value]
    ensures (map t | t in tags[..i + 1] :: KindOf(info, t))
      == (map t | t in tags[..i] :: KindOf(info, t))[tags[i] := KindOf(info, tags[i])]
    ensures SortedAll(SectionsOf(AllNamed(info, tags[..i + 1])))
      == SortedAdd(SortedAll(SectionsOf(AllNamed(info, tags[..i]))), Look(info, tags[i]).section.value)
  {
    var before, after := SectionsOf(AllNamed(info, tags[..i])), SectionsOf(AllNamed(info, tags[..i + 1]));
    assert after[..|after| - 1] == before;
  }

  // The two maps after some turns of the second loop.
  function Indexed(info: map<nat, Info>, tags: seq<nat>, sections: seq<string>): (map<nat, nat>, map<string,
      map<string, nat>>)
    requires AllGood(info, tags)
  {
    if tags == [] then (map[], map[]) else
      var (sectionOf, reverse) := Indexed(info, tags[..|tags| - 1], sections);
      var n := NamedOf(info, tags[|tags| - 1]);
      (sectionOf[n.tag := IndexIn(sections, n.section)], AddNamed(reverse, n))
  }

  lemma {:induction false} IndexedAll(info: map<nat, Info>, tags: seq<nat>, sections: seq<string>)
    requires AllGood(info, tags)
    ensures Indexed(info, tags, sections)
      == (map t | t in tags :: SectionIndex(info, sections, t), ReverseOf(AllNamed(info, tags)))
  {
    if tags != [] {
      IndexedAll(info, tags[..|tags| - 1], sections);
      assert tags[..|tags|] == tags;
      IndexStep(info, tags, |tags| - 1, sections);
    }
  }

  // The same for the first i tags, folded; UpToMeans unfolds it.
  ghost predicate UpTo(info: map<nat, Info>, tags: seq<nat>, i: nat, sections: seq<string>, sectionOf: map<nat, nat>,
      reverse: map<string, map<string, nat>>) {
    UpToAt(2, info, tags, i, sections, sectionOf, reverse)
  }

  ghost predicate UpToAt(level: nat, info: map<nat, Info>, tags: seq<nat>, i: nat, sections: seq<string>,
      sectionOf: map<nat, nat>, reverse: map<string, map<string, nat>>) {
    if level > 0 then UpToAt(level - 1, info, tags, i, sections, sectionOf, reverse) else
      i <= |tags| && AllGood(info, tags) && (sectionOf, reverse) == Indexed(info, tags[..i], sections)
  }

  lemma UpToMeans(info: map<nat, Info>, tags: seq<nat>, i: nat, sections: seq<string>, sectionOf: map<nat, nat>,
      reverse: map<string, map<string, nat>>)
    ensures UpTo(info, tags, i, sections, sectionOf, reverse) <==>
      i <= |tags| && AllGood(info, tags) && (sectionOf, reverse) == Indexed(info, tags[..i], sections)
  {
    assert UpToAt(2, info, tags, i, sections, sectionOf, reverse)
      == UpToAt(1, info, tags, i, sections, sectionOf, reverse)
      == UpToAt(0, info, tags, i, sections, sectionOf, reverse);
  }

  lemma UpToNext(info: map<nat, Info>, tags: seq<nat>, i: nat, sections: seq<string>, sectionOf: map<nat, nat>,
      reverse: map<string, map<string, nat>>)
    requires UpTo(info, tags, i, sections, sectionOf, reverse) && i < |tags| && AllGood(info, tags)
    ensures var n := NamedOf(info, tags[i]);
      UpTo(info, tags, i + 1, sections, sectionOf[n.tag := IndexIn(sections, n.section)], AddNamed(reverse, n))
  {
    var n := NamedOf(info, tags[i]);
    UpToMeans(info, tags, i, sections, sectionOf, reverse);
    UpToMeans(info, tags, i + 1, sections, sectionOf[n.tag := IndexIn(sections, n.section)], AddNamed(reverse, n));
    assert tags[..i + 1][..i] == tags[..i];
  }

  lemma UpToEnd(info: map<nat, Info>, tags: seq<nat>, sections: seq<string>, sectionOf: map<nat, nat>,
      reverse: map<string, map<string, nat>>)
    requires AllGood(info, tags) && UpTo(info, tags, |tags|, sections, sectionOf, reverse)
    requires sections == Build(info, tags).sections
    ensures sectionOf == Build(info, tags).sectionOf && reverse == Build(info, tags).reverse
  {
    UpToMeans(info, tags, |tags|, sections, sectionOf, reverse);
    assert tags[..|tags|] == tags;
    IndexedAll(info, tags, sections);
  }

  // The second loop: each tag's section index, and the reverse index.
  method Index(info: map<nat, Info>, tags: seq<nat>, sections: seq<string>)
    returns (sectionOf: map<nat, nat>, reverse: map<string, map<string, nat>>)
    requires AllGood(info, tags) && sections == Build(info, tags).sections
    ensures sectionOf == Build(info, tags).sectionOf && reverse == Build(info, tags).reverse
  {
    sectionOf, reverse := map[], map[];
    var i := 0;
    UpToMeans(info, tags, 0, sections, sectionOf, reverse);
    while i < |tags|
      invariant i <= |tags| && UpTo(info, tags, i, sections, sectionOf, reverse)
    {
      UpToNext(info, tags, i, sections, sectionOf, reverse);
      var n := NamedOf(info, tags[i]);
      sectionOf := sectionOf[n.tag := IndexIn(sections, n.section)];
      var inner := if n.section in reverse then reverse[n.section] else map[];
      reverse := reverse[n.section := inner[n.name := n.tag]];
      i := i + 1;
    }
    UpToEnd(info, tags, sections, sectionOf, reverse);
  }

  lemma IndexStep(info: map<nat, Info>, tags: seq<nat>, i: nat, sections: seq<string>)
    requires i < |tags| && AllGood(info, tags)
    ensures (map t | t in tags[..i + 1] :: SectionIndex(info, sections, t))
      == (map t | t in tags[..i] :: SectionIndex(info, sections, t))[tags[i] := SectionIndex(info, sections, tags[i])]
    ensures ReverseOf(AllNamed(info, tags[..i + 1]))
      == AddNamed(ReverseOf(AllNamed(info, tags[..i])), NamedOf(info, tags[i]))
  {
    var before, after := AllNamed(info, tags[..i]), AllNamed(info, tags[..i + 1]);
    assert after[..|after| - 1] == before;
  }

  // The loop of createFromParcel over the entries.
  method ReadAll(p: seq<Token>, n: nat) returns (r: Result<(seq<Entry>, seq<Token>)>)
    ensures r == ReadEntries(p, n)
  {
    var entries, rest, i := [], p, 0;
    PrefixedMore([], Entry(0, 0, "", 0), ReadEntries(p, n));
    while i < n
      invariant i <= n
      invariant ReadEntries(p, n) == Prefixed(entries, ReadEntries(rest, n - i))
    {
      var first := ReadEntry(rest);
      if first.Err? {
        return Err(first.error);
      }
      PrefixedMore(entries, first.value.0, ReadEntries(first.value.1, n - i - 1));
      entries, rest := entries + [first.value.0], first.value.1;
      i := i + 1;
    }
    assert entries + [] == entries;
    return Ok((entries, rest));
  }

  function Prefixed(entries: seq<Entry>, r: Result<(seq<Entry>, seq<Token>)>): Result<(seq<Entry>, seq<Token>)> {
    if r.Err? then r else Ok((entries + r.value.0, r.value.1))
  }

  lemma PrefixedMore(entries: seq<Entry>, e: Entry, r: Result<(seq<Entry>, seq<Token>)>)
    ensures Prefixed(entries, Prefixed([e], r)) == Prefixed(entries + [e], r)
    ensures Prefixed([], r) == r
  {
    if r.Ok? {
      assert [] + r.value.0 == r.value.0;
      assert entries + ([e] + r.value.0) == entries + [e] + r.value.0;
    }
  }

  lemma NamedByMore(names: map<nat, string>, sectionOf: map<nat, nat>, tags: seq<nat>, sections: seq<string>, i: nat)
    requires Mapped(names, sectionOf, tags) && i < |tags| && sectionOf[tags[i]] < |sections|
    requires NamedBy(names, sectionOf, tags[..i], sections).Some?
    ensures NamedBy(names, sectionOf, tags[..i + 1], sections).Some?
    ensures NamedBy(names, sectionOf, tags[..i + 1], sections).value
      == NamedBy(names, sectionOf, tags[..i], sections).value
        + [Named(tags[i], sections[sectionOf[tags[i]]], names[tags[i]])]
  {
    var more := tags[..i + 1];
    forall j | 0 <= j < |more| ensures sectionOf[more[j]] < |sections| {
      assert j < i ==> tags[..i][j] == more[j];
    }
  }

  // The reverse mapping of a list of tags, folded; ReversesMeans unfolds it.
  ghost predicate Reverses(names: map<nat, string>, sectionOf: map<nat, nat>, tags: seq<nat>, sections: seq<string>,
      reverse: map<string, map<string, nat>>) {
    ReversesAt(2, names, sectionOf, tags, sections, reverse)
  }

  ghost predicate ReversesAt(level: nat, names: map<nat, string>, sectionOf: map<nat, nat>, tags: seq<nat>,
      sections: seq<string>, reverse: map<string, map<string, nat>>) {
    if level > 0 then ReversesAt(level - 1, names, sectionOf, tags, sections, reverse) else
      && Mapped(names, sectionOf, tags) && NamedBy(names, sectionOf, tags, sections).Some?
      && reverse == ReverseOf(NamedBy(names, sectionOf, tags, sections).value)
  }

  lemma ReversesMeans(names: map<nat, string>, sectionOf: map<nat, nat>, tags: seq<nat>, sections: seq<string>,
      reverse: map<string, map<string, nat>>)
    ensures Reverses(names, sectionOf, tags, sections, reverse) <==>
      && Mapped(names, sectionOf, tags) && NamedBy(names, sectionOf, tags, sections).Some?
      && reverse == ReverseOf(NamedBy(names, sectionOf, tags, sections).value)
  {
    assert ReversesAt(2, names, sectionOf, tags, sections, reverse)
      == ReversesAt(1, names, sectionOf, tags, sections, reverse)
      == ReversesAt(0, names, sectionOf, tags, sections, reverse);
  }

  lemma ReversesNext(names: map<nat, string>, sectionOf: map<nat, nat>, tags: seq<nat>, sections: seq<string>, i: nat,
      reverse: map<string, map<string, nat>>)
    requires Mapped(names, sectionOf, tags) && i < |tags| && sectionOf[tags[i]] < |sections|
    requires Reverses(names, sectionOf, tags[..i], sections, reverse)
    ensures var n := Named(tags[i], sections[sectionOf[tags[i]]], names[tags[i]]);
      Reverses(names, sectionOf, tags[..i + 1], sections, AddNamed(reverse, n))
  {
    var n := Named(tags[i], sections[sectionOf[tags[i]]], names[tags[i]]);
    ReversesMeans(names, sectionOf, tags[..i], sections, reverse);
    ReversesMeans(names, sectionOf, tags[..i + 1], sections, AddNamed(reverse, n));
    var before := NamedBy(names, sectionOf, tags[..i], sections).value;
    NamedByMore(names, sectionOf, tags, sections, i);
    assert (before + [n])[..|before|] == before;
  }

  // The reverse mapping of createFromParcel: every tag read, with the section and the name
  // the maps ended up with.
  method ReverseAll(names: map<nat, string>, sectionOf: map<nat, nat>, tags: seq<nat>, sections: seq<string>)
    returns (ok: bool, reverse: map<string, map<string, nat>>)
    requires Mapped(names, sectionOf, tags)
    ensures ok <==> NamedBy(names, sectionOf, tags, sections).Some?
    ensures ok ==> reverse == ReverseOf(NamedBy(names, sectionOf, tags, sections).value)
  {
    reverse := map[];
    var i := 0;
    ReversesMeans(names, sectionOf, [], sections, reverse);
    assert tags[..0] == [];
    while i < |tags|
      invariant i <= |tags| && Reverses(names, sectionOf, tags[..i], sections, reverse)
    {
      var tag := tags[i];
      if sectionOf[tag] >= |sections| {
        return false, map[];
      }
      ReversesNext(names, sectionOf, tags, sections, i, reverse);
      var section, name := sections[sectionOf[tag]], names[tag];
      var inner := if section in reverse then reverse[section] else map[];
      reverse := reverse[section := inner[name := tag]];
      i := i + 1;
    }
    assert tags[..i] == tags;
    ReversesMeans(names, sectionOf, tags, sections, reverse);
    ok := true;
  }

  class VendorTagDescriptor {
    var count: nat
    var names: map<nat, string>
    var kinds: map<nat, nat>
    var sectionOf: map<nat, nat>
    var sections: seq<string>
    var reverse: map<string, map<string, nat>>

    ghost function View(): Descriptor
      reads this
    {
      Descriptor(count, names, kinds, sectionOf, sections, reverse)
    }

    constructor ()
      ensures View() == Descriptor(0, map[], map[], map[], [], map[])
    {
      count, names, kinds, sectionOf, sections, reverse := 0, map[], map[], map[], [], map[];
    }

    method CreateDescriptorFromOps(info: map<nat, Info>, tags: seq<nat>) returns (status: Option<Status>)
      modifies this
      ensures status == (if AllGood(info, tags) then None else Some(BadValue))
      ensures status.None? ==> CreateFromOps(info, tags) == Ok(View())
      ensures status.Some? ==> View() == old(View())
    {
      var ok, names', kinds', sections' := Collect(info, tags);
      if !ok {
        return Some(BadValue);
      }
      var sectionOf', reverse' := Index(info, tags, sections');
      count, names, kinds, sectionOf, sections, reverse := |tags|, names', kinds', sectionOf', sections', reverse';
      return None;
    }

    method FromParcel(p: seq<Token>) returns (status: Option<Status>)
      modifies this
      ensures match CreateFromParcel(p)
        case Ok(d) => status == None && View() == d
        case Err(e) => status == Some(e) && View() == old(View())
    {
      if p == [] || !p[0].Int? {
        return Some(NotEnoughData);
      }
      var n := p[0].value;
      if n > INT32_MAX {
        return Some(BadValue);
      }
      var read := ReadAll(p[1..], n);
      if read.Err? {
        return Some(read.error);
      }
      var (entries, rest) := read.value;
      var sections': seq<string> := [];
      if n > 0 {
        var texts := ReadSections(rest, Needed(entries));
        if texts.Err? {
          return Some(texts.error);
        }
        sections' := texts.value;
      }
      var names', sectionOf' := Names(entries), SectionOf(entries);
      var ok, reverse' := ReverseAll(names', sectionOf', TagsOf(entries), sections');
      if !ok {
        return Some(OutOfRange);
      }
      count, names, kinds := n, names', Kinds(entries);
      sectionOf, sections, reverse := sectionOf', sections', reverse';
      return None;
    }

    method GetTagCount() returns (n: Option<nat>)
      ensures n == if names == map[] then None else Some(|names|)
    {
      n := if |names| == 0 then None else Some(|names|);
    }

    method GetTagName(tag: nat) returns (name: Option<string>)
      ensures name == if tag in names then Some(names[tag]) else None
    {
      name := if tag in names then Some(names[tag]) else None;
    }

    method GetTagType(tag: nat) returns (kind: Option<nat>)
      requires Writable(View())
      ensures kind == if tag in names then Some(kinds[tag]) else None
    {
      kind := if tag in names then Some(kinds[tag]) else None;
    }

    method GetSectionName(tag: nat) returns (section: Option<string>)
      requires tag in sectionOf ==> sectionOf[tag] < |sections|
      ensures section == if tag in sectionOf then Some(sections[sectionOf[tag]]) else None
    {
      section := if tag in sectionOf then Some(sections[sectionOf[tag]]) else None;
    }

    method Lookup(name: string, section: string) returns (r: Result<nat>)
      ensures r == LookupTag(View(), name, section)
    {
      if section !in reverse {
        return Err(BadValue);
      }
      if name !in reverse[section] {
        return Err(BadValue);
      }
      return Ok(reverse[section][name]);
    }

    // writeToParcel.
    method WriteToParcel() returns (p: seq<Token>)
      requires Writable(View())
      ensures p == Write(View())
    {
      AscendingAll(names.Keys);
      var entries := WriteEntries(Descriptor(count, names, kinds, sectionOf, sections, reverse));
      var tail := Tail(sections);
      p := [Int(count)] + (entries + tail);
    }
  }

  // The tags are written in ascending order.
  method WriteEntries(d: Descriptor) returns (p: seq<Token>)
    requires Writable(d) && forall i :: 0 <= i < |Ascending(d.names.Keys)| ==> Ascending(d.names.Keys)[i] in d.names
    ensures p == EntriesTokens(EntriesOf(d, Ascending(d.names.Keys)))
  {
    ghost var ks := Ascending(d.names.Keys);
    ghost var entries := EntriesOf(d, ks);
    p := [];
    var rest, i := d.names.Keys, 0;
    while rest != {}
      invariant rest <= d.names.Keys && i <= |ks| && Ascending(rest) == ks[i..]
      invariant p + EntriesTokens(entries[i..]) == EntriesTokens(entries)
      decreases rest
    {
      var tag := Smallest(rest);
      AscendingHead(rest, tag);
      Drops(ks, i, entries);
      WriteStep(p, entries, i);
      p := p + [Int(tag), Int(d.kinds[tag]), Str(d.names[tag]), Int(d.sectionOf[tag])];
      rest, i := rest - {tag}, i + 1;
    }
    assert i == |entries|;
    assert entries[i..] == [];
    assert p + [] == p;
  }

  lemma Drops(ks: seq<nat>, i: nat, entries: seq<Entry>)
    requires i < |ks| == |entries|
    ensures ks[i..] != [] && ks[i..][0] == ks[i] && ks[i..][1..] == ks[i + 1..]
  {}

  lemma WriteStep(p: seq<Token>, entries: seq<Entry>, i: nat)
    requires i < |entries|
    ensures p + EntriesTokens(entries[i..]) == p + EntryTokens(entries[i]) + EntriesTokens(entries[i + 1..])
  {
    assert entries[i..][1..] == entries[i + 1..];
  }

  lemma AscendingHead(keys: set<nat>, m: nat)
    requires m in keys && forall k :: k in keys ==> m <= k
    ensures Ascending(keys) != [] && Ascending(keys)[0] == m && Ascending(keys - {m}) == Ascending(keys)[1..]
  {
    assert Least(keys) == m;
  }

  method Smallest(keys: set<nat>) returns (m: nat)
    requires keys != {}
    ensures m in keys && forall k :: k in keys ==> m <= k
  {
    m :| m in keys;
    var rest := keys - {m};
    while rest != {}
      invariant m in keys && rest <= keys && forall k :: k in keys ==> k in rest || m <= k
      decreases rest
    {
      var k :| k in rest;
      if k < m {
        m := k;
      }
      rest := rest - {k};
    }
  }
}
