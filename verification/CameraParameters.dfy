// libmocha/camera/CameraParameters2.cpp and CameraParameters2.h: ordered parameters,
// their text form and the order in which they were set.  A C string is a sequence
// without the terminating null.

module ParameterText {
  datatype Pair = Pair(key: string, value: string)

  // strchr from a position: where the character is next, or the length.
  function Find(s: string, c: char, from: nat): (i: nat)
    requires from <= |s|
    ensures from <= i <= |s|
    ensures i < |s| ==> s[i] == c
    ensures forall j :: from <= j < i ==> s[j] != c
    decreases |s| - from
  {
    if from == |s| || s[from] == c then from else Find(s, c, from + 1)
  }

  function Item(p: Pair): string {
    p.key + ['='] + p.value
  }

  function Flatten(list: seq<Pair>): string {
    if list == [] then ""
    else if |list| == 1 then Item(list[0])
    else Item(list[0]) + [';'] + Flatten(list[1..])
  }

  // One turn of unflatten(): no key is left, a last item, or an item and the text after it.
  datatype Cut = NoKey | Last(p: Pair) | More(p: Pair, rest: string)

  // The spare levels keep it folded; CutMeans unfolds it.
  function CutAt(level: nat, s: string): (c: Cut)
    ensures c.More? ==> |c.rest| < |s|
  {
    if level > 0 then CutAt(level - 1, s) else
      var eq := Find(s, '=', 0);
      if eq == |s| then NoKey else
        var rest := s[eq + 1..];
        var semi := Find(rest, ';', 0);
        if semi == |rest| then Last(Pair(s[..eq], rest)) else More(Pair(s[..eq], rest[..semi]), rest[semi + 1..])
  }

  function Unflatten(s: string): seq<Pair>
    decreases |s|
  {
    match CutAt(2, s)
    case NoKey => []
    case Last(p) => [p]
    case More(p, rest) => [p] + Unflatten(rest)
  }

  lemma CutMeans(s: string)
    ensures CutAt(2, s) == var eq := Find(s, '=', 0);
      if eq == |s| then NoKey else
        var rest := s[eq + 1..];
        var semi := Find(rest, ';', 0);
        if semi == |rest| then Last(Pair(s[..eq], rest)) else More(Pair(s[..eq], rest[..semi]), rest[semi + 1..])
  {
    assert CutAt(2, s) == CutAt(1, s) == CutAt(0, s);
  }

  predicate Without(s: string, c: char) {
    forall j :: 0 <= j < |s| ==> s[j] != c
  }

  // Keys without '=' and values without ';'.
  predicate CleanPair(p: Pair) {
    Without(p.key, '=') && Without(p.value, ';')
  }

  predicate Clean(list: seq<Pair>) {
    forall i :: 0 <= i < |list| ==> CleanPair(list[i])
  }

  // The text is the items with ';' between them, each a key, '=' and the value.
  lemma {:induction false} FlattenJoins(a: seq<Pair>, b: seq<Pair>)
    requires a != [] && b != []
    ensures Flatten(a + b) == Flatten(a) + ";" + Flatten(b)
    ensures |a| == 1 ==> Flatten(a) == a[0].key + "=" + a[0].value
  {
    if |a| > 1 {
      FlattenJoins(a[1..], b);
      assert (a + b)[1..] == a[1..] + b;
    } else {
      assert (a + b)[1..] == b;
    }
  }

  lemma SplitAt(a: string, c: char, b: string)
    requires Without(a, c)
    ensures var s := a + [c] + b; Find(s, c, 0) == |a| && s[..|a|] == a && s[|a| + 1..] == b
  {
    var s := a + [c] + b;
    assert s[|a|] == c;
    assert forall j :: 0 <= j < |a| ==> s[j] == a[j];
  }

  lemma NoSplit(a: string, c: char)
    requires Without(a, c)
    ensures Find(a, c, 0) == |a|
  {}

  lemma UnflattenMore(s: string, eq: nat, rest: string, semi: nat)
    requires eq < |s| && eq == Find(s, '=', 0) && rest == s[eq + 1..] && semi < |rest| && semi == Find(rest, ';', 0)
    ensures Unflatten(s) == [Pair(s[..eq], rest[..semi])] + Unflatten(rest[semi + 1..])
  {
    CutMeans(s);
  }

  lemma Associate(k: string, v: string, rest: string)
    ensures k + ['='] + v + [';'] + rest == k + ['='] + (v + [';'] + rest)
  {}

  // Printing one parameter before the text of the rest and parsing it again.
  lemma ParseItem(p: Pair, rest: string)
    requires CleanPair(p)
    ensures Unflatten(Item(p) + [';'] + rest) == [p] + Unflatten(rest)
  {
    var tail := p.value + [';'] + rest;
    var s := p.key + ['='] + tail;
    Associate(p.key, p.value, rest);
    SplitAt(p.key, '=', tail);
    SplitAt(p.value, ';', rest);
    UnflattenMore(s, |p.key|, tail, |p.value|);
  }

  lemma ParseLast(p: Pair)
    requires CleanPair(p)
    ensures Unflatten(Item(p)) == [p]
  {
    SplitAt(p.key, '=', p.value);
    NoSplit(p.value, ';');
    CutMeans(Item(p));
  }

  lemma {:induction false} RoundTrip(list: seq<Pair>)
    requires Clean(list)
    ensures Unflatten(Flatten(list)) == list
  {
    if list == [] {
      CutMeans("");
    } else if |list| == 1 {
      ParseLast(list[0]);
    } else if |list| > 1 {
      RoundTrip(list[1..]);
      ParseItem(list[0], Flatten(list[1..]));
    }
  }

  lemma CleanCons(p: Pair, rest: seq<Pair>)
    requires CleanPair(p) && Clean(rest)
    ensures Clean([p] + rest)
  {}

  lemma {:induction false} UnflattenClean(s: string)
    ensures Clean(Unflatten(s))
    decreases |s|
  {
    var eq := Find(s, '=', 0);
    CutMeans(s);
    if eq < |s| {
      var rest := s[eq + 1..];
      var semi := Find(rest, ';', 0);
      var p := Pair(s[..eq], rest[..semi]);
      assert CleanPair(p);
      if semi < |rest| {
        UnflattenMore(s, eq, rest, semi);
        UnflattenClean(rest[semi + 1..]);
        CleanCons(p, Unflatten(rest[semi + 1..]));
      } else {
        assert rest[..semi] == rest;
      }
    }
  }

  // The text form loses nothing exactly when keys have no '=' and values no ';'.
  lemma RoundTripExact(list: seq<Pair>)
    ensures Unflatten(Flatten(list)) == list <==> Clean(list)
  {
    if Clean(list) {
      RoundTrip(list);
    }
    UnflattenClean(Flatten(list));
  }

  // On every string: parsing what was printed changes nothing more.
  lemma Normalizes(s: string)
    ensures Unflatten(Flatten(Unflatten(s))) == Unflatten(s)
    ensures Flatten(Unflatten(Flatten(Unflatten(s)))) == Flatten(Unflatten(s))
  {
    UnflattenClean(s);
    RoundTrip(Unflatten(s));
  }
}

// Setting and removing, and what the order of the list then means.
module ParameterOrder {
  import opened ParameterText

  // The first place of a key, or the length.
  function IndexOf(list: seq<Pair>, key: string, from: nat): (i: nat)
    requires from <= |list|
    ensures from <= i <= |list|
    ensures i < |list| ==> list[i].key == key
    ensures forall j :: from <= j < i ==> list[j].key != key
    decreases |list| - from
  {
    if from == |list| || list[from].key == key then from else IndexOf(list, key, from + 1)
  }

  function RemoveItem(list: seq<Pair>, key: string): seq<Pair> {
    var i := IndexOf(list, key, 0);
    if i == |list| then list else list[..i] + list[i + 1..]
  }

  predicate Accepted(key: string, value: string) {
    Without(key, '=') && Without(key, ';') && Without(value, '=') && Without(value, ';')
  }

  function SetItem(list: seq<Pair>, key: string, value: string): seq<Pair> {
    if Accepted(key, value) then RemoveItem(list, key) + [Pair(key, value)] else list
  }

  datatype Op = Set(key: string, value: string) | Remove(key: string)

  function Run(ops: seq<Op>): seq<Pair> {
    if ops == [] then [] else
      var before, op := Run(ops[..|ops| - 1]), ops[|ops| - 1];
      match op
      case Set(key, value) => SetItem(before, key, value)
      case Remove(key) => RemoveItem(before, key)
  }

  // Neither of the two separators occurs in either.
  predicate Allowed(key: string, value: string) {
    forall c :: c in key || c in value ==> c != '=' && c != ';'
  }

  // set() refuses exactly what the text form could not carry.
  lemma AcceptedExact(key: string, value: string)
    ensures Accepted(key, value) <==> Allowed(key, value)
  {
    if Allowed(key, value) {
      assert forall j :: 0 <= j < |key| ==> key[j] in key;
      assert forall j :: 0 <= j < |value| ==> value[j] in value;
    }
  }

  // When a key was last set and not removed since: the number of operations up to then,
  // or 0 when it is not set.
  function LastSet(ops: seq<Op>, key: string): nat {
    if ops == [] then 0 else
      var before, op := LastSet(ops[..|ops| - 1], key), ops[|ops| - 1];
      match op
      case Set(k, value) => if k == key && Allowed(k, value) then |ops| else before
      case Remove(k) => if k == key then 0 else before
  }

  lemma {:induction false} LastSetBound(ops: seq<Op>, key: string)
    ensures LastSet(ops, key) <= |ops|
    ensures LastSet(ops, key) > 0 ==> ops[LastSet(ops, key) - 1].Set? && ops[LastSet(ops, key) - 1].key == key
  {
    if ops != [] {
      LastSetBound(ops[..|ops| - 1], key);
    }
  }

  // The list in the order of last setting, each entry with the value set then.
  ghost predicate InOrder(list: seq<Pair>, ops: seq<Op>) {
    && (forall i :: 0 <= i < |list| ==> SetBy(list[i], ops))
    && (forall i, j :: 0 <= i < j < |list| ==> LastSet(ops, list[i].key) < LastSet(ops, list[j].key))
    && (forall key :: LastSet(ops, key) > 0 ==> IndexOf(list, key, 0) < |list|)
  }

  ghost predicate SetBy(p: Pair, ops: seq<Op>) {
    var at := LastSet(ops, p.key);
    0 < at <= |ops| && ops[at - 1] == Set(p.key, p.value) && Allowed(p.key, p.value)
  }

  lemma Uniqueness(list: seq<Pair>, ops: seq<Op>, key: string)
    requires InOrder(list, ops)
    ensures var i := IndexOf(list, key, 0);
      (i < |list| <==> LastSet(ops, key) > 0) && forall j :: i < j < |list| ==> list[j].key != key
  {
    var i := IndexOf(list, key, 0);
    if i < |list| {
      assert SetBy(list[i], ops);
    }
  }

  // After a removal the key is gone and the others keep their order.
  lemma RemoveKeeps(list: seq<Pair>, ops: seq<Op>, key: string)
    requires InOrder(list, ops)
    ensures var rest := RemoveItem(list, key);
      && (forall i :: 0 <= i < |rest| ==> rest[i].key != key && SetBy(rest[i], ops))
      && (forall i, j :: 0 <= i < j < |rest| ==> LastSet(ops, rest[i].key) < LastSet(ops, rest[j].key))
  {
    Uniqueness(list, ops, key);
  }

  ghost predicate Holds(list: seq<Pair>, key: string) {
    exists i :: 0 <= i < |list| && list[i].key == key
  }

  lemma RemoveHolds(list: seq<Pair>, key: string, k: string)
    requires k != key && Holds(list, k)
    ensures Holds(RemoveItem(list, key), k)
  {
    var i :| 0 <= i < |list| && list[i].key == k;
    var at, rest := IndexOf(list, key, 0), RemoveItem(list, key);
    if at < |list| {
      assert rest[if i < at then i else i - 1] == list[i];
    }
  }

  lemma {:induction false} IndexOfHolds(list: seq<Pair>, key: string)
    ensures Holds(list, key) <==> IndexOf(list, key, 0) < |list|
  {}

  // An operation on another key, or a refused one, leaves what was set before it.
  lemma LastSetOther(ops: seq<Op>, op: Op, key: string)
    requires op.key != key || (op.Set? && !Allowed(op.key, op.value))
    ensures LastSet(ops + [op], key) == LastSet(ops, key)
  {
    assert (ops + [op])[..|ops|] == ops;
  }

  lemma SetByOther(p: Pair, ops: seq<Op>, op: Op)
    requires SetBy(p, ops) && (op.key != p.key || (op.Set? && !Allowed(op.key, op.value)))
    ensures SetBy(p, ops + [op])
  {
    LastSetOther(ops, op, p.key);
  }

  lemma OthersInOrder(list: seq<Pair>, ops: seq<Op>, op: Op)
    requires InOrder(list, ops)
    requires op.Remove? || Allowed(op.key, op.value)
    ensures var rest, ops' := RemoveItem(list, op.key), ops + [op];
      && (forall i :: 0 <= i < |rest| ==> rest[i].key != op.key && SetBy(rest[i], ops'))
      && (forall i, j :: 0 <= i < j < |rest| ==> LastSet(ops', rest[i].key) < LastSet(ops', rest[j].key))
  {
    var rest, ops' := RemoveItem(list, op.key), ops + [op];
    RemoveKeeps(list, ops, op.key);
    forall i | 0 <= i < |rest| ensures SetBy(rest[i], ops') && LastSet(ops', rest[i].key) == LastSet(ops, rest[i].key) {
      SetByOther(rest[i], ops, op);
      LastSetOther(ops, op, rest[i].key);
    }
  }

  lemma OthersHeld(list: seq<Pair>, ops: seq<Op>, op: Op, key: string)
    requires InOrder(list, ops) && key != op.key && LastSet(ops + [op], key) > 0
    ensures Holds(RemoveItem(list, op.key), key)
  {
    LastSetOther(ops, op, key);
    IndexOfHolds(list, key);
    RemoveHolds(list, op.key, key);
  }

  lemma RemoveInOrder(list: seq<Pair>, ops: seq<Op>, op: Op)
    requires InOrder(list, ops) && op.Remove?
    ensures InOrder(RemoveItem(list, op.key), ops + [op])
  {
    var rest, ops' := RemoveItem(list, op.key), ops + [op];
    OthersInOrder(list, ops, op);
    assert ops'[..|ops|] == ops;
    forall key | LastSet(ops', key) > 0 ensures IndexOf(rest, key, 0) < |rest| {
      OthersHeld(list, ops, op, key);
      IndexOfHolds(rest, key);
    }
  }

  lemma SetInOrder(list: seq<Pair>, ops: seq<Op>, op: Op)
    requires InOrder(list, ops) && op.Set? && Allowed(op.key, op.value)
    ensures InOrder(SetItem(list, op.key, op.value), ops + [op])
  {
    var rest, ops', p := RemoveItem(list, op.key), ops + [op], Pair(op.key, op.value);
    var list' := rest + [p];
    AcceptedExact(op.key, op.value);
    OthersInOrder(list, ops, op);
    assert ops'[..|ops|] == ops;
    assert SetBy(p, ops');
    forall i | 0 <= i < |rest| ensures LastSet(ops', rest[i].key) < |ops'| {
      LastSetOther(ops, op, rest[i].key);
      LastSetBound(ops, rest[i].key);
    }
    forall key | LastSet(ops', key) > 0 ensures IndexOf(list', key, 0) < |list'| {
      SetHolds(list, ops, op, key);
      IndexOfHolds(list', key);
    }
  }

  lemma SetHolds(list: seq<Pair>, ops: seq<Op>, op: Op, key: string)
    requires InOrder(list, ops) && op.Set? && LastSet(ops + [op], key) > 0
    ensures Holds(RemoveItem(list, op.key) + [Pair(op.key, op.value)], key)
  {
    var rest := RemoveItem(list, op.key);
    var list' := rest + [Pair(op.key, op.value)];
    if key == op.key {
      assert list'[|rest|].key == key;
    } else {
      OthersHeld(list, ops, op, key);
      var i :| 0 <= i < |rest| && rest[i].key == key;
      assert list'[i].key == key;
    }
  }

  lemma RefusedInOrder(list: seq<Pair>, ops: seq<Op>, op: Op)
    requires InOrder(list, ops) && op.Set? && !Allowed(op.key, op.value)
    ensures InOrder(list, ops + [op])
  {
    forall key ensures LastSet(ops + [op], key) == LastSet(ops, key) {
      LastSetOther(ops, op, key);
    }
    forall i | 0 <= i < |list| ensures SetBy(list[i], ops + [op]) {
      SetByOther(list[i], ops, op);
    }
  }

  // From empty, after any sets and removals: the list holds exactly the keys that are
  // set, once each, with their last values, in the order of last setting.
  lemma {:induction false} RunInOrder(ops: seq<Op>)
    ensures InOrder(Run(ops), ops)
  {
    if ops != [] {
      var before, op := ops[..|ops| - 1], ops[|ops| - 1];
      RunInOrder(before);
      assert ops == before + [op];
      if op.Remove? {
        RemoveInOrder(Run(before), before, op);
      } else if Allowed(op.key, op.value) {
        AcceptedExact(op.key, op.value);
        SetInOrder(Run(before), before, op);
      } else {
        AcceptedExact(op.key, op.value);
        RefusedInOrder(Run(before), before, op);
      }
    }
  }

  const NAME_NOT_FOUND := -2
  const OK := 0

  function CompareSetOrder(list: seq<Pair>, key1: string, key2: string): (int, int) {
    var i, j := IndexOf(list, key1, 0), IndexOf(list, key2, 0);
    if i == |list| || j == |list| then (NAME_NOT_FOUND, 0)
    else (OK, if i == j then 0 else if i < j then -1 else 1)
  }

  function Sign(x: int): int {
    if x == 0 then 0 else if x < 0 then -1 else 1
  }

  // compareSetOrder reports which key was set last.
  lemma OrderReported(ops: seq<Op>, key1: string, key2: string)
    ensures var (code, order) := CompareSetOrder(Run(ops), key1, key2);
      && (code == OK <==> LastSet(ops, key1) > 0 && LastSet(ops, key2) > 0)
      && (code == OK ==> order == Sign(LastSet(ops, key1) - LastSet(ops, key2)))
  {
    RunInOrder(ops);
    Uniqueness(Run(ops), ops, key1);
    Uniqueness(Run(ops), ops, key2);
  }

  // The text form carries everything that was set, in order.
  lemma RunRoundTrip(ops: seq<Op>)
    ensures Unflatten(Flatten(Run(ops))) == Run(ops)
  {
    RunInOrder(ops);
    var list := Run(ops);
    forall i | 0 <= i < |list| ensures CleanPair(list[i]) {
      assert SetBy(list[i], ops);
      AcceptedExact(list[i].key, list[i].value);
    }
    RoundTrip(list);
  }
}

module CameraParameters2 {
  import opened ParameterText
  import opened ParameterOrder

  class OrderedKeyedVector {
    var list: seq<Pair>

    constructor ()
      ensures list == []
    {
      list := [];
    }

    method Add(key: string, value: string)
      modifies this
      ensures list == old(list) + [Pair(key, value)]
    {
      list := list + [Pair(key, value)];
    }

    method IndexOfKey(key: string) returns (i: int)
      ensures i == if IndexOf(list, key, 0) < |list| then IndexOf(list, key, 0) else NAME_NOT_FOUND
    {
      i := 0;
      while i < |list|
        invariant 0 <= i <= |list| && IndexOf(list, key, i) == IndexOf(list, key, 0)
      {
        if list[i].key == key { return; }
        i := i + 1;
      }
      return NAME_NOT_FOUND;
    }

    // The index of a missing key is out of range, which leaves the list alone.
    method RemoveKey(key: string)
      modifies this
      ensures list == RemoveItem(old(list), key)
    {
      var i := IndexOfKey(key);
      if 0 <= i < |list| {
        list := list[..i] + list[i + 1..];
      }
    }

    method ReplaceValueFor(key: string, value: string)
      modifies this
      ensures list == RemoveItem(old(list), key) + [Pair(key, value)]
    {
      RemoveKey(key);
      Add(key, value);
    }
  }

  datatype ParsedItem = Nothing | Found(more: bool)

  class Parameters {
    const items: OrderedKeyedVector

    constructor ()
      ensures fresh(items) && items.list == []
    {
      items := new OrderedKeyedVector();
    }

    method FlattenAll() returns (flattened: string)
      ensures flattened == Flatten(items.list)
    {
      flattened := "";
      var size, i := |items.list|, 0;
      while i < size
        invariant i <= size && flattened + Flatten(items.list[i..]) == Flatten(items.list)
      {
        var p := items.list[i];
        ghost var before, rest := flattened, items.list[i..];
        flattened := flattened + p.key;
        flattened := flattened + ['='];
        flattened := flattened + p.value;
        if i != size - 1 {
          flattened := flattened + [';'];
        }
        Appended(before, p, Flatten(rest[1..]));
        assert rest[1..] == items.list[i + 1..];
        i := i + 1;
      }
      assert flattened + "" == flattened;
    }

    method UnflattenAll(params: string)
      modifies items
      ensures items.list == Unflatten(params)
    {
      items.list := [];
      var a, more := params, true;
      while more
        invariant items.list + (if more then Unflatten(a) else []) == Unflatten(params)
        decreases more, |a|
      {
        var found, p, rest := ParseOne(a);
        Shift(items.list, p, if found == Found(true) then Unflatten(rest) else []);
        if found.Found? {
          items.Add(p.key, p.value);
        }
        more := found == Found(true);
        a := rest;
      }
    }

    // One turn of the parser's loop: the next parameter and, when a semicolon ended it,
    // the text after it.
    method ParseOne(a: string) returns (found: ParsedItem, p: Pair, rest: string)
      ensures found == Nothing ==> Unflatten(a) == [] && rest == ""
      ensures found == Found(false) ==> Unflatten(a) == [p] && rest == ""
      ensures found == Found(true) ==> Unflatten(a) == [p] + Unflatten(rest) && |rest| < |a|
    {
      var b := StrChr(a, '=');
      CutMeans(a);
      if b == |a| {
        return Nothing, Pair("", ""), "";
      }
      rest := a[b + 1..];
      var e := StrChr(rest, ';');
      if e == |rest| {
        return Found(false), Pair(a[..b], rest), "";
      }
      UnflattenMore(a, b, rest, e);
      p, rest := Pair(a[..b], rest[..e]), rest[e + 1..];
      found := Found(true);
    }

    method Set(key: string, value: string)
      modifies items
      ensures items.list == SetItem(old(items.list), key, value)
    {
      var invalid := StrChr(key, '=');
      var bad := invalid < |key|;
      invalid := StrChr(key, ';');
      if bad || invalid < |key| { return; }
      invalid := StrChr(value, '=');
      bad := invalid < |value|;
      invalid := StrChr(value, ';');
      if bad || invalid < |value| { return; }
      items.ReplaceValueFor(key, value);
    }

    method Remove(key: string)
      modifies items
      ensures items.list == RemoveItem(old(items.list), key)
    {
      items.RemoveKey(key);
    }

    method CompareOrder(key1: string, key2: string) returns (code: int, order: int)
      ensures (code, order) == CompareSetOrder(items.list, key1, key2)
    {
      var i := items.IndexOfKey(key1);
      var j := items.IndexOfKey(key2);
      if i < 0 || j < 0 {
        return NAME_NOT_FOUND, 0;
      }
      return OK, if i == j then 0 else if i < j then -1 else 1;
    }
  }

  lemma Shift(list: seq<Pair>, p: Pair, rest: seq<Pair>)
    ensures list + ([p] + rest) == list + [p] + rest
    ensures list + [p] + [] == list + [p]
    ensures list + [] == list
  {}

  lemma Appended(before: string, p: Pair, rest: string)
    ensures before + p.key + ['='] + p.value == before + Item(p)
    ensures before + p.key + ['='] + p.value + [';'] + rest == before + (Item(p) + [';'] + rest)
    ensures before + p.key + ['='] + p.value + "" == before + Item(p)
  {}

  method StrChr(s: string, c: char) returns (i: nat)
    ensures i == Find(s, c, 0) <= |s|
    ensures i == |s| <==> Without(s, c)
  {
    i := 0;
    while i < |s| && s[i] != c
      invariant i <= |s| && Find(s, c, i) == Find(s, c, 0) && Without(s[..i], c)
    {
      i := i + 1;
    }
    assert s[..|s|] == s;
  }
}
