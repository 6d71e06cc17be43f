// audio/audio_hw.c, in_unshorten_read: decoded blocks are handed to readers of any size;
// what does not fit the current read waits in the accumulator.

module Unshorten {
  newtype Byte = x: int | 0 <= x < 256

  // What one turn of the loop meets: a corrupt stream, a decoded block, no more input
  // (or the decoder refusing it), or input that was supplied.
  datatype Status = Corrupt | Output(block: seq<Byte>) | Stop | Again

  // What the decoder hands over in a stretch of turns.
  function Decoded(script: seq<Status>): seq<Byte> {
    if script == [] then [] else (if script[0].Output? then script[0].block else []) + Decoded(script[1..])
  }

  // The outcome of the loop: the bytes for the reader, what is kept, how many bytes did
  // not fit the accumulator, and how many turns were taken.
  datatype Outcome = Outcome(given: seq<Byte>, kept: seq<Byte>, lost: nat, turns: nat)

  function Min(x: nat, y: nat): nat {
    if x <= y then x else y
  }

  function Loop(capacity: nat, count: nat, script: seq<Status>): Outcome {
    if count == 0 || script == [] then Outcome([], [], 0, 0)
    else match script[0]
      case Corrupt => Outcome([], [], 0, 1)
      case Stop => Outcome([], [], 0, 1)
      case Again =>
        var rest := Loop(capacity, count, script[1..]);
        rest.(turns := rest.turns + 1)
      case Output(block) =>
        if |block| <= count then
          var rest := Loop(capacity, count - |block|, script[1..]);
          rest.(given := block + rest.given, turns := rest.turns + 1)
        else
          var over := |block| - count;
          Outcome(block[..count], block[count..count + Min(over, capacity)], over - Min(over, capacity), 1)
  }

  // One read: the accumulator first.
  function Read(capacity: nat, accumulator: seq<Byte>, bytes: nat, script: seq<Status>): Outcome {
    var n := Min(|accumulator|, bytes);
    if n < |accumulator| then Outcome(accumulator[..n], accumulator[n..], 0, 0) else
      var rest := Loop(capacity, bytes - n, script);
      rest.(given := accumulator + rest.given)
  }

  lemma {:induction false} LoopBounds(capacity: nat, count: nat, script: seq<Status>)
    ensures var o := Loop(capacity, count, script);
      o.turns <= |script| && |o.given| <= count && |o.kept| <= capacity && (o.kept != [] ==> |o.given| == count)
  {
    if count > 0 && script != [] {
      match script[0]
      case Again => LoopBounds(capacity, count, script[1..]);
      case Output(block) =>
        if |block| <= count {
          LoopBounds(capacity, count - |block|, script[1..]);
        }
      case _ =>
    }
  }

  lemma {:induction false} LoopCounts(capacity: nat, count: nat, script: seq<Status>)
    ensures var o := Loop(capacity, count, script);
      o.turns <= |script| && |Decoded(script[..o.turns])| == |o.given| + |o.kept| + o.lost
  {
    var o := Loop(capacity, count, script);
    LoopBounds(capacity, count, script);
    if count > 0 && script != [] {
      DecodedCons(script, o.turns);
      match script[0]
      case Again => LoopCounts(capacity, count, script[1..]);
      case Output(block) =>
        if |block| <= count {
          LoopCounts(capacity, count - |block|, script[1..]);
        } else {
          assert script[1..][..0] == [];
        }
      case _ =>
        assert script[1..][..0] == [];
    }
  }

  // What was decoded is given, kept or lost.
  lemma LoopConserves(capacity: nat, count: nat, script: seq<Status>)
    ensures var o := Loop(capacity, count, script);
      && o.turns <= |script|
      && |Decoded(script[..o.turns])| == |o.given| + |o.kept| + o.lost
      && (o.lost == 0 ==> Decoded(script[..o.turns]) == o.given + o.kept)
  {
    LoopCounts(capacity, count, script);
    LoopPrefix(capacity, count, script);
  }

  // The loop goes on until the read is full or the input ends, and no longer.
  predicate Goes(status: Status) {
    status.Output? || status.Again?
  }

  ghost predicate AsFarAs(count: nat, script: seq<Status>, o: Outcome) {
    && o.turns <= |script| && (forall j :: 0 <= j < o.turns - 1 ==> Goes(script[j]))
    && (o.turns > 0 ==> |Decoded(script[..o.turns - 1])| < count)
    && (|o.given| < count ==> o.turns == |script| || (o.turns > 0 && !Goes(script[o.turns - 1])))
  }

  lemma {:induction false} LoopWhole(capacity: nat, count: nat, script: seq<Status>)
    ensures AsFarAs(count, script, Loop(capacity, count, script))
  {
    var o := Loop(capacity, count, script);
    if count > 0 && script != [] {
      assert script[..0] == [];
      var n := if script[0].Output? then |script[0].block| else 0;
      if Goes(script[0]) && n <= count {
        LoopWhole(capacity, count - n, script[1..]);
        var rest := Loop(capacity, count - n, script[1..]);
        assert forall j :: 0 < j < |script| ==> script[j] == script[1..][j - 1];
        if o.turns > 1 {
          DecodedCons(script, o.turns - 1);
        }
      }
    }
  }

  // A read returns less than was asked for only at the end of the input, and decodes
  // nothing while the accumulator suffices.
  lemma ReadWhole(capacity: nat, accumulator: seq<Byte>, bytes: nat, script: seq<Status>)
    ensures var o := Read(capacity, accumulator, bytes, script);
      && (|accumulator| > bytes ==> o.turns == 0 && o.given == accumulator[..bytes] && o.kept == accumulator[bytes..])
      && (|accumulator| <= bytes ==> accumulator <= o.given)
      && (|accumulator| <= bytes ==>
        AsFarAs(bytes - |accumulator|, script, o.(given := o.given[|accumulator|..])))
  {
    if |accumulator| <= bytes {
      LoopWhole(capacity, bytes - |accumulator|, script);
      var rest := Loop(capacity, bytes - |accumulator|, script);
      assert (accumulator + rest.given)[|accumulator|..] == rest.given;
    }
  }

  lemma PrefixMore(block: seq<Byte>, given: seq<Byte>, kept: seq<Byte>, all: seq<Byte>)
    requires given + kept <= all
    ensures block + given + kept <= block + all
  {
    assert block + given + kept == block + (given + kept);
    assert (block + all)[..|block| + |given + kept|] == block + all[..|given + kept|];
  }

  lemma HeadOf(block: seq<Byte>, count: nat, end: nat)
    requires count <= end <= |block|
    ensures block[..count] + block[count..end] <= block + []
  {
    assert block[..count] + block[count..end] == block[..end] && block + [] == block;
  }

  // Bytes are lost only when the accumulator is full, and those that come after what it
  // keeps.
  lemma {:induction false} LoopPrefix(capacity: nat, count: nat, script: seq<Status>)
    ensures var o := Loop(capacity, count, script);
      o.turns <= |script| && o.given + o.kept <= Decoded(script[..o.turns]) && (o.lost > 0 ==> |o.kept| == capacity)
  {
    var o := Loop(capacity, count, script);
    LoopBounds(capacity, count, script);
    if count > 0 && script != [] {
      DecodedCons(script, o.turns);
      match script[0]
      case Again => LoopPrefix(capacity, count, script[1..]);
      case Output(block) =>
        if |block| <= count {
          LoopPrefix(capacity, count - |block|, script[1..]);
          var rest := Loop(capacity, count - |block|, script[1..]);
          PrefixMore(block, rest.given, rest.kept, Decoded(script[1..][..rest.turns]));
        } else {
          assert script[1..][..0] == [];
          HeadOf(block, count, count + Min(|block| - count, capacity));
        }
      case _ =>
        assert script[1..][..0] == [];
    }
  }

  lemma DecodedCons(script: seq<Status>, turns: nat)
    requires 0 < turns <= |script|
    ensures Decoded(script[..turns])
      == (if script[0].Output? then script[0].block else []) + Decoded(script[1..][..turns - 1])
  {
    assert script[..turns][1..] == script[1..][..turns - 1];
  }

  lemma ReadConserves(capacity: nat, accumulator: seq<Byte>, bytes: nat, script: seq<Status>)
    ensures var o := Read(capacity, accumulator, bytes, script);
      && o.turns <= |script| && |o.given| <= bytes
      && |accumulator| + |Decoded(script[..o.turns])| == |o.given| + |o.kept| + o.lost
      && (o.lost == 0 ==> accumulator + Decoded(script[..o.turns]) == o.given + o.kept)
  {
    var n := Min(|accumulator|, bytes);
    if n == |accumulator| {
      LoopConserves(capacity, bytes - n, script);
      LoopBounds(capacity, bytes - n, script);
    } else {
      assert script[..0] == [];
      assert accumulator == accumulator[..n] + accumulator[n..];
    }
  }

  // Runs ------------------------------------------------------------------------------

  datatype Request = Request(bytes: nat, script: seq<Status>)

  datatype State = State(accumulator: seq<Byte>, given: seq<Byte>, decoded: seq<Byte>, lost: nat)

  function Step(capacity: nat, s: State, r: Request): State {
    var o := Read(capacity, s.accumulator, r.bytes, r.script);
    ReadConserves(capacity, s.accumulator, r.bytes, r.script);
    State(o.kept, s.given + o.given, s.decoded + Decoded(r.script[..o.turns]), s.lost + o.lost)
  }

  function Run(capacity: nat, requests: seq<Request>): State {
    if requests == [] then State([], [], [], 0)
    else Step(capacity, Run(capacity, requests[..|requests| - 1]), requests[|requests| - 1])
  }

  lemma Regroup(given: seq<Byte>, accumulator: seq<Byte>, decoded: seq<Byte>, more: seq<Byte>, kept: seq<Byte>)
    requires accumulator + decoded == more + kept
    ensures given + accumulator + decoded == given + more + kept
  {
    assert given + accumulator + decoded == given + (accumulator + decoded);
    assert given + more + kept == given + (more + kept);
  }

  // Turn i is reached, by a loop that has `count` bytes to read, with some still to read.
  predicate Met(count: nat, script: seq<Status>, i: nat) {
    && i < |script| && |Decoded(script[..i])| < count
    && forall j :: 0 <= j < i ==> script[j].Output? || script[j].Again?
  }

  // Of the block met at turn i more is left over than the accumulator takes.
  predicate Excess(capacity: nat, count: nat, script: seq<Status>, i: nat) {
    Met(count, script, i) && script[i].Output? && |script[i].block| > count - |Decoded(script[..i])| + capacity
  }

  predicate Overflows(capacity: nat, count: nat, script: seq<Status>) {
    exists i: nat :: i < |script| && Excess(capacity, count, script, i)
  }

  lemma ExcessLater(capacity: nat, count: nat, script: seq<Status>, i: nat)
    requires 0 < i < |script| && (script[0].Again? || script[0].Output?)
    ensures var n := if script[0].Output? then |script[0].block| else 0;
      Excess(capacity, count, script, i) <==> n < count && Excess(capacity, count - n, script[1..], i - 1)
  {
    DecodedCons(script, i);
    assert script[1..][i - 1] == script[i];
    assert forall j :: 0 < j < i ==> script[1..][j - 1] == script[j];
  }

  lemma {:induction false} LoopLost(capacity: nat, count: nat, script: seq<Status>)
    ensures Loop(capacity, count, script).lost > 0 <==> Overflows(capacity, count, script)
  {
    if count > 0 && script != [] {
      assert script[..0] == [];
      forall i: nat | 0 < i < |script| && (script[0].Again? || script[0].Output?)
        ensures var n := if script[0].Output? then |script[0].block| else 0;
          Excess(capacity, count, script, i) <==> n < count && Excess(capacity, count - n, script[1..], i - 1)
      {
        ExcessLater(capacity, count, script, i);
      }
      var n := if script[0].Output? then |script[0].block| else 0;
      if (script[0].Again? || script[0].Output?) && n <= count {
        LoopLost(capacity, count - n, script[1..]);
        if Overflows(capacity, count - n, script[1..]) {
          var i: nat :| i < |script| - 1 && Excess(capacity, count - n, script[1..], i);
          assert Excess(capacity, count, script, i + 1);
        }
      } else {
        assert script[0].Output? && |script[0].block| > count + capacity ==> Excess(capacity, count, script, 0);
      }
    }
  }

  // What is left to read when a request's loop begins.
  function Left(capacity: nat, requests: seq<Request>, k: nat): nat
    requires k < |requests|
  {
    var held := |Run(capacity, requests[..k]).accumulator|;
    requests[k].bytes - Min(held, requests[k].bytes)
  }

  // Some block is longer than what is left to read and the accumulator together.
  predicate Spills(capacity: nat, requests: seq<Request>, k: nat)
    requires k < |requests|
  {
    Overflows(capacity, Left(capacity, requests, k), requests[k].script)
  }

  lemma SpillsBefore(capacity: nat, requests: seq<Request>, k: nat, n: nat)
    requires k < n <= |requests|
    ensures Spills(capacity, requests[..n], k) <==> Spills(capacity, requests, k)
  {
    assert requests[..n][..k] == requests[..k];
  }

  lemma ReadLost(capacity: nat, requests: seq<Request>)
    requires requests != []
    ensures var last := |requests| - 1;
      Run(capacity, requests).lost == 0 <==>
        Run(capacity, requests[..last]).lost == 0 && !Spills(capacity, requests, last)
  {
    var last := |requests| - 1;
    LoopLost(capacity, Left(capacity, requests, last), requests[last].script);
  }

  // Something is lost exactly when some read spills.
  lemma {:induction false} LostExact(capacity: nat, requests: seq<Request>)
    ensures Run(capacity, requests).lost == 0 <==> forall k: nat :: k < |requests| ==> !Spills(capacity, requests, k)
  {
    if requests != [] {
      var last := |requests| - 1;
      LostExact(capacity, requests[..last]);
      ReadLost(capacity, requests);
      forall k: nat | k < last ensures Spills(capacity, requests[..last], k) <==> Spills(capacity, requests, k) {
        SpillsBefore(capacity, requests, k, last);
      }
    }
  }

  // Over any sequence of read sizes, what was decoded is what was delivered followed by
  // the accumulator exactly when no block overflowed it.
  lemma {:induction false} NothingLostExact(capacity: nat, requests: seq<Request>)
    ensures var s := Run(capacity, requests);
      && |s.decoded| == |s.given| + |s.accumulator| + s.lost
      && (s.decoded == s.given + s.accumulator <==> s.lost == 0)
    ensures Run(capacity, requests).lost == 0 <==> forall k: nat :: k < |requests| ==> !Spills(capacity, requests, k)
  {
    LostExact(capacity, requests);
    if requests != [] {
      var before, r := Run(capacity, requests[..|requests| - 1]), requests[|requests| - 1];
      NothingLostExact(capacity, requests[..|requests| - 1]);
      ReadConserves(capacity, before.accumulator, r.bytes, r.script);
      var o := Read(capacity, before.accumulator, r.bytes, r.script);
      if before.lost == 0 && o.lost == 0 {
        Regroup(before.given, before.accumulator, Decoded(r.script[..o.turns]), o.given, o.kept);
      }
    }
  }

  // A block overflows only when more than the accumulator's capacity is left of it.
  lemma {:induction false} FittingBlocks(capacity: nat, count: nat, script: seq<Status>)
    requires forall i :: 0 <= i < |script| && script[i].Output? ==> |script[i].block| <= capacity
    ensures Loop(capacity, count, script).lost == 0
  {
    if count > 0 && script != [] {
      match script[0]
      case Again => FittingBlocks(capacity, count, script[1..]);
      case Output(block) =>
        if |block| <= count {
          FittingBlocks(capacity, count - |block|, script[1..]);
        }
      case _ =>
    }
  }

  // No block is larger than the accumulator: nothing is ever lost, repeated or reordered.
  lemma {:induction false} NothingLost(capacity: nat, requests: seq<Request>)
    requires forall k, i :: 0 <= k < |requests| && 0 <= i < |requests[k].script| && requests[k].script[i].Output? ==>
      |requests[k].script[i].block| <= capacity
    ensures var s := Run(capacity, requests); s.lost == 0 && s.decoded == s.given + s.accumulator
  {
    if requests != [] {
      var before, r := Run(capacity, requests[..|requests| - 1]), requests[|requests| - 1];
      NothingLost(capacity, requests[..|requests| - 1]);
      FittingBlocks(capacity, r.bytes - Min(|before.accumulator|, r.bytes), r.script);
    }
    NothingLostExact(capacity, requests);
  }

  // Turn by turn ------------------------------------------------------------------------

  predicate Ends(status: Status, count: nat) {
    status.Corrupt? || status.Stop? || (status.Output? && |status.block| > count)
  }

  // The outcome of one turn.
  function One(capacity: nat, count: nat, status: Status): Outcome {
    if !status.Output? then Outcome([], [], 0, 1)
    else if |status.block| <= count then Outcome(status.block, [], 0, 1)
    else
      var over := |status.block| - count;
      Outcome(status.block[..count], status.block[count..count + Min(over, capacity)], over - Min(over, capacity), 1)
  }

  // An outcome made of what was given so far and the outcome of the rest.
  ghost predicate Continues(o: Outcome, sofar: seq<Byte>, turns: nat, rest: Outcome) {
    o.given == sofar + rest.given && o.kept == rest.kept && o.turns == turns + rest.turns
  }

  // The rest of a read; the spare levels keep it folded, RestMeans unfolds it.
  function Rest(over: bool, kept: seq<Byte>, capacity: nat, count: nat, script: seq<Status>): Outcome {
    RestAt(2, over, kept, capacity, count, script)
  }

  function RestAt(level: nat, over: bool, kept: seq<Byte>, capacity: nat, count: nat, script: seq<Status>): Outcome {
    if level > 0 then RestAt(level - 1, over, kept, capacity, count, script)
    else if over then Outcome([], kept, 0, 0) else Loop(capacity, count, script)
  }

  lemma RestMeans(over: bool, kept: seq<Byte>, capacity: nat, count: nat, script: seq<Status>)
    ensures Rest(over, kept, capacity, count, script)
      == if over then Outcome([], kept, 0, 0) else Loop(capacity, count, script)
  {
    assert RestAt(2, over, kept, capacity, count, script) == RestAt(1, over, kept, capacity, count, script)
      == RestAt(0, over, kept, capacity, count, script);
  }

  lemma LoopTurn(kept: seq<Byte>, capacity: nat, count: nat, script: seq<Status>)
    requires count > 0 && script != []
    ensures var one := One(capacity, count, script[0]);
      && |one.given| <= count
      && Continues(Rest(false, kept, capacity, count, script), one.given, 1,
           Rest(Ends(script[0], count) || |one.given| == count, one.kept, capacity, count - |one.given|, script[1..]))
  {
    var one := One(capacity, count, script[0]);
    RestMeans(false, kept, capacity, count, script);
    RestMeans(Ends(script[0], count) || |one.given| == count, one.kept, capacity, count - |one.given|, script[1..]);
    assert [] + Loop(capacity, count, script[1..]).given == Loop(capacity, count, script[1..]).given;
  }

  lemma ContinuesOn(o: Outcome, sofar: seq<Byte>, turns: nat, rest: Outcome, more: seq<Byte>, rest': Outcome)
    requires Continues(o, sofar, turns, rest) && Continues(rest, more, 1, rest')
    ensures Continues(o, sofar + more, turns + 1, rest')
  {}

  lemma RestEnds(o: Outcome, sofar: seq<Byte>, turns: nat, over: bool, kept: seq<Byte>, capacity: nat, count: nat,
      script: seq<Status>)
    requires Continues(o, sofar, turns, Rest(over, kept, capacity, count, script))
    requires over || (script == [] && kept == [])
    ensures o.given == sofar && o.kept == kept && o.turns == turns
  {
    RestMeans(over, kept, capacity, count, script);
    assert sofar + [] == sofar;
  }

  lemma ReadStarts(capacity: nat, accumulator: seq<Byte>, bytes: nat, script: seq<Status>)
    ensures var n := Min(|accumulator|, bytes);
      Continues(Read(capacity, accumulator, bytes, script), accumulator[..n], 0,
          Rest(n == bytes, accumulator[n..], capacity, bytes - n, script))
  {
    var n := Min(|accumulator|, bytes);
    RestMeans(n == bytes, accumulator[n..], capacity, bytes - n, script);
    assert accumulator[..n] + [] == accumulator[..n];
    if n == |accumulator| {
      assert accumulator[..n] == accumulator && accumulator[n..] == [];
    }
  }

  // The stream object ------------------------------------------------------------------

  class Stream {
    const buffer: array<Byte>
    var p: nat
    var avail: nat

    ghost predicate Valid()
      reads this
    {
      p + avail <= buffer.Length
    }

    ghost function Contents(): seq<Byte>
      requires Valid()
      reads this, buffer
    {
      buffer[p..p + avail]
    }

    constructor (size: nat)
      ensures Valid() && fresh(buffer) && buffer.Length == size && Contents() == []
    {
      buffer := new Byte[size](_ => 0);
      p, avail := 0, 0;
    }

    // The accumulator's turn: as much of it as the read takes.
    method Drain(dst: array<Byte>, bytes: nat) returns (n: nat)
      requires Valid() && bytes <= dst.Length && dst != buffer
      modifies this`p, this`avail, dst
      ensures Valid() && n == Min(|old(Contents())|, bytes)
      ensures dst[..n] == old(Contents())[..n] && Contents() == old(Contents())[n..]
    {
      n := if avail > bytes then bytes else avail;
      ghost var contents := Contents();
      forall i | 0 <= i < n {
        dst[i] := buffer[p + i];
      }
      avail := avail - n;
      p := p + n;
      assert dst[..n] == contents[..n];
    }

    // A block larger than what is left to read.
    method Split(dst: array<Byte>, at: nat, count: nat, block: seq<Byte>)
      requires Valid() && at + count <= dst.Length && dst != buffer && count < |block|
      modifies this`p, this`avail, dst, buffer
      ensures Valid() && dst[..at + count] == old(dst[..at]) + block[..count]
      ensures Contents() == block[count..count + Min(|block| - count, buffer.Length)]
    {
      ghost var before := dst[..at];
      forall i | 0 <= i < count {
        dst[at + i] := block[i];
      }
      assert dst[..at + count] == before + block[..count];
      var len := |block| - count;
      if len > buffer.Length {
        len := buffer.Length;
      }
      forall i | 0 <= i < len {
        buffer[i] := block[count + i];
      }
      p, avail := 0, len;
      assert Contents() == block[count..count + len];
    }

    method Append(dst: array<Byte>, at: nat, block: seq<Byte>)
      requires at + |block| <= dst.Length
      modifies dst
      ensures dst[..at + |block|] == old(dst[..at]) + block
    {
      ghost var before := dst[..at];
      forall i | 0 <= i < |block| {
        dst[at + i] := block[i];
      }
      assert dst[..at + |block|] == before + block;
    }

    // One turn of the loop with its block, if any: how much it gave, and whether the
    // loop ends.
    method Turn(dst: array<Byte>, at: nat, count: nat, status: Status) returns (given: nat, done: bool)
      requires Valid() && avail == 0 && 0 < count && at + count <= dst.Length && dst != buffer
      modifies this`p, this`avail, dst, buffer
      ensures Valid() && given <= count
      ensures done <==> Ends(status, count)
      ensures !done ==> avail == 0
      ensures given == |One(buffer.Length, count, status).given|
      ensures dst[..at + given] == old(dst[..at]) + One(buffer.Length, count, status).given
      ensures Contents() == One(buffer.Length, count, status).kept
    {
      given := 0;
      done := status.Corrupt? || status.Stop?;
      if status.Output? {
        var block := status.block;
        if |block| <= count {
          Append(dst, at, block);
          given := |block|;
        } else {
          Split(dst, at, count, block);
          given, done := count, true;
        }
      }
    }

    // in_unshorten_read: it returns the number of bytes delivered, whatever ended it.
    method ReadInto(dst: array<Byte>, bytes: nat, script: seq<Status>) returns (ret: nat, turns: nat)
      requires Valid() && bytes <= dst.Length && dst != buffer
      modifies this`p, this`avail, dst, buffer
      ensures Valid() && ret <= bytes
      ensures var o := Read(buffer.Length, old(Contents()), bytes, script);
        dst[..ret] == o.given && Contents() == o.kept && turns == o.turns
    {
      ghost var o := Read(buffer.Length, Contents(), bytes, script);
      ghost var held := Contents();
      ret := Drain(dst, bytes);
      turns := 0;
      var done := false;
      ghost var rest := Rest(ret == bytes, Contents(), buffer.Length, bytes - ret, script);
      ReadStarts(buffer.Length, held, bytes, script);
      while ret < bytes && turns < |script| && !done
        invariant Valid() && ret <= bytes && turns <= |script| && (ret < bytes && !done ==> avail == 0)
        invariant rest == Rest(done || ret == bytes, Contents(), buffer.Length, bytes - ret, script[turns..])
        invariant Continues(o, dst[..ret], turns, rest)
      {
        ghost var sofar, one, before := dst[..ret], One(buffer.Length, bytes - ret, script[turns]), rest;
        LoopTurn(Contents(), buffer.Length, bytes - ret, script[turns..]);
        var given;
        given, done := Turn(dst, ret, bytes - ret, script[turns]);
        ret, turns := ret + given, turns + 1;
        rest := Rest(done || ret == bytes, Contents(), buffer.Length, bytes - ret, script[turns..]);
        ContinuesOn(o, sofar, turns - 1, before, one.given, rest);
      }
      RestEnds(o, dst[..ret], turns, done || ret == bytes, Contents(), buffer.Length, bytes - ret, script[turns..]);
    }
  }
}
