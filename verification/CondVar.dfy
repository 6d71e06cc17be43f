// libmocha/bionic/pthread_cond.cpp: condition variables on a futex.
//
// The two low bits of the state word are flags; the other thirty count pulses.  A
// waiter reads the word while it holds the mutex and sleeps only if the word is
// still the same when it reaches the futex.

module PulseCounter {

  const WORD := 0x1_0000_0000
  const COND_COUNTER_STEP := 4
  const COND_FLAGS := 4
  // Pulses after which the counter has come round.
  const PERIOD := 0x4000_0000
  const INT_MAX := 0x7FFF_FFFF
  // The count the comment at the head of the source gives for a missed signal.
  const COMMENTED_COUNT := 0x7FFF_FFFF

  type Word = w: int | 0 <= w < WORD

  function Flags(w: Word): int {
    w % COND_FLAGS
  }

  // The atomic add of one pulse.
  function Pulsed(w: Word): Word {
    (w + COND_COUNTER_STEP) % WORD
  }

  function After(w: Word, pulses: nat): Word
    decreases pulses
  {
    if pulses == 0 then w else Pulsed(After(w, pulses - 1))
  }

  lemma PulsedSum(x: nat)
    ensures (x % WORD + COND_COUNTER_STEP) % WORD == (x + COND_COUNTER_STEP) % WORD
  {}

  lemma {:induction false} AfterIsSum(w: Word, pulses: nat)
    ensures After(w, pulses) == (w + COND_COUNTER_STEP * pulses) % WORD
  {
    if pulses > 0 {
      AfterIsSum(w, pulses - 1);
      PulsedSum(w + COND_COUNTER_STEP * (pulses - 1));
    }
  }

  lemma PulsedFlags(w: Word)
    ensures Flags(Pulsed(w)) == Flags(w)
  {}

  // The flags survive every pulse, also the one on which the counter overflows.
  lemma {:induction false} FlagsSurvive(w: Word, pulses: nat)
    ensures Flags(After(w, pulses)) == Flags(w)
  {
    if pulses > 0 {
      FlagsSurvive(w, pulses - 1);
      PulsedFlags(After(w, pulses - 1));
    }
  }

  // Two moments show the same word exactly when a multiple of PERIOD pulses lies
  // between them.
  lemma SameWordIff(w: Word, earlier: nat, later: nat)
    requires earlier <= later
    ensures After(w, earlier) == After(w, later) <==> (later - earlier) % PERIOD == 0
  {
    AfterIsSum(w, earlier);
    AfterIsSum(w, later);
    var x, rest := w + COND_COUNTER_STEP * earlier, (later - earlier) % PERIOD;
    var turns := (later - earlier) / PERIOD;
    assert w + COND_COUNTER_STEP * later == x + WORD * turns + COND_COUNTER_STEP * rest;
    Moved(x, turns, COND_COUNTER_STEP * rest);
  }

  lemma Moved(x: nat, turns: nat, rest: nat)
    requires rest < WORD
    ensures (x + WORD * turns + rest) % WORD == x % WORD <==> rest == 0
  {
    var y := x + rest;
    assert (x + WORD * turns + rest) % WORD == y % WORD;
    assert x == WORD * (x / WORD) + x % WORD;
  }

  lemma CommentedCountIsSeen(w: Word, earlier: nat)
    ensures After(w, earlier) != After(w, earlier + COMMENTED_COUNT)
    ensures After(w, earlier) == After(w, earlier + PERIOD)
  {
    SameWordIff(w, earlier, earlier + COMMENTED_COUNT);
    SameWordIff(w, earlier, earlier + PERIOD);
  }
}

// The condition variable itself, one thread at a time.
module PthreadCondition {
  import opened PulseCounter

  type Tid = nat

  function Min(x: int, y: int): int {
    if x <= y then x else y
  }

  class PthreadCond {
    var state: Word
    var queue: set<Tid>    // threads the kernel keeps asleep on the address of state

    // pthread_cond_init with the attribute's flags.
    constructor (attr: Word)
      ensures state == Flags(attr) && Flags(state) == Flags(attr) && queue == {}
    {
      state := attr % COND_FLAGS;
      queue := {};
    }

    method FutexWake(count: nat) returns (woken: set<Tid>)
      modifies this`queue
      ensures woken <= old(queue) && |woken| == Min(count, |old(queue)|)
      ensures queue == old(queue) - woken
    {
      woken := {};
      while queue != {} && |woken| < count
        invariant woken !! queue && woken + queue == old(queue) && |woken| <= count
        decreases |queue|
      {
        var t :| t in queue;
        assert |queue - {t}| == |queue| - 1;
        queue, woken := queue - {t}, woken + {t};
      }
      assert |old(queue)| == |woken + queue| == |woken| + |queue|;
      assert queue == old(queue) - woken;
    }

    method FutexWait(t: Tid, expected: Word) returns (blocked: bool)
      modifies this`queue
      ensures blocked <==> state == expected
      ensures queue == if blocked then old(queue) + {t} else old(queue)
    {
      blocked := state == expected;
      if blocked {
        queue := queue + {t};
      }
    }

    method Pulse(count: nat) returns (woken: set<Tid>)
      modifies this
      ensures state == Pulsed(old(state)) && Flags(state) == Flags(old(state))
      ensures woken <= old(queue) && |woken| == Min(count, |old(queue)|)
      ensures queue == old(queue) - woken
    {
      FlagsSurvive(state, 1);
      state := (state + COND_COUNTER_STEP) % WORD;
      woken := FutexWake(count);
    }

    method Signal() returns (woken: set<Tid>)
      modifies this
      ensures state == Pulsed(old(state)) && Flags(state) == Flags(old(state))
      ensures woken <= old(queue) && queue == old(queue) - woken
      ensures |woken| == if old(queue) == {} then 0 else 1
    {
      woken := Pulse(1);
    }

    // One wake names at most INT_MAX threads.
    method Broadcast() returns (woken: set<Tid>)
      modifies this
      ensures state == Pulsed(old(state)) && Flags(state) == Flags(old(state))
      ensures woken <= old(queue) && queue == old(queue) - woken && |woken| == Min(INT_MAX, |old(queue)|)
      ensures |old(queue)| <= INT_MAX ==> woken == old(queue) && queue == {}
    {
      woken := Pulse(INT_MAX);
      assert |old(queue) - woken| == |old(queue)| - |woken|;
    }

    // __pthread_cond_timedwait_relative up to the futex wait: the word is read with the
    // mutex held, then other threads pulse before the wait begins, each waking as many as
    // its count says.
    method Wait(t: Tid, meanwhile: seq<nat>) returns (blocked: bool)
      requires t !in queue
      modifies this
      ensures blocked <==> |meanwhile| % PERIOD == 0
      ensures blocked <==> t in queue
      ensures queue - {t} <= old(queue) && |queue - {t}| == Asleep(|old(queue)|, meanwhile)
      ensures state == After(old(state), |meanwhile|)
    {
      var oldState := state;
      for n := 0 to |meanwhile|
        invariant state == After(oldState, n)
        invariant queue <= old(queue) && |queue| == Asleep(|old(queue)|, meanwhile[..n])
      {
        ghost var before := queue;
        var woken := Pulse(meanwhile[n]);
        assert |before - woken| == |before| - |woken|;
        assert meanwhile[..n + 1][..n] == meanwhile[..n];
      }
      assert meanwhile[..|meanwhile|] == meanwhile;
      SameWordIff(oldState, 0, |meanwhile|);
      ghost var rest := queue;
      blocked := FutexWait(t, oldState);
      assert queue - {t} == rest;
    }
  }

  // How many of n sleepers are left after pulses.
  function Asleep(n: nat, pulses: seq<nat>): nat {
    if pulses == [] then n else
      var before := Asleep(n, pulses[..|pulses| - 1]);
      before - Min(pulses[|pulses| - 1], before)
  }
}

// All interleavings.
module CondProtocol {
  import opened Options
  import opened PulseCounter
  import opened PthreadCondition

  datatype Thread =
    | Running
    | Holding                                      // has the mutex
    | Sampled(seen: Word, at: nat, guarded: bool)   // has the mutex and has read the word
    | Released(seen: Word, at: nat, guarded: bool)  // about to enter the futex wait
    | Blocked(at: nat, guarded: bool)              // asleep in the kernel
    | Woken                                        // back from the futex, about to lock

  // Owed: the thread has set the flag and is to pulse for so many sleepers.  Added: it has advanced the
  // counter, as pulse number `index`, and not yet called the futex wake.
  datatype Pulse = Idle | Owed(count: nat) | Added(index: nat, count: nat)

  // `at` and `index` number moments by the pulses before them; `broadcast` is the
  // number of the last completed broadcast.  The flag stands for the predicate the
  // mutex protects; a guarded waiter waits only while it is false.
  datatype State = State(
    word: Word, queue: set<Tid>, owner: Option<Tid>, threads: seq<Thread>, pulses: seq<Pulse>,
    total: nat, broadcast: nat, flag: bool)

  datatype Step =
    | Lock(t: Tid)
    | Unlock(t: Tid)
    | Sample(t: Tid, guarded: bool)
    | Release(t: Tid)
    | Enter(t: Tid)                       // the futex wait compares and sleeps or returns
    | Leave(t: Tid)                       // timeout, signal or spurious return
    | SetFlag(t: Tid, count: nat)         // with a signal or a broadcast to follow
    | ClearFlag(t: Tid)
    | Add(t: Tid, count: nat)
    | Wake(t: Tid, woken: set<Tid>)

  function Initial(threads: nat, word: Word): State {
    State(word, {}, None, seq(threads, _ => Running), seq(threads, _ => Idle), 0, 0, false)
  }

  // A thread between Add and Wake does nothing else.
  predicate Free(s: State, t: Tid) {
    t < |s.threads| && t < |s.pulses| && !s.pulses[t].Added?
  }

  ghost predicate Enabled(s: State, step: Step) {
    match step
    case Lock(t) => Free(s, t) && s.threads[t] in {Running, Woken} && s.owner == None
    case Unlock(t) => Free(s, t) && s.threads[t] == Holding
    case Sample(t, guarded) => Free(s, t) && s.threads[t] == Holding && s.pulses[t] == Idle && (guarded ==> !s.flag)
    case Release(t) => Free(s, t) && s.threads[t].Sampled?
    case Enter(t) => Free(s, t) && s.threads[t].Released?
    case Leave(t) => Free(s, t) && s.threads[t].Blocked?
    case SetFlag(t, _) => Free(s, t) && s.threads[t] == Holding && s.pulses[t] == Idle
    case ClearFlag(t) => Free(s, t) && s.threads[t] == Holding
    case Add(t, count) =>
      Free(s, t) && s.threads[t] in {Running, Holding} && (s.pulses[t].Owed? ==> count == s.pulses[t].count)
    case Wake(t, woken) =>
      t < |s.pulses| && s.pulses[t].Added? && woken <= s.queue && |woken| == Min(s.pulses[t].count, |s.queue|)
  }

  function Apply(s: State, step: Step): State
    requires Enabled(s, step)
  {
    match step
    case Lock(t) => s.(owner := Some(t), threads := s.threads[t := Holding])
    case Unlock(t) => s.(owner := None, threads := s.threads[t := Running])
    case Sample(t, guarded) => s.(threads := s.threads[t := Sampled(s.word, s.total, guarded)])
    case Release(t) =>
      var w := s.threads[t];
      s.(owner := None, threads := s.threads[t := Released(w.seen, w.at, w.guarded)])
    case Enter(t) =>
      var w := s.threads[t];
      if s.word == w.seen then s.(queue := s.queue + {t}, threads := s.threads[t := Blocked(w.at, w.guarded)])
      else s.(threads := s.threads[t := Woken])
    case Leave(t) => s.(queue := s.queue - {t}, threads := s.threads[t := Woken])
    case SetFlag(t, count) => s.(flag := true, pulses := s.pulses[t := Owed(count)])
    case ClearFlag(t) => s.(flag := false)
    case Add(t, count) =>
      s.(word := Pulsed(s.word), total := s.total + 1, pulses := s.pulses[t := Added(s.total + 1, count)])
    case Wake(t, woken) =>
      s.(queue := s.queue - woken,
         threads := seq(|s.threads|, i requires 0 <= i < |s.threads| => if i in woken then Woken else s.threads[i]),
         pulses := s.pulses[t := Idle],
         broadcast := if s.pulses[t].count == INT_MAX && s.pulses[t].index > s.broadcast then s.pulses[t].index
                      else s.broadcast)
  }

  ghost function Exec(s: State, steps: seq<Step>): Option<State> {
    if steps == [] then Some(s) else
      var before := Exec(s, steps[..|steps| - 1]);
      if before.Some? && Enabled(before.value, steps[|steps| - 1])
      then Some(Apply(before.value, steps[|steps| - 1])) else None
  }

  // No waiter is so late that the counter could come round between its sample and
  // its futex wait.
  ghost predicate Prompt(s: State, steps: seq<Step>) {
    steps == [] || (
      var before, last := Exec(s, steps[..|steps| - 1]), steps[|steps| - 1];
      Prompt(s, steps[..|steps| - 1]) &&
      (before.Some? && last.Enter? && Enabled(before.value, last) ==>
        before.value.total - before.value.threads[last.t].at < PERIOD))
  }

  // Invariants -------------------------------------------------------------

  predicate Waiting(th: Thread) {
    th.Sampled? || th.Released? || th.Blocked?
  }

  ghost predicate WordSeen(s: State, w0: Word, th: Thread) {
    && (Waiting(th) ==> th.at <= s.total)
    && (th.Sampled? || th.Released? ==> th.seen == After(w0, th.at))
  }

  ghost predicate Counting(s: State, n: nat, w0: Word) {
    && |s.threads| == |s.pulses| == n
    && s.word == After(w0, s.total)
    && s.broadcast <= s.total
    && (forall t :: 0 <= t < n ==> WordSeen(s, w0, s.threads[t]))
    && (forall t :: 0 <= t < n && s.pulses[t].Added? ==> 0 < s.pulses[t].index <= s.total)
  }

  ghost predicate Queueing(s: State) {
    && (forall t: Tid :: t in s.queue <==> t < |s.threads| && s.threads[t].Blocked?)
    && (forall t: Tid :: t < |s.threads| ==> (s.threads[t].Holding? || s.threads[t].Sampled? <==> s.owner == Some(t)))
  }

  lemma CountingKept(s: State, step: Step, n: nat, w0: Word)
    requires Counting(s, n, w0) && Enabled(s, step)
    ensures Counting(Apply(s, step), n, w0)
  {}

  lemma QueueingKept(s: State, step: Step)
    requires Queueing(s) && Enabled(s, step)
    requires |s.threads| == |s.pulses|
    ensures Queueing(Apply(s, step))
  {}

  // Whether a waiter sleeps, in every reachable state: exactly when the pulses since
  // its sample are a multiple of PERIOD.
  lemma {:induction false} Reachable(n: nat, w0: Word, steps: seq<Step>, s: State)
    requires Exec(Initial(n, w0), steps) == Some(s)
    ensures Counting(s, n, w0) && Queueing(s)
  {
    if steps != [] {
      var before := Exec(Initial(n, w0), steps[..|steps| - 1]).value;
      Reachable(n, w0, steps[..|steps| - 1], before);
      CountingKept(before, steps[|steps| - 1], n, w0);
      QueueingKept(before, steps[|steps| - 1]);
    }
  }

  lemma SleepsIff(n: nat, w0: Word, steps: seq<Step>, s: State, t: Tid)
    requires Exec(Initial(n, w0), steps) == Some(s)
    requires Enabled(s, Enter(t))
    ensures s.threads[t].at <= s.total
    ensures Apply(s, Enter(t)).threads[t].Blocked? <==> (s.total - s.threads[t].at) % PERIOD == 0
  {
    Reachable(n, w0, steps, s);
    EnterIff(s, t, n, w0);
  }

  lemma EnterIff(s: State, t: Tid, n: nat, w0: Word)
    requires Counting(s, n, w0) && Enabled(s, Enter(t))
    ensures s.threads[t].at <= s.total
    ensures Apply(s, Enter(t)).threads[t].Blocked? <==> (s.total - s.threads[t].at) % PERIOD == 0
  {
    assert WordSeen(s, w0, s.threads[t]);
    SameWordIff(w0, s.threads[t].at, s.total);
  }

  // At most one thread has the mutex, so a sample and a flag change never overlap.
  lemma MutualExclusion(n: nat, w0: Word, steps: seq<Step>, s: State, t: Tid, u: Tid)
    requires Exec(Initial(n, w0), steps) == Some(s)
    requires t < |s.threads| && u < |s.threads|
    requires s.threads[t].Holding? || s.threads[t].Sampled?
    requires s.threads[u].Holding? || s.threads[u].Sampled?
    ensures t == u
  {
    Reachable(n, w0, steps, s);
  }

  // No thread sleeps that sampled before a broadcast which has completed since.
  ghost predicate NoneMissed(s: State) {
    forall t: Tid :: t < |s.threads| && s.threads[t].Blocked? ==> s.broadcast <= s.threads[t].at
  }

  // A broadcast that will reach a waiter which sampled at moment `at`.
  predicate Coming(p: Pulse, at: nat) {
    p == Owed(INT_MAX) || (p.Added? && p.count == INT_MAX && p.index > at)
  }

  ghost predicate Covered(s: State, th: Thread)
    requires Waiting(th)
  {
    || (exists p: Tid :: p < |s.pulses| && Coming(s.pulses[p], th.at))
    || (!th.Blocked? && s.total > th.at)
  }

  // While the flag is set, every guarded waiter has a broadcast coming or is bound to
  // see that the word has moved on.
  ghost predicate AllCovered(s: State) {
    s.flag ==> forall t: Tid :: t < |s.threads| && Waiting(s.threads[t]) && s.threads[t].guarded ==>
      Covered(s, s.threads[t])
  }

  // Whoever sets the flag follows it with a broadcast.
  predicate Announced(step: Step) {
    step.SetFlag? ==> step.count == INT_MAX
  }

  predicate AllAnnounced(steps: seq<Step>) {
    forall i :: 0 <= i < |steps| ==> Announced(steps[i])
  }

  ghost predicate PromptStep(s: State, step: Step)
    requires Enabled(s, step)
  {
    step.Enter? ==> s.total - s.threads[step.t].at < PERIOD
  }

  lemma QueueFits(s: State)
    requires Queueing(s)
    ensures |s.queue| <= |s.threads|
  {
    assert s.queue <= Below(|s.threads|);
    Within(s.queue, Below(|s.threads|));
  }

  ghost function Below(n: nat): (r: set<Tid>)
    ensures |r| == n && forall t: Tid :: t in r <==> t < n
  {
    if n == 0 then {} else Below(n - 1) + {n - 1}
  }

  lemma Within<T>(a: set<T>, b: set<T>)
    requires a <= b
    ensures |a| <= |b| && (|a| == |b| ==> a == b)
  {
    assert b == a + (b - a);
  }

  // Entering promptly, a thread sleeps only if nobody pulsed since its sample.
  lemma SleepsFresh(s: State, t: Tid, n: nat, w0: Word)
    requires Counting(s, n, w0) && Enabled(s, Enter(t)) && PromptStep(s, Enter(t))
    requires s.word == s.threads[t].seen
    ensures s.threads[t].at == s.total
  {
    assert WordSeen(s, w0, s.threads[t]);
    SameWordIff(w0, s.threads[t].at, s.total);
  }

  // A broadcast empties the queue.
  lemma BroadcastWakesAll(s: State, t: Tid, woken: set<Tid>)
    requires Queueing(s) && |s.threads| <= INT_MAX
    requires Enabled(s, Wake(t, woken)) && s.pulses[t].count == INT_MAX
    ensures woken == s.queue
    ensures forall u: Tid :: u < |s.threads| ==> !Apply(s, Wake(t, woken)).threads[u].Blocked?
  {
    QueueFits(s);
    Within(woken, s.queue);
  }

  // A signal wakes one sleeper if there is any.
  lemma SignalWakesOne(s: State, t: Tid, woken: set<Tid>)
    requires Queueing(s)
    requires Enabled(s, Wake(t, woken)) && s.pulses[t].count == 1
    ensures s.queue != {} ==>
      exists u: Tid :: u < |s.threads| && s.threads[u].Blocked? && Apply(s, Wake(t, woken)).threads[u] == Woken
    ensures |Apply(s, Wake(t, woken)).queue| == if s.queue == {} then 0 else |s.queue| - 1
  {
    assert |s.queue - woken| == |s.queue| - |woken|;
    if s.queue != {} {
      var u :| u in woken;
    }
  }

  lemma NoneMissedKept(s: State, step: Step, n: nat, w0: Word)
    requires Counting(s, n, w0) && Queueing(s) && n <= INT_MAX
    requires Enabled(s, step) && PromptStep(s, step)
    requires NoneMissed(s)
    ensures NoneMissed(Apply(s, step))
  {
    match step
    case Enter(t) =>
      if s.word == s.threads[t].seen {
        SleepsFresh(s, t, n, w0);
      }
    case Wake(t, woken) =>
      if s.pulses[t].count == INT_MAX {
        BroadcastWakesAll(s, t, woken);
      }
    case _ =>
  }

  lemma AllCoveredKept(s: State, step: Step, n: nat, w0: Word)
    requires Counting(s, n, w0) && Queueing(s) && n <= INT_MAX
    requires Enabled(s, step) && PromptStep(s, step) && Announced(step)
    requires AllCovered(s)
    ensures AllCovered(Apply(s, step))
  {
    var s' := Apply(s, step);
    if s'.flag {
      forall u: Tid | u < |s'.threads| && Waiting(s'.threads[u]) && s'.threads[u].guarded
        ensures Covered(s', s'.threads[u])
      {
        CoveredKept(s, step, n, w0, u);
      }
    }
  }

  lemma CoveredKept(s: State, step: Step, n: nat, w0: Word, u: Tid)
    requires Counting(s, n, w0) && Queueing(s) && n <= INT_MAX
    requires Enabled(s, step) && PromptStep(s, step) && Announced(step)
    requires AllCovered(s)
    requires Apply(s, step).flag && u < n && Waiting(Apply(s, step).threads[u]) && Apply(s, step).threads[u].guarded
    ensures Covered(Apply(s, step), Apply(s, step).threads[u])
  {
    var s' := Apply(s, step);
    assert WordSeen(s, w0, s.threads[u]);
    if step.SetFlag? {
      assert Coming(s'.pulses[step.t], s'.threads[u].at);
    } else if s.flag && Waiting(s.threads[u]) && s.threads[u].guarded {
      assert Covered(s, s.threads[u]);
      if p: Tid :| p < n && Coming(s.pulses[p], s.threads[u].at) {
        if step.Wake? && step.t == p {
          BroadcastWakesAll(s, p, step.woken);
        } else {
          assert Coming(s'.pulses[p], s'.threads[u].at);
        }
      } else if step == Enter(u) && s.word == s.threads[u].seen {
        SleepsFresh(s, u, n, w0);
      }
    }
  }

  lemma {:induction false} PromptlyReachable(n: nat, w0: Word, steps: seq<Step>, s: State)
    requires Exec(Initial(n, w0), steps) == Some(s) && Prompt(Initial(n, w0), steps) && n <= INT_MAX
    requires AllAnnounced(steps)
    ensures NoneMissed(s) && AllCovered(s)
  {
    if steps != [] {
      var before := Exec(Initial(n, w0), steps[..|steps| - 1]).value;
      assert Announced(steps[|steps| - 1]);
      PromptlyReachable(n, w0, steps[..|steps| - 1], before);
      Reachable(n, w0, steps[..|steps| - 1], before);
      NoneMissedKept(before, steps[|steps| - 1], n, w0);
      AllCoveredKept(before, steps[|steps| - 1], n, w0);
    }
  }

  // A waiter that is past its wait, or will find that the word has moved on.
  ghost predicate Freed(s: State, v: Tid) {
    v < |s.threads| && !s.threads[v].Blocked? && (Waiting(s.threads[v]) ==> s.threads[v].at < s.total)
  }

  // Free means free: entering the futex promptly, the thread does not sleep.
  lemma FreedStaysAwake(n: nat, w0: Word, steps: seq<Step>, s: State, v: Tid)
    requires Exec(Initial(n, w0), steps) == Some(s) && Freed(s, v)
    requires Enabled(s, Enter(v)) && PromptStep(s, Enter(v))
    ensures Apply(s, Enter(v)).threads[v] == Woken
  {
    SleepsIff(n, w0, steps, s, v);
  }

  lemma FreedByBroadcast(s: State, t: Tid)
    requires AllCovered(s) && s.flag && forall p: Tid :: p < |s.pulses| ==> s.pulses[p].Idle?
    requires t < |s.threads| && Waiting(s.threads[t]) && s.threads[t].guarded
    ensures Freed(s, t)
  {
    assert Covered(s, s.threads[t]);
  }

  // No lost wakeup: once the flag is set, always by threads that broadcast after it, and
  // its broadcast is over, no thread waiting
  // for the flag sleeps, and none that is still on its way to the futex will.
  lemma NoLostWakeup(n: nat, w0: Word, steps: seq<Step>, s: State, t: Tid)
    requires Exec(Initial(n, w0), steps) == Some(s) && Prompt(Initial(n, w0), steps) && n <= INT_MAX
    requires AllAnnounced(steps) && s.flag && (forall p: Tid :: p < |s.pulses| ==> s.pulses[p].Idle?)
    requires t < |s.threads| && Waiting(s.threads[t]) && s.threads[t].guarded
    ensures !s.threads[t].Blocked?
    ensures Enabled(s, Enter(t)) && PromptStep(s, Enter(t)) ==> Apply(s, Enter(t)).threads[t] == Woken
  {
    PromptlyReachable(n, w0, steps, s);
    FreedByBroadcast(s, t);
    if Enabled(s, Enter(t)) && PromptStep(s, Enter(t)) {
      FreedStaysAwake(n, w0, steps, s, t);
    }
  }

  // One signal ---------------------------------------------------------------

  // The flag stays set, and nobody waits without looking at it.
  predicate Steady(step: Step) {
    !step.ClearFlag? && (step.Sample? ==> step.guarded)
  }

  // Every waiter was one when the signal's pulse was added.
  ghost predicate Held(s: State, now: State) {
    && now.flag && s.total < now.total && |now.threads| == |s.threads|
    && forall v: Tid :: v < |s.threads| && Waiting(now.threads[v]) ==>
      Waiting(s.threads[v]) && now.threads[v].at <= s.total
  }

  lemma HeldKept(s: State, now: State, step: Step)
    requires Held(s, now) && Enabled(now, step) && Steady(step)
    ensures Held(s, Apply(now, step))
  {
    var after := Apply(now, step);
    forall v: Tid | v < |s.threads| && Waiting(after.threads[v])
      ensures Waiting(s.threads[v]) && after.threads[v].at <= s.total
    {
      assert Waiting(now.threads[v]) && after.threads[v].at == now.threads[v].at;
    }
  }

  lemma {:induction false} HeldOn(s: State, from: State, steps: seq<Step>, now: State, n: nat, w0: Word)
    requires Held(s, from) && Counting(from, n, w0) && Queueing(from) && Exec(from, steps) == Some(now)
    requires forall i :: 0 <= i < |steps| ==> Steady(steps[i])
    ensures Held(s, now) && Counting(now, n, w0) && Queueing(now)
  {
    if steps != [] {
      var before, last := Exec(from, steps[..|steps| - 1]).value, steps[|steps| - 1];
      HeldOn(s, from, steps[..|steps| - 1], before, n, w0);
      HeldKept(s, before, last);
      CountingKept(before, last, n, w0);
      QueueingKept(before, last);
    }
  }

  // A signal is not lost: with the flag set, from the moment its pulse is added to the end
  // of its wake, some thread of those that were waiting gets free, if there were any.
  lemma SignalFreesOne(n: nat, w0: Word, steps: seq<Step>, s: State, t: Tid, count: nat, more: seq<Step>, now: State,
      woken: set<Tid>, u: Tid)
    requires Exec(Initial(n, w0), steps) == Some(s) && s.flag && count > 0 && Enabled(s, Add(t, count))
    requires Exec(Apply(s, Add(t, count)), more) == Some(now) && forall i :: 0 <= i < |more| ==> Steady(more[i])
    requires Enabled(now, Wake(t, woken)) && now.pulses[t].count == count
    requires u < |s.threads| && Waiting(s.threads[u])
    ensures exists v: Tid :: v < |s.threads| && Waiting(s.threads[v]) && Freed(Apply(now, Wake(t, woken)), v)
  {
    Reachable(n, w0, steps, s);
    var added := Apply(s, Add(t, count));
    CountingKept(s, Add(t, count), n, w0);
    QueueingKept(s, Add(t, count));
    assert forall v: Tid :: v < |s.threads| && Waiting(s.threads[v]) ==> WordSeen(s, w0, s.threads[v]);
    HeldOn(s, added, more, now, n, w0);
    var after := Apply(now, Wake(t, woken));
    if after.threads[u].Blocked? {
      assert u in now.queue && |woken| > 0;
      var w :| w in woken;
      assert now.threads[w].Blocked? && after.threads[w] == Woken;
      assert Freed(after, w);
    } else {
      assert Freed(after, u);
    }
  }

  // Without promptness a wakeup can be lost: the waiter samples, the flag is set, and
  // a multiple of PERIOD broadcasts pass before it reaches the futex.
  ghost function Late(w0: Word, k: nat): State {
    var pulse := if k == 0 then Owed(INT_MAX) else Idle;
    State(After(w0, k), {}, None, [Released(w0, 0, true), Running], [Idle, pulse], k, k, true)
  }

  lemma ExecOne(s: State, steps: seq<Step>, step: Step, s': State) returns (more: seq<Step>)
    requires Exec(s, steps) == Some(s') && Enabled(s', step)
    ensures Exec(s, more) == Some(Apply(s', step))
  {
    more := steps + [step];
    assert more[..|steps|] == steps;
  }

  lemma OpeningSteps(w0: Word) returns (s: State, s1: State, s2: State, s3: State, s4: State, s5: State)
    ensures s == Initial(2, w0)
    ensures Enabled(s, Lock(0)) && s1 == Apply(s, Lock(0))
    ensures Enabled(s1, Sample(0, true)) && s2 == Apply(s1, Sample(0, true))
    ensures Enabled(s2, Release(0)) && s3 == Apply(s2, Release(0))
    ensures Enabled(s3, Lock(1)) && s4 == Apply(s3, Lock(1))
    ensures Enabled(s4, SetFlag(1, INT_MAX)) && s5 == Apply(s4, SetFlag(1, INT_MAX))
    ensures Enabled(s5, Unlock(1)) && Late(w0, 0) == Apply(s5, Unlock(1))
  {
    s := Initial(2, w0);
    s1 := Apply(s, Lock(0));
    s2 := Apply(s1, Sample(0, true));
    s3 := Apply(s2, Release(0));
    s4 := Apply(s3, Lock(1));
    s5 := Apply(s4, SetFlag(1, INT_MAX));
    var s6 := Apply(s5, Unlock(1));
    assert s6.threads == [Released(w0, 0, true), Running] && s6.pulses == [Idle, Owed(INT_MAX)];
  }

  lemma OpeningRun(w0: Word) returns (steps: seq<Step>)
    ensures Exec(Initial(2, w0), steps) == Some(Late(w0, 0))
  {
    var s, s1, s2, s3, s4, s5 := OpeningSteps(w0);
    steps := ExecOne(s, [], Lock(0), s);
    steps := ExecOne(s, steps, Sample(0, true), s1);
    steps := ExecOne(s, steps, Release(0), s2);
    steps := ExecOne(s, steps, Lock(1), s3);
    steps := ExecOne(s, steps, SetFlag(1, INT_MAX), s4);
    steps := ExecOne(s, steps, Unlock(1), s5);
  }

  lemma RoundSteps(w0: Word, k: nat) returns (s: State)
    ensures Enabled(Late(w0, k), Add(1, INT_MAX)) && s == Apply(Late(w0, k), Add(1, INT_MAX))
    ensures Enabled(s, Wake(1, {})) && Apply(s, Wake(1, {})) == Late(w0, k + 1)
  {
    s := Apply(Late(w0, k), Add(1, INT_MAX));
    var s' := Apply(s, Wake(1, {}));
    assert s'.threads == Late(w0, k).threads && s'.pulses == [Idle, Idle] && s'.queue == {};
  }

  lemma {:induction false} RoundsRun(w0: Word, k: nat) returns (steps: seq<Step>)
    ensures Exec(Initial(2, w0), steps) == Some(Late(w0, k))
  {
    if k == 0 {
      steps := OpeningRun(w0);
    } else {
      steps := RoundsRun(w0, k - 1);
      var s := RoundSteps(w0, k - 1);
      steps := ExecOne(Initial(2, w0), steps, Add(1, INT_MAX), Late(w0, k - 1));
      steps := ExecOne(Initial(2, w0), steps, Wake(1, {}), s);
    }
  }

  lemma LateSleeps(w0: Word, k: nat)
    requires k > 0 && k % PERIOD == 0
    ensures Enabled(Late(w0, k), Enter(0))
    ensures var s := Apply(Late(w0, k), Enter(0));
      s.flag && s.pulses == [Idle, Idle] && s.broadcast == k && s.threads == [Blocked(0, true), Running]
  {
    SameWordIff(w0, 0, k);
    assert Late(w0, k).threads[0 := Blocked(0, true)] == [Blocked(0, true), Running];
  }

  lemma WakeupLost(w0: Word, k: nat) returns (steps: seq<Step>, s: State)
    requires k > 0 && k % PERIOD == 0
    ensures Exec(Initial(2, w0), steps) == Some(s)
    ensures s.flag && s.pulses == [Idle, Idle] && s.broadcast == k
    ensures s.threads == [Blocked(0, true), Running]
  {
    steps := RoundsRun(w0, k);
    LateSleeps(w0, k);
    steps := ExecOne(Initial(2, w0), steps, Enter(0), Late(w0, k));
    s := Apply(Late(w0, k), Enter(0));
  }
}
