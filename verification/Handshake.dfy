/** The two threads around the scanner: the feeding thread in srd_inst_decode and the decoder's worker
    thread, step by step between the points where they hold the mutex. */
module Handshake {
  import opened Scanner
  import opened ScannerChunks

  // ----- The threads and what they share -----

  /** What the decoder calls: wait for conditions, or fetch at most max packed samples of some channels,
      a negative one being a channel that is not connected. */
  datatype Call = WaitFor(groups: seq<Group>) | FetchUpTo(channels: seq<int>, max: nat)

  /** What a fetched view has for a channel: no channel, a level, or bits, one a sample. */
  datatype Slot = Absent | Constant(level: nat) | Bits(bits: seq<nat>)

  /** count samples from start on; bit bitOffset + k of a slot belongs to sample start + k. */
  datatype View = View(channels: seq<int>, start: nat, count: nat, bitOffset: nat, slots: seq<Slot>) {

    /** What is left of the view behind its first n samples. */
    function Rest(n: nat): View {
      View(channels, start + n, if n <= count then count - n else 0, bitOffset + n, slots)
    }
  }

  /** The bits of a channel from a byte of its buffer on; the first byte starts with the chunk. */
  function SlotOf(c: Chunk, ch: int, byte: nat): Slot {
    if ch < 0 then Absent
    else if ch in c.fixed then Constant(c.fixed[ch])
    else
      var from := c.start + 8 * byte;
      Bits(if from <= c.end then seq<nat>(c.end - from, m requires 0 <= m < c.end - from => c.Level(from + m, ch)) else [])
  }

  /** The view that c_fetch_packed_multi hands out, cur being the scan position. */
  function Fetched(c: Chunk, cur: nat, channels: seq<int>, max: nat): View
    requires cur < c.end && c.start < c.end
  {
    var start := if cur < c.start then c.start else cur;
    var off, available := start - c.start, c.end - start;
    View(channels, start, if available < max then available else max, off % 8,
         seq(|channels|, i requires 0 <= i < |channels| => SlotOf(c, channels[i], off / 8)))
  }

  /** Looking is in front of the loop that waits for the chunk to be handled, Sleeping inside
      g_cond_wait. */
  datatype Producer = Outside | Looking | Sleeping

  /** Running is the decoder's own code, Reading the same with what is left of a fetched view at hand; Testing is in
      front of the mutex in wait or fetch, Waiting inside g_cond_wait, Leaving after decode returned. */
  datatype Worker = NoThread | Running | Reading(view: View) | Testing(call: Call) | Waiting(call: Call) | Leaving | Exited

  /** The fields under the mutex, where the threads are, whether a join is under way, whether the process
      has ended with a read through NULL, and the history of accepted chunks, released chunks and reported
      matches. */
  datatype State = State(
    got: bool, handled: bool, term: bool, chunk: Chunk, scan: Scan,
    producer: Producer, worker: Worker, joining: bool, crashed: bool,
    fed: seq<Chunk>, released: seq<Chunk>, events: seq<Event>)

  const NO_CHUNK := Chunk(0, 0, [], map[])

  /** What an instance starts with: the initial pins; whether old_pins_array is missing instead, the pins
      then being those it will be seeded with; and what match_array holds, which neither start() nor a
      reset clears. */
  datatype Start = Start(pins: Pins, missing: bool, mask: set<nat>)

  function Unset(n: nat): Pins {
    seq(n, _ => SAME_AS_SAMPLE0)
  }

  /** A new instance has its array, "same as sample 0" for every channel until others are set. */
  function NewInstance(n: nat): Start {
    Start(Unset(n), false, {})
  }

  /** An instance after start(). */
  function Initial(begin: Start): State {
    State(false, false, false, NO_CHUNK, Scan(0, false, false, true, begin.pins, begin.missing, [], begin.mask),
          Outside, NoThread, false, false, [], [], [])
  }

  // ----- The steps -----

  /** Whether the caller sets initial pins after a reset. */
  datatype Given = NoPins | SetPins(pins: Pins)

  datatype Action =
    | Feed(c: Chunk, len: nat) | Look | ProducerWakes
    | Ask(call: Call) | Test | WorkerWakes | Consume(n: U64) | Leave | Finish
    | Terminate | Join(given: Given)

  /** g_cond_signal(&di->handled_all_samples_cond) */
  function SignalHandled(p: Producer): Producer {
    if p.Sleeping? then Looking else p
  }

  /** g_cond_signal(&di->got_new_samples_cond) */
  function SignalGot(w: Worker): Worker {
    if w.Waiting? then Testing(w.call) else w
  }

  /** Where an action can be taken; the two Wakes are spurious wake-ups. */
  predicate Can(s: State, a: Action) {
    !s.crashed &&
    match a
    case Feed(_, _) => s.producer.Outside?
    case Look => s.producer.Looking?
    case ProducerWakes => s.producer.Sleeping?
    case Ask(call) => (s.worker.Running? || s.worker.Reading?) && (call.FetchUpTo? ==> call.max > 0)
    case Test => s.worker.Testing?
    case WorkerWakes => s.worker.Waiting?
    case Consume(_) => s.worker.Running? || s.worker.Reading?
    case Leave => s.worker.Running? || s.worker.Reading?
    case Finish => s.worker.Leaving?
    case Terminate => !s.worker.NoThread? && !s.joining
    case Join(given) =>
      s.joining && s.worker.Exited? && s.producer.Outside? && (given.SetPins? ==> |given.pins| == |s.scan.prev|)
  }

  /** An instance that was reset and started again: old_pins_array is released and stays so unless initial
      pins are set. */
  function Again(s: State, given: Given): Start {
    match given
    case NoPins => Start(Unset(|s.scan.prev|), true, s.scan.mask)
    case SetPins(pins) => Start(pins, false, s.scan.mask)
  }

  /** The test of a chunk's range, and the chunk handed to the worker. */
  function Accept(s: State, c: Chunk): State {
    if c.start != s.scan.cur || c.end < c.start then s
    else s.(chunk := c, got := true, handled := false, producer := Looking, fed := s.fed + [c],
            worker := if s.worker.NoThread? then Running else SignalGot(s.worker))
  }

  /** srd_inst_decode up to the first unlock; len is the stated length of the buffer. */
  function StepFeed(s: State, c: Chunk, len: nat): State {
    if len == 0 then s
    else Accept(if s.scan.first then s.(scan := s.scan.(cur := c.start)) else s, c)
  }

  /** The chunk goes back to the feeding thread. */
  function Release(s: State): State {
    s.(got := false, handled := true, chunk := NO_CHUNK, released := s.released + [s.chunk],
       producer := SignalHandled(s.producer))
  }

  /** wait's critical section when there are samples and no termination is requested. */
  function StepScan(s: State): State {
    var (st, found) := FindMatch(true, s.chunk, s.scan);
    if Faults(s.chunk, s.scan) then s.(crashed := true)
    else if found then s.(scan := st.(first := false), worker := Running, events := s.events + [EventOf(st, s.chunk)])
    else Release(s.(scan := st))
  }

  /** The critical section of wait and of fetch. */
  function StepTest(s: State): State
    requires s.worker.Testing?
  {
    if !s.got && !s.term then s.(worker := Waiting(s.worker.call))
    else if s.term then s.(worker := Running)
    else if s.worker.call.WaitFor? then StepScan(s)
    else if s.scan.cur >= s.chunk.end || s.chunk.start >= s.chunk.end then s.(worker := Running)
    else s.(worker := Reading(Fetched(s.chunk, s.scan.cur, s.worker.call.channels, s.worker.call.max)),
            scan := s.scan.(first := false))
  }

  /** Unsigned 64-bit end - cur. */
  function Behind(cur: U64, end: U64): U64 {
    if cur <= end then end - cur else U64_MAX + 1 + end - cur
  }

  /** Unsigned 64-bit cur + n. */
  function Beyond(cur: U64, n: U64): U64 {
    if cur + n <= U64_MAX then cur + n else cur + n - (U64_MAX + 1)
  }

  /** After n samples are consumed: at the end of the chunk it goes back. */
  function Moved(s: State, n: U64): State {
    if s.scan.cur >= s.chunk.end || s.term then Release(s).(worker := Running)
    else s.(worker := if s.worker.Reading? then Reading(s.worker.view.Rest(n)) else s.worker)
  }

  /** c_consume_samples, which may be called after a wait as well. */
  function StepConsume(s: State, n: U64): State {
    if n == 0 then s
    else if !s.got then s.(worker := Running)
    else if n > Behind(s.scan.cur, s.chunk.end) then s
    else Moved(s.(scan := s.scan.(cur := Beyond(s.scan.cur, n), matched := false)), n)
  }

  function Step(s: State, a: Action): State
    requires Can(s, a)
  {
    match a
    case Feed(c, len) => StepFeed(s, c, len)
    case Look => s.(producer := if !s.handled && !s.term then Sleeping else Outside)
    case ProducerWakes => s.(producer := Looking)
    case Ask(call) => s.(worker := Testing(call), scan := if call.WaitFor? then Install(s.scan, call.groups) else s.scan)
    case Test => StepTest(s)
    case WorkerWakes => s.(worker := Testing(s.worker.call))
    case Consume(n) => StepConsume(s, n)
    case Leave => s.(worker := Leaving)
    case Finish => s.(worker := Exited, term := true, handled := true, producer := SignalHandled(s.producer))
    case Terminate => s.(term := true, joining := true, worker := SignalGot(s.worker))
    case Join(given) => Initial(Again(s, given))
  }

  predicate Legal(s: State, actions: seq<Action>)
    decreases |actions|
  {
    actions == [] || (Can(s, actions[0]) && Legal(Step(s, actions[0]), actions[1..]))
  }

  function After(s: State, actions: seq<Action>): State
    requires Legal(s, actions)
    decreases |actions|
  {
    if actions == [] then s else After(Step(s, actions[0]), actions[1..])
  }

  // ----- Safety -----

  function Held(s: State): seq<Chunk> {
    if s.got then [s.chunk] else []
  }

  /** What holds while no termination is requested. */
  ghost predicate Lending(s: State) {
    && !s.worker.Exited? && !s.joining
    && (s.crashed ==> s.worker.Testing? && s.got)
    && (s.producer.Outside? ==> !s.got)
    && (!s.producer.Outside? ==> (s.handled <==> !s.got))
    && (s.producer.Sleeping? ==> s.got)
    && (s.worker.Waiting? ==> !s.got)
    && (s.worker.Reading? ==> s.got)
    && s.fed == s.released + Held(s)
  }

  /** What holds from the request on. */
  ghost predicate Ending(s: State) {
    && !s.worker.NoThread? && !s.worker.Waiting? && !s.crashed
    && (s.producer.Sleeping? ==> !s.worker.Exited?)
  }

  ghost predicate Inv(s: State) {
    && (s.worker.NoThread? ==> s.producer.Outside? && s.fed == [] && s.events == [])
    && (if s.term then Ending(s) else Lending(s))
  }

  lemma {:induction false} StepKeepsInv(s: State, a: Action)
    requires Inv(s) && Can(s, a)
    ensures Inv(Step(s, a))
  {
    hide FindMatch, EventOf, Install;
  }

  lemma {:induction false} InvHolds(s: State, actions: seq<Action>)
    requires Inv(s) && Legal(s, actions)
    ensures Inv(After(s, actions))
    decreases |actions|
  {
    hide Step, Inv, Can;
    if actions != [] {
      StepKeepsInv(s, actions[0]);
      InvHolds(Step(s, actions[0]), actions[1..]);
    }
  }

  /** Any run from a new instance. */
  ghost predicate Reached(begin: Start, actions: seq<Action>, s: State) {
    Legal(Initial(begin), actions) && s == After(Initial(begin), actions)
  }

  /** The worker can only see samples of the chunk whose feeding thread is still inside
      srd_inst_decode, unless termination was requested; and without that every accepted chunk is
      released once, in order. */
  lemma OnlyLent(begin: Start, actions: seq<Action>, s: State)
    requires Reached(begin, actions, s) && !s.term
    ensures s.got || s.worker.Reading? ==> !s.producer.Outside? && s.fed != [] && s.chunk == s.fed[|s.fed| - 1]
    ensures s.fed == s.released + Held(s)
    ensures s.producer.Outside? ==> s.fed == s.released
  {
    InvHolds(Initial(begin), actions);
    hide Legal, After;
  }

  /** Never are both threads asleep; whoever sleeps waits for something the other one still does. */
  lemma NeverBothAsleep(begin: Start, actions: seq<Action>, s: State)
    requires Reached(begin, actions, s)
    ensures s.producer.Sleeping? ==> !s.worker.Waiting? && !s.worker.Exited? && !s.worker.NoThread?
    ensures s.worker.Waiting? ==> !s.got && !s.term && !s.producer.Sleeping?
  {
    InvHolds(Initial(begin), actions);
    hide Legal, After;
  }

  // ----- Termination -----

  /** How far the threads are from being done: the worker from having exited, the feeding thread from
      having returned. */
  function Rank(s: State): nat {
    (match s.worker
     case Waiting(_) => 4
     case Testing(_) => 3
     case Running | Reading(_) => 2
     case Leaving => 1
     case NoThread | Exited => 0)
    + (match s.producer case Sleeping => 2 case Looking => 1 case Outside => 0)
  }

  /** The actions by which the threads come to an end. */
  predicate Ends(a: Action) {
    a.Look? || a.ProducerWakes? || a.Test? || a.Leave? || a.Finish?
  }

  /** The next such action of a state. */
  function NextEnd(s: State): Action {
    if s.producer.Looking? then Look
    else if s.worker.Testing? then Test
    else if s.worker.Leaving? then Finish
    else Leave
  }

  /** Once termination is requested, or the decoder has returned, every ending action brings the
      threads nearer to their end, one is possible until both are there, nothing but a new call of
      the decoder or of the caller takes them back, and a feeding thread inside never sleeps again. */
  lemma {:induction false} EndsLowerRank(s: State, a: Action)
    requires Inv(s) && s.term && Can(s, a)
    ensures Ends(a) ==> Rank(Step(s, a)) < Rank(s)
    ensures Rank(s) > 0 ==> Can(s, NextEnd(s)) && Ends(NextEnd(s))
    ensures !a.Feed? && !a.Ask? ==> Rank(Step(s, a)) <= Rank(s)
    ensures !a.Join? ==> Step(s, a).term
    ensures !s.producer.Sleeping? ==> !Step(s, a).producer.Sleeping?
    ensures a.Feed? && !Step(s, a).producer.Outside? ==> Step(Step(s, a), Look).producer.Outside?
  {
    hide FindMatch, EventOf, Install, Fetched;
  }

  function CountEnds(actions: seq<Action>): nat {
    if actions == [] then 0 else CountEnds(actions[1..]) + if Ends(actions[0]) then 1 else 0
  }

  /** Nothing is fed and the decoder calls nothing. */
  ghost predicate Quiet(actions: seq<Action>) {
    forall i :: 0 <= i < |actions| ==> !actions[i].Feed? && !actions[i].Ask?
  }

  ghost predicate AllEnd(actions: seq<Action>) {
    forall i :: 0 <= i < |actions| ==> Ends(actions[i])
  }

  lemma {:induction false} SomethingEnds(s: State)
    requires Inv(s) && s.term && Rank(s) > 0
    ensures var a := NextEnd(s); Can(s, a) && Ends(a)
  {
  }

  /** A way to the end. */
  lemma {:induction false} WayOut(s: State) returns (ends: seq<Action>)
    requires Inv(s) && s.term
    ensures AllEnd(ends) && |ends| <= Rank(s) && Legal(s, ends)
    ensures var r := After(s, ends); Rank(r) == 0 && Inv(r) && r.term
    decreases Rank(s)
  {
    hide Inv, Step, Rank, NextEnd, Can;
    ends := [];
    if Rank(s) > 0 {
      var a := NextEnd(s);
      SomethingEnds(s);
      EndsLowerRank(s, a);
      StepKeepsInv(s, a);
      assert !a.Join?;
      var rest := WayOut(Step(s, a));
      ends := [a] + rest;
      assert ends[1..] == rest;
    }
  }

  /** There is no thread and nobody is inside. */
  ghost predicate Idle(s: State) {
    s.worker.NoThread? && s.producer.Outside? && !s.joining
  }

  lemma {:induction false} IdleStays(s: State, more: seq<Action>)
    requires Idle(s) && Legal(s, more) && Quiet(more)
    ensures more == []
  {
    forall a: Action | !a.Feed? ensures !Can(s, a) {}
  }

  lemma {:induction false} JoinIsIdle(s: State, a: Action)
    requires Can(s, a) && a.Join?
    ensures Idle(Step(s, a))
  {
  }

  /** No run without new calls has more ending actions than the rank says. */
  lemma {:induction false} EndsBounded(s: State, more: seq<Action>)
    requires Inv(s) && s.term && Legal(s, more) && Quiet(more)
    ensures CountEnds(more) <= Rank(s)
    decreases |more|
  {
    hide Inv, Step, Rank, Can;
    if more != [] {
      var a := more[0];
      assert !a.Feed? && !a.Ask?;
      EndsLowerRank(s, a);
      StepKeepsInv(s, a);
      if a.Join? {
        JoinIsIdle(s, a);
        IdleStays(Step(s, a), more[1..]);
      } else {
        EndsBounded(Step(s, a), more[1..]);
      }
    }
  }

  lemma {:induction false} RankZero(s: State)
    requires Inv(s) && s.term
    ensures Rank(s) == 0 <==> s.worker.Exited? && s.producer.Outside?
  {
  }

  /** Once termination is requested, or the decoder has returned, the threads come to their end: some
      actions of their own, at most as many as the rank, lead to an exited worker and a returned feeding
      call; and in whatever order things go, unless the decoder or the caller makes new calls there are
      never more such actions than that. */
  lemma {:induction false} Drains(begin: Start, actions: seq<Action>, s: State, more: seq<Action>) returns (ends: seq<Action>)
    requires Reached(begin, actions, s) && s.term && Legal(s, more) && Quiet(more)
    ensures AllEnd(ends) && |ends| <= Rank(s) <= 6 && Legal(s, ends)
    ensures After(s, ends).worker.Exited? && After(s, ends).producer.Outside?
    ensures CountEnds(more) <= Rank(s)
  {
    InvHolds(Initial(begin), actions);
    hide Legal, After, Inv, Quiet;
    ends := WayOut(s);
    RankZero(After(s, ends));
    EndsBounded(s, more);
  }

  lemma {:induction false} EndsKeepJoining(s: State, ends: seq<Action>)
    requires Legal(s, ends) && AllEnd(ends)
    ensures After(s, ends).joining == s.joining
    decreases |ends|
  {
    if ends != [] {
      assert Ends(ends[0]);
      EndKeepsJoining(s, ends[0]);
      EndsKeepJoining(Step(s, ends[0]), ends[1..]);
    }
  }

  lemma {:induction false} EndKeepsJoining(s: State, a: Action)
    requires Can(s, a) && Ends(a)
    ensures Step(s, a).joining == s.joining
  {
    hide FindMatch, Faults, EventOf, Fetched;
  }

  /** The caller's request to terminate can always be carried to its end: after some of the threads' own
      actions, at most six, the join returns. */
  lemma {:induction false} TerminateThenJoin(begin: Start, actions: seq<Action>, s: State) returns (ends: seq<Action>)
    requires Reached(begin, actions, s) && Can(s, Terminate)
    ensures var s1 := Step(s, Terminate);
            AllEnd(ends) && |ends| <= 6 && Legal(s1, ends) && Can(After(s1, ends), Join(NoPins))
  {
    InvHolds(Initial(begin), actions);
    StepKeepsInv(s, Terminate);
    hide Legal, After, Inv;
    var s1 := Step(s, Terminate);
    ends := WayOut(s1);
    RankZero(After(s1, ends));
    EndsKeepJoining(s1, ends);
    NotCrashed(After(s1, ends));
  }

  lemma NotCrashed(s: State)
    requires Inv(s) && s.term
    ensures !s.crashed
  {
  }

  // ----- After a reset -----

  predicate NoJoin(actions: seq<Action>) {
    actions == [] || (!actions[0].Join? && NoJoin(actions[1..]))
  }

  lemma {:induction false} RunOn(s: State, a: seq<Action>, b: seq<Action>)
    requires Legal(s, a + b)
    ensures Legal(s, a) && Legal(After(s, a), b) && After(s, a + b) == After(After(s, a), b)
    decreases |a|
  {
    hide Step, Can;
    if a == [] {
      assert a + b == b;
    } else {
      assert (a + b)[1..] == a[1..] + b;
      RunOn(Step(s, a[0]), a[1..], b);
    }
  }

  /** The pins given with a reset are there; without any, the array is missing. */
  ghost predicate AfterJoin(begin: Start, given: Given) {
    match given
    case NoPins => begin.missing && begin.pins == Unset(|begin.pins|)
    case SetPins(pins) => !begin.missing && begin.pins == pins
  }

  /** Whatever was done before a reset, the state is one that the actions since the last reset reach, from
      the pins given with it or from missing ones. */
  lemma {:induction false} SinceReset(begin: Start, actions: seq<Action>, s: State) returns (begin1: Start, k: nat)
    requires Reached(begin, actions, s)
    ensures k <= |actions| && NoJoin(actions[k..]) && Reached(begin1, actions[k..], s)
    ensures k == 0 ==> begin1 == begin
    ensures k > 0 ==> actions[k - 1].Join? && AfterJoin(begin1, actions[k - 1].given)
  {
    hide Step, Can, NoJoin;
    k := AfterLastJoin(actions);
    if k == 0 {
      begin1 := begin;
      assert actions[0..] == actions;
    } else {
      var a, b := actions[..k - 1], actions[k - 1..];
      assert actions == a + b;
      RunOn(Initial(begin), a, b);
      assert b[0] == actions[k - 1] && b[1..] == actions[k..];
      begin1 := JoinStarts(After(Initial(begin), a), actions[k - 1]);
    }
  }

  lemma JoinStarts(s: State, a: Action) returns (begin: Start)
    requires Can(s, a) && a.Join?
    ensures AfterJoin(begin, a.given) && Step(s, a) == Initial(begin)
  {
    begin := Again(s, a.given);
  }

  lemma {:induction false} AfterLastJoin(actions: seq<Action>) returns (k: nat)
    ensures k <= |actions| && NoJoin(actions[k..]) && (k > 0 ==> actions[k - 1].Join?)
    decreases |actions|
  {
    k := 0;
    if actions != [] {
      var rest := actions[1..];
      k := AfterLastJoin(rest);
      assert actions[k + 1..] == rest[k..];
      if k > 0 || actions[0].Join? {
        k := k + 1;
      } else {
        assert actions[0..] == actions && rest[0..] == rest;
      }
    }
  }
}
