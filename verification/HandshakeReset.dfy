/** A reset releases old_pins_array, and only a scan or the caller brings it back: exactly when a run reads
    through it while it is missing. */
module HandshakeReset {
  import opened Scanner
  import opened ScannerChunks
  import opened Handshake
  import opened HandshakeOrder

  // ----- The steps that matter -----

  /** wait's critical section with samples at hand and a list that has conditions. */
  predicate Scans(s: State, a: Action) {
    a.Test? && s.worker.Testing? && s.worker.call.WaitFor? && s.got && !s.term && HaveConditions(s.scan.groups)
  }

  /** Afterwards the array is there: first_pos is still set, or a sample is examined. */
  predicate Looks(s: State, a: Action) {
    Scans(s, a) && (s.scan.first || s.scan.cur < s.chunk.end)
  }

  /** Clears first_pos without seeding the array: a wait without conditions, or a fetch. */
  predicate Bare(s: State, a: Action) {
    && a.Test? && s.worker.Testing? && s.got && !s.term
    && (if s.worker.call.WaitFor? then !HaveConditions(s.scan.groups)
        else s.scan.cur < s.chunk.end && s.chunk.start < s.chunk.end)
  }

  /** In some group only finished skips stand in front of a term that needs a remembered pin. */
  ghost predicate AsksPin(c: Chunk, st: Scan) {
    exists j :: 0 <= j < |st.groups| && TermsRead(c, st, st.groups[j], 0)
  }

  /** The first scan for conditions comes after a step that cleared first_pos without seeding the array
      (bare tells of one before), and asks for a pin. */
  ghost predicate MissesPins(s: State, actions: seq<Action>, bare: bool)
    requires Legal(s, actions)
    decreases |actions|
  {
    && actions != []
    && if Looks(s, actions[0]) then bare && AsksPin(s.chunk, s.scan)
       else MissesPins(Step(s, actions[0]), actions[1..], bare || Bare(s, actions[0]))
  }

  // ----- What asks for a pin -----

  /** Term k is on a channel, and in front of it are only skips that are done. */
  predicate PinFirst(g: Group, k: nat) {
    k < |g| && !g[k].Skip? && forall i :: 0 <= i < k ==> g[i].Skip? && g[i].skipped == g[i].count
  }

  lemma {:induction false} ReadsIff(c: Chunk, st: Scan, g: Group, k: nat)
    requires c.Has(st.cur) && k <= |g| && forall i :: 0 <= i < k ==> g[i].Skip? && g[i].skipped == g[i].count
    ensures TermsRead(c, st, g, k) <==> exists m :: PinFirst(g, m)
    decreases |g| - k
  {
    if k < |g| && g[k].Skip? && g[k].skipped == g[k].count {
      ReadsIff(c, st, g, k + 1);
    } else if k < |g| && !g[k].Skip? {
      assert PinFirst(g, k);
    }
  }

  /** At a sample of the chunk it depends on the list alone. */
  lemma {:induction false} AsksPinIff(c: Chunk, st: Scan)
    requires c.Has(st.cur)
    ensures AsksPin(c, st) <==> exists j, k :: 0 <= j < |st.groups| && PinFirst(st.groups[j], k)
  {
    forall j | 0 <= j < |st.groups|
      ensures TermsRead(c, st, st.groups[j], 0) <==> exists k :: PinFirst(st.groups[j], k)
    {
      ReadsIff(c, st, st.groups[j], 0);
    }
  }

  // ----- One scan -----

  lemma {:induction false} SameReads(c: Chunk, a: Scan, b: Scan, g: Group, k: nat)
    requires a.cur == b.cur
    ensures TermsRead(c, a, g, k) == TermsRead(c, b, g, k)
    decreases |g| - k
  {
    if k < |g| { SameReads(c, a, b, g, k + 1); }
  }

  /** A group that gets to no pin neither steps back nor raises skip_zero when nothing has matched. */
  lemma {:induction false} TermsKeepCalm(c: Chunk, st: Scan, g: Group, k: nat, skip: bool)
    requires !st.matched && k <= |g|
    ensures !TermsFrom(c, st, false, g, k, skip).zero
    decreases |g| - k
  {
    if k < |g| {
      var r := TermAt(c, st, false, g[k]);
      if r.ok { TermsKeepCalm(c, st, g[k := r.term], k + 1, r.skip); }
    }
  }

  lemma {:induction false} GroupsReadIff(c: Chunk, st: Scan, j: nat)
    requires !st.matched && !st.zero && j <= |st.groups|
    ensures GroupsRead(c, st, j) <==> exists i :: j <= i < |st.groups| && TermsRead(c, st, st.groups[i], 0)
    decreases |st.groups| - j
  {
    if j < |st.groups| {
      TermsKeepCalm(c, st, st.groups[j], 0, false);
      var st1 := GroupAt(c, st, j).0;
      assert !st1.zero && st1.cur == st.cur;
      assert forall i :: j < i < |st.groups| ==> st1.groups[i] == st.groups[i];
      GroupsReadIff(c, st1, j + 1);
      forall g: Group ensures TermsRead(c, st1, g, 0) == TermsRead(c, st, g, 0) { SameReads(c, st1, st, g, 0); }
    }
  }

  /** The array is missing and nothing has matched yet. */
  ghost predicate Unseeded(st: Scan) {
    st.missing && !st.matched && !st.zero
  }

  lemma {:induction false} FaultsIff(c: Chunk, st: Scan)
    requires Unseeded(st) && HaveConditions(st.groups)
    ensures Faults(c, st) <==> !st.first && st.cur < c.end && AsksPin(c, st)
  {
    var st1 := Enter(c, st);
    GroupsReadIff(c, st1, 0);
    forall g: Group ensures TermsRead(c, st1, g, 0) == TermsRead(c, st, g, 0) { SameReads(c, st1, st, g, 0); }
  }

  lemma {:induction false} SeededStays(jump: bool, c: Chunk, st: Scan, skip: bool)
    requires !st.missing
    ensures !ScanLoop(jump, c, st, skip).0.missing
    decreases if st.cur < c.end then c.end - st.cur else 0
  {
    hide GroupsFrom, PinsAt;
    if st.cur < c.end {
      var (st1, skip1) := Sample(c, st, skip);
      if !st1.matched { SeededStays(jump, c, st1.(cur := if jump && skip1 then c.end else Inc(st1.cur)), skip1); }
    }
  }

  /** A scan seeds the array if it starts while first_pos is set or examines a sample. */
  lemma {:induction false} ScanSeeds(c: Chunk, st: Scan)
    requires HaveConditions(st.groups) && (st.missing ==> !st.matched)
    ensures var r := FindMatch(true, c, st).0;
            if !st.missing || st.first || st.cur < c.end then !r.missing
            else r == st.(mask := {})
  {
    var st1 := Enter(c, st);
    if !st1.missing {
      SeededStays(true, c, st1, true);
    } else if st1.cur < c.end {
      var (st2, skip) := Sample(c, st1, true);
      if !st2.matched { SeededStays(true, c, st2.(cur := if skip then c.end else Inc(st2.cur)), skip); }
    }
  }

  // ----- Runs -----

  lemma {:induction false} StepUnseeded(s: State, a: Action)
    requires Can(s, a) && !a.Join? && Unseeded(s.scan)
    ensures var s1 := Step(s, a);
            if Looks(s, a) then
              if !s.scan.first && AsksPin(s.chunk, s.scan) then s1.crashed else !s1.crashed && !s1.scan.missing
            else !s1.crashed && Unseeded(s1.scan) && (s1.scan.first <==> s.scan.first && !Bare(s, a))
  {
    hide FindMatch, Faults, EventOf, Fetched, AsksPin, HaveConditions;
    if Scans(s, a) {
      FaultsIff(s.chunk, s.scan);
      ScanSeeds(s.chunk, s.scan);
    } else if Bare(s, a) && s.worker.call.WaitFor? {
      NoConditions(s.chunk, s.scan);
    }
  }

  lemma NoConditions(c: Chunk, st: Scan)
    requires !HaveConditions(st.groups)
    ensures FindMatch(true, c, st) == (st, true) && !Faults(c, st)
  {
  }

  lemma {:induction false} StepSeeded(s: State, a: Action)
    requires Can(s, a) && !a.Join? && !s.scan.missing
    ensures !Step(s, a).crashed && !Step(s, a).scan.missing
  {
    hide FindMatch, EventOf, Fetched, HaveConditions, GroupsRead;
    if Scans(s, a) {
      ScanSeeds(s.chunk, s.scan);
    } else if a.Test? && s.worker.call.WaitFor? {
      if s.got && !s.term { NoConditions(s.chunk, s.scan); }
    }
  }

  lemma {:induction false} NeverCrashes(s: State, actions: seq<Action>)
    requires !s.crashed && !s.scan.missing && Legal(s, actions) && NoJoin(actions)
    ensures !After(s, actions).crashed
    decreases |actions|
  {
    hide Step, Can;
    if actions != [] {
      StepSeeded(s, actions[0]);
      NeverCrashes(Step(s, actions[0]), actions[1..]);
    }
  }

  lemma {:induction false} NothingAfter(s: State, actions: seq<Action>)
    requires s.crashed && Legal(s, actions)
    ensures actions == []
  {
  }

  lemma {:induction false} UnseededRun(s: State, actions: seq<Action>)
    requires !s.crashed && Unseeded(s.scan) && Legal(s, actions) && NoJoin(actions)
    ensures After(s, actions).crashed <==> MissesPins(s, actions, !s.scan.first)
    decreases |actions|
  {
    hide Step, Can, Looks, Bare, AsksPin, Unseeded;
    if actions != [] {
      var a, rest := actions[0], actions[1..];
      StepUnseeded(s, a);
      var s1 := Step(s, a);
      if s1.crashed {
        NothingAfter(s1, rest);
      } else if Looks(s, a) {
        NeverCrashes(s1, rest);
      } else {
        UnseededRun(s1, rest);
      }
    }
  }

  /** A run reads through the missing array exactly when no initial pins were set, a wait without conditions
      or a fetch cleared first_pos before the first scan for conditions, and that scan asks for a pin. */
  lemma {:induction false} CrashesIff(begin: Start, actions: seq<Action>)
    requires Legal(Initial(begin), actions) && NoJoin(actions)
    ensures After(Initial(begin), actions).crashed <==> begin.missing && MissesPins(Initial(begin), actions, false)
  {
    hide Legal, After, MissesPins, NoJoin;
    if begin.missing { UnseededRun(Initial(begin), actions); } else { NeverCrashes(Initial(begin), actions); }
  }

  /** Over any run of a new instance, with any number of resets: only the actions since the last one count,
      and only if it set no pins. */
  lemma {:induction false} CrashesSinceReset(n: nat, mask: set<nat>, actions: seq<Action>, s: State) returns (begin: Start, k: nat)
    requires Reached(Start(Unset(n), false, mask), actions, s)
    ensures k <= |actions| && NoJoin(actions[k..]) && Reached(begin, actions[k..], s)
    ensures begin.missing <==> k > 0 && actions[k - 1] == Join(NoPins)
    ensures s.crashed <==> begin.missing && MissesPins(Initial(begin), actions[k..], false)
  {
    hide Legal, After, MissesPins, NoJoin;
    begin, k := SinceReset(Start(Unset(n), false, mask), actions, s);
    CrashesIff(begin, actions[k..]);
  }

  // ----- Otherwise it does what a new instance does -----

  /** Equal but for the array being there. */
  ghost predicate Twins(a: Scan, b: Scan) {
    a == b.(missing := a.missing)
  }

  lemma {:induction false} TermsTwins(c: Chunk, a: Scan, b: Scan, zero: bool, g: Group, k: nat, skip: bool)
    requires Twins(a, b) && k <= |g|
    ensures TermsFrom(c, a, zero, g, k, skip) == TermsFrom(c, b, zero, g, k, skip)
    decreases |g| - k
  {
    if k < |g| {
      var r := TermAt(c, a, zero, g[k]);
      if r.ok { TermsTwins(c, a, b, r.zero, g[k := r.term], k + 1, r.skip); }
    }
  }

  lemma {:induction false} GroupsTwins(c: Chunk, a: Scan, b: Scan, j: nat, skip: bool)
    requires Twins(a, b) && j <= |a.groups|
    ensures Twins(GroupsFrom(c, a, j, skip).0, GroupsFrom(c, b, j, skip).0)
    ensures GroupsFrom(c, a, j, skip).1 == GroupsFrom(c, b, j, skip).1
    decreases |a.groups| - j
  {
    if j < |a.groups| {
      TermsTwins(c, a, b, a.zero, a.groups[j], 0, false);
      var (a1, skip1) := GroupAt(c, a, j);
      GroupsTwins(c, a1, GroupAt(c, b, j).0, j + 1, skip && skip1);
    }
  }

  lemma {:induction false} FindMatchTwins(c: Chunk, a: Scan, b: Scan)
    requires Twins(a, b)
    ensures Twins(FindMatch(true, c, a).0, FindMatch(true, c, b).0) && FindMatch(true, c, a).1 == FindMatch(true, c, b).1
  {
    if HaveConditions(a.groups) {
      var a0, b0 := Enter(c, a), Enter(c, b);
      if a0.cur < c.end {
        GroupsTwins(c, a0, b0, 0, true);
        assert Sample(c, a0, true) == Sample(c, b0, true);
      }
    }
  }

  /** The same state with the array there. */
  function Seeded(s: State): State {
    s.(scan := s.scan.(missing := false))
  }

  lemma {:induction false} FindMatchSeeded(c: Chunk, st: Scan)
    ensures var (r, found) := FindMatch(true, c, st); FindMatch(true, c, st.(missing := false)) == (r.(missing := false), found)
    ensures !Faults(c, st.(missing := false))
  {
    FindMatchTwins(c, st, st.(missing := false));
    var st1 := st.(missing := false);
    if HaveConditions(st.groups) { ScanSeeds(c, st1); }
  }

  lemma {:induction false} HitSeeded(s: State)
    requires !Faults(s.chunk, s.scan) && FindMatch(true, s.chunk, s.scan).1
    ensures StepScan(Seeded(s)) == Seeded(StepScan(s))
  {
    hide FindMatch, Faults, EventOf;
    FindMatchSeeded(s.chunk, s.scan);
    var r := FindMatch(true, s.chunk, s.scan).0;
    EventSeeded(r, s.chunk);
    assert StepScan(s) == s.(scan := r.(first := false), worker := Running, events := s.events + [EventOf(r, s.chunk)]);
  }

  lemma EventSeeded(st: Scan, c: Chunk)
    ensures EventOf(st.(missing := false), c) == EventOf(st, c)
  {
  }

  lemma {:induction false} ReleaseSeeded(s: State)
    requires !Faults(s.chunk, s.scan) && !FindMatch(true, s.chunk, s.scan).1
    ensures StepScan(Seeded(s)) == Seeded(StepScan(s))
  {
    hide FindMatch, Faults, EventOf, SignalHandled;
    FindMatchSeeded(s.chunk, s.scan);
    var r := FindMatch(true, s.chunk, s.scan).0;
    assert StepScan(s) == Release(s.(scan := r));
    assert StepScan(Seeded(s)) == Release(s.(scan := r.(missing := false)));
  }

  lemma {:induction false} ScanSeeded(s: State)
    requires !Faults(s.chunk, s.scan)
    ensures StepScan(Seeded(s)) == Seeded(StepScan(s))
  {
    hide StepScan, Seeded, FindMatch, Faults;
    if FindMatch(true, s.chunk, s.scan).1 { HitSeeded(s); } else { ReleaseSeeded(s); }
  }

  lemma {:induction false} TestSeeded(s: State)
    requires Can(s, Test) && !Step(s, Test).crashed
    ensures Step(Seeded(s), Test) == Seeded(Step(s, Test))
  {
    hide StepScan, Fetched;
    if s.got && !s.term && s.worker.call.WaitFor? { FaultCrashes(s); ScanSeeded(s); }
  }

  lemma FaultCrashes(s: State)
    ensures Faults(s.chunk, s.scan) ==> StepScan(s).crashed
  {
  }

  lemma {:induction false} AcceptSeeded(s: State, c: Chunk)
    ensures Accept(Seeded(s), c) == Seeded(Accept(s, c))
  {
    hide SignalGot;
  }

  lemma {:induction false} FeedSeeded(s: State, c: Chunk, len: nat)
    ensures StepFeed(Seeded(s), c, len) == Seeded(StepFeed(s, c, len))
  {
    hide Accept;
    if len > 0 && s.scan.first {
      var s1 := s.(scan := s.scan.(cur := c.start));
      assert StepFeed(s, c, len) == Accept(s1, c);
      FirstFed(s, c, len);
      AcceptSeeded(s1, c);
    } else if len > 0 {
      assert StepFeed(s, c, len) == Accept(s, c);
      AcceptSeeded(s, c);
    }
  }

  lemma FirstFed(s: State, c: Chunk, len: nat)
    requires len > 0 && s.scan.first
    ensures StepFeed(Seeded(s), c, len) == Accept(Seeded(s.(scan := s.scan.(cur := c.start))), c)
  {
    hide Accept;
  }

  lemma {:induction false} MovedSeeded(s: State, n: U64)
    ensures Moved(Seeded(s), n) == Seeded(Moved(s, n))
  {
    hide SignalHandled;
  }

  /** The samples are there to be consumed. */
  predicate Consumable(s: State, n: U64) {
    n > 0 && s.got && n <= Behind(s.scan.cur, s.chunk.end)
  }

  lemma ConsumeMoves(s: State, n: U64)
    requires Consumable(s, n)
    ensures StepConsume(s, n) == Moved(s.(scan := s.scan.(cur := Beyond(s.scan.cur, n), matched := false)), n)
  {
    hide Moved, Beyond, Behind;
  }

  lemma ConsumeFails(s: State, n: U64)
    requires !Consumable(s, n)
    ensures StepConsume(Seeded(s), n) == Seeded(StepConsume(s, n))
  {
    hide Moved, Beyond, Behind;
  }

  lemma {:induction false} ConsumeSeeded(s: State, n: U64)
    ensures StepConsume(Seeded(s), n) == Seeded(StepConsume(s, n))
  {
    hide Moved, Beyond, StepConsume;
    if Consumable(s, n) {
      var s1 := s.(scan := s.scan.(cur := Beyond(s.scan.cur, n), matched := false));
      ConsumeMoves(s, n);
      ConsumeMoves(Seeded(s), n);
      MovedSeeded(s1, n);
      assert Seeded(s1) == Seeded(s).(scan := Seeded(s).scan.(cur := Beyond(s.scan.cur, n), matched := false));
    } else {
      ConsumeFails(s, n);
    }
  }

  lemma {:induction false} StepSeededAlike(s: State, a: Action)
    requires Can(s, a) && !a.Join? && !Step(s, a).crashed
    ensures Can(Seeded(s), a) && Step(Seeded(s), a) == Seeded(Step(s, a))
  {
    hide StepTest, StepFeed, StepConsume;
    match a
    case Test => TestSeeded(s);
    case Feed(c, len) => FeedSeeded(s, c, len);
    case Consume(n) => ConsumeSeeded(s, n);
    case _ =>
  }

  /** A reset instance without pins does what one with its array does, step by step, until it crashes. */
  lemma {:induction false} LikeSeeded(s: State, actions: seq<Action>)
    requires Legal(s, actions) && NoJoin(actions) && !After(s, actions).crashed
    ensures Legal(Seeded(s), actions) && After(Seeded(s), actions) == Seeded(After(s, actions))
    decreases |actions|
  {
    hide Step, Can, Seeded;
    if actions != [] {
      var a, rest := actions[0], actions[1..];
      if Step(s, a).crashed { NothingAfter(Step(s, a), rest); }
      StepSeededAlike(s, a);
      LikeSeeded(Step(s, a), rest);
    }
  }

  /** After a reset without pins an instance does what a new one does, as long as it does not crash. */
  lemma {:induction false} ResetLikeNew(n: nat, mask: set<nat>, actions: seq<Action>)
    requires var missing := Initial(Start(Unset(n), true, mask));
             Legal(missing, actions) && NoJoin(actions) && !After(missing, actions).crashed
    ensures var missing, there := Initial(Start(Unset(n), true, mask)), Initial(Start(Unset(n), false, mask));
            Legal(there, actions) && After(there, actions) == Seeded(After(missing, actions))
  {
    hide Legal, After, NoJoin;
    LikeSeeded(Initial(Start(Unset(n), true, mask)), actions);
  }

  // ----- The run that crashes -----

  lemma {:induction false} NoJoinOn(actions: seq<Action>, a: Action)
    requires NoJoin(actions) && !a.Join?
    ensures NoJoin(actions + [a])
    decreases |actions|
  {
    if actions != [] {
      NoJoinOn(actions[1..], a);
      assert (actions + [a])[1..] == actions[1..] + [a];
    }
  }

  /** A step of such a run. */
  lemma {:induction false} OnWith(begin: Start, actions: seq<Action>, s: State, a: Action) returns (actions1: seq<Action>, s1: State)
    requires Goes(begin, actions, s) && NoJoin(actions) && Can(s, a) && FeedsSamples(a) && !a.Join?
    ensures Goes(begin, actions1, s1) && NoJoin(actions1) && actions1 == actions + [a] && s1 == Step(s, a)
  {
    hide Goes, NoJoin;
    GoesOn(begin, actions, s, a);
    NoJoinOn(actions, a);
    actions1, s1 := actions + [a], Step(s, a);
  }

  /** Any instance is fed a chunk; its decoder waits without conditions or fetches, and then waits for a
      term on a channel. This reads through the array if it is missing, and only then. */
  lemma {:induction false} BareWaitThenPin(begin: Start, c: Chunk, call: Call, t: Term) returns (actions: seq<Action>, s: State)
    requires c.start < c.end && !t.Skip? && (call == WaitFor([]) || (call.FetchUpTo? && call.max > 0))
    ensures Goes(begin, actions, s) && NoJoin(actions) && |actions| == 5
    ensures s.crashed <==> begin.missing
  {
    hide EventOf, Fetched, Goes, Faults, FindMatch;
    actions, s := [], Initial(begin);
    NotYet(begin);
    actions, s := OnWith(begin, actions, s, Feed(c, 1));
    actions, s := OnWith(begin, actions, s, Ask(call));
    NoConditions(c, s.scan);
    actions, s := OnWith(begin, actions, s, Test);
    actions, s := OnWith(begin, actions, s, Ask(WaitFor([[t]])));
    assert s.scan.groups[0] != [];
    assert TermsRead(c, s.scan, s.scan.groups[0], 0);
    if begin.missing { StepUnseeded(s, Test); } else { StepSeeded(s, Test); }
    actions, s := OnWith(begin, actions, s, Test);
  }
}
