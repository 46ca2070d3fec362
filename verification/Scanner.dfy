/** The sample scanner of instance.c: what one call of the condition scanner does to a
    decoder instance, and what a wait does over the chunks it is fed. */
module Scanner {

  // ----- Sample numbers, pins and chunks -----

  const U64_MAX: nat := 0xFFFF_FFFF_FFFF_FFFF

  type U64 = n: nat | n <= U64_MAX

  /** `x--` on a 64-bit counter. */
  function Dec(x: U64): U64 {
    if x == 0 then U64_MAX else x - 1
  }

  /** `x++` on a 64-bit counter. */
  function Inc(x: U64): U64 {
    if x == U64_MAX then 0 else x + 1
  }

  /** One value per channel: 0 or 1; 2 stands for an initial pin "same as sample 0". */
  type Pins = seq<nat>

  const SAME_AS_SAMPLE0: nat := 2

  function Pin(pins: Pins, ch: nat): nat {
    if ch < |pins| then pins[ch] else 0
  }

  /** One fed buffer: samples [start, end). The channels in fixed were handed over as one level,
      the others as packed bits; rows[t - start] holds the unpacked bits of sample t. */
  datatype Chunk = Chunk(start: U64, end: U64, rows: seq<Pins>, fixed: map<nat, nat>) {

    predicate Has(t: nat) {
      start <= t < end
    }

    /** The level of a channel; outside the chunk a packed channel reads as 0. */
    function Level(t: nat, ch: nat): nat {
      if ch in fixed then fixed[ch]
      else if Has(t) && t - start < |rows| then Pin(rows[t - start], ch)
      else 0
    }
  }

  function PinsAt(c: Chunk, t: nat, n: nat): (p: Pins)
    ensures |p| == n
    ensures forall ch :: 0 <= ch < n ==> p[ch] == c.Level(t, ch)
  {
    seq(n, ch requires 0 <= ch < n => c.Level(t, ch))
  }

  // ----- Conditions -----

  datatype Term =
    | High(ch: nat) | Low(ch: nat)
    | Rising(ch: nat) | Falling(ch: nat) | EitherEdge(ch: nat) | NoEdge(ch: nat)
    | Skip(count: nat, skipped: nat)

  /** Terms joined by AND; an empty group stands for a NULL condition. */
  type Group = seq<Term>

  predicate PinMatches(before: nat, now: nat, t: Term)
    requires !t.Skip?
  {
    match t
    case High(_) => now == 1
    case Low(_) => now == 0
    case Rising(_) => before == 0 && now == 1
    case Falling(_) => before == 1 && now == 0
    case EitherEdge(_) => (before == 1 && now == 0) || (before == 0 && now == 1)
    case NoEdge(_) => (before == 0 && now == 0) || (before == 1 && now == 1)
  }

  predicate HaveConditions(groups: seq<Group>) {
    exists j :: 0 <= j < |groups| && groups[j] != []
  }

  // ----- The scan itself -----

  /** The scanning fields of a decoder instance. mask holds the set bits of match_array; missing says
      that old_pins_array is NULL, prev then only has its future length. */
  datatype Scan = Scan(cur: U64, matched: bool, zero: bool, first: bool, prev: Pins, missing: bool,
                       groups: seq<Group>, mask: set<nat>)

  datatype TermOutcome = TermOutcome(term: Term, zero: bool, ok: bool, skip: bool)

  /** Evaluates one term at the current sample: the counted term, skip_zero, match, skip_allow. */
  function TermAt(c: Chunk, st: Scan, zero: bool, t: Term): TermOutcome {
    if t.Skip? then
      var zero1 := zero || (st.matched && t.count == 0);
      if t.skipped == t.count then TermOutcome(t, zero1, true, false)
      else TermOutcome(t.(skipped := t.skipped + 1), zero1, false, false)
    else if t.ch in c.fixed then
      TermOutcome(t, zero, PinMatches(Pin(st.prev, t.ch), c.fixed[t.ch], t), true)
    else if !c.Has(st.cur) then TermOutcome(t, zero, false, true)
    else TermOutcome(t, zero, PinMatches(Pin(st.prev, t.ch), c.Level(st.cur, t.ch), t), false)
  }

  datatype GroupOutcome = GroupOutcome(group: Group, zero: bool, ok: bool, skip: bool)

  /** Evaluates the terms k, k+1, ... of a group up to the first that fails. */
  function TermsFrom(c: Chunk, st: Scan, zero: bool, g: Group, k: nat, skip: bool): (r: GroupOutcome)
    requires k <= |g|
    ensures |r.group| == |g|
    decreases |g| - k
  {
    if k == |g| then GroupOutcome(g, zero, true, skip)
    else
      var r := TermAt(c, st, zero, g[k]);
      if r.ok then TermsFrom(c, st, r.zero, g[k := r.term], k + 1, r.skip)
      else GroupOutcome(g[k := r.term], r.zero, false, r.skip)
  }

  /** Evaluates group j, if it is not NULL; a match clears skip_zero and then steps back one sample. */
  function GroupAt(c: Chunk, st: Scan, j: nat): (r: (Scan, bool))
    requires j < |st.groups|
    ensures |r.0.groups| == |st.groups|
    ensures r.0 == st.(cur := r.0.cur, zero := r.0.zero, groups := r.0.groups, mask := r.0.mask)
    ensures st.mask <= r.0.mask && (r.0.mask == {} ==> r.0.cur == st.cur)
  {
    var g := TermsFrom(c, st, st.zero, st.groups[j], 0, false);
    var st1 := st.(zero := g.zero, groups := st.groups[j := g.group]);
    if st.groups[j] == [] then (st, true)
    else if !g.ok then (st1, g.skip)
    else (st1.(cur := if g.zero then Dec(st.cur) else st.cur, zero := false, mask := st.mask + {j}), false)
  }

  /** Evaluates the groups j, j+1, ... and collects the matching ones in the mask. */
  function GroupsFrom(c: Chunk, st: Scan, j: nat, allSkip: bool): (r: (Scan, bool))
    requires j <= |st.groups|
    ensures r.0 == st.(cur := r.0.cur, zero := r.0.zero, groups := r.0.groups, mask := r.0.mask)
    ensures |r.0.groups| == |st.groups|
    ensures st.mask <= r.0.mask && (r.0.mask == {} ==> r.0.cur == st.cur)
    ensures r.1 ==> allSkip
    decreases |st.groups| - j
  {
    if j == |st.groups| then (st, allSkip)
    else
      var (st1, skip) := GroupAt(c, st, j);
      GroupsFrom(c, st1, j + 1, allSkip && skip)
  }

  /** Evaluates every group at the current sample and remembers its pins. */
  function Sample(c: Chunk, st: Scan, allSkip: bool): (r: (Scan, bool))
    ensures r.0.matched <==> r.0.mask != {}
    ensures !r.0.matched ==> r.0.cur == st.cur
    ensures r.0.first == st.first
    ensures r.1 ==> allSkip
  {
    var (st1, skip) := GroupsFrom(c, st, 0, allSkip);
    (st1.(prev := PinsAt(c, st1.cur, |st.prev|), missing := false, matched := st1.mask != {}), skip)
  }

  /** The loop over the samples of a chunk. With jump the loop moves to the chunk's end as soon
      as every group has only failed on constant channels, as the code does; without, it is the
      plain per-sample scan. */
  function ScanLoop(jump: bool, c: Chunk, st: Scan, allSkip: bool): (r: (Scan, bool))
    ensures r.0.first == st.first && |r.0.prev| == |st.prev|
    ensures r.1 ==> r.0.mask != {} && r.0.matched
    ensures !r.1 && st.cur <= c.end ==> r.0.cur == c.end
    ensures !r.1 && st.mask == {} ==> r.0.mask == {}
    ensures !r.1 && st.cur < c.end ==> !r.0.matched
    ensures !r.1 && st.cur >= c.end ==> r.0 == st
    decreases if st.cur < c.end then c.end - st.cur else 0
  {
    if st.cur >= c.end then (st, false)
    else
      var (st1, skip) := Sample(c, st, allSkip);
      if st1.matched then (st1, true)
      else if jump && skip then ScanLoop(jump, c, st1.(cur := c.end), skip)
      else ScanLoop(jump, c, st1.(cur := Inc(st1.cur)), skip)
  }

  function RestartGroup(g: Group): (r: Group)
    ensures |r| == |g|
    ensures forall k :: 0 <= k < |g| ==> r[k] == if g[k].Skip? && g[k].count > 0 then g[k].(skipped := 1) else g[k]
  {
    seq(|g|, k requires 0 <= k < |g| =>
      if g[k].Skip? && g[k].count > 0 then g[k].(skipped := 1) else g[k])
  }

  /** Restarts every non-zero skip count: the stepped-over sample is the first one skipped. */
  function RestartSkips(groups: seq<Group>): (r: seq<Group>)
    ensures |r| == |groups|
    ensures forall j :: 0 <= j < |groups| ==> r[j] == RestartGroup(groups[j])
  {
    seq(|groups|, j requires 0 <= j < |groups| => RestartGroup(groups[j]))
  }

  /** Replaces the "same as sample 0" pins by the pins of the current sample. */
  function InitialPins(c: Chunk, t: nat, prev: Pins): (p: Pins)
    ensures |p| == |prev|
    ensures forall ch :: 0 <= ch < |prev| && prev[ch] != 2 ==> p[ch] == prev[ch]
    ensures forall ch :: 0 <= ch < |prev| && prev[ch] == 2 ==> p[ch] == c.Level(t, ch)
  {
    seq(|prev|, ch requires 0 <= ch < |prev| => if prev[ch] == SAME_AS_SAMPLE0 then c.Level(t, ch) else prev[ch])
  }

  /** State on entry of the sample loop. */
  function Enter(c: Chunk, st: Scan): (r: Scan)
    ensures |r.prev| == |st.prev| && !r.first
  {
    var prev := if st.first then InitialPins(c, st.cur, st.prev) else st.prev;
    var st1 := st.(first := false, prev := prev, missing := st.missing && !st.first, mask := {});
    if st1.matched then st1.(cur := Inc(st1.cur), groups := RestartSkips(st1.groups)) else st1
  }

  /** One call of the scanner on the current chunk. */
  function FindMatch(jump: bool, c: Chunk, st: Scan): (r: (Scan, bool))
    ensures |r.0.prev| == |st.prev|
  {
    if !HaveConditions(st.groups) then (st, true)
    else ScanLoop(jump, c, Enter(c, st), true)
  }

  // ----- Reading remembered pins that are not there -----

  /** Evaluating the terms k, k+1, ... gets to a remembered pin: only finished skips stand in front of a
      term on a channel that is constant or in range. */
  predicate TermsRead(c: Chunk, st: Scan, g: Group, k: nat)
    decreases |g| - k
  {
    && k < |g|
    && (if g[k].Skip? then g[k].skipped == g[k].count && TermsRead(c, st, g, k + 1)
        else g[k].ch in c.fixed || c.Has(st.cur))
  }

  /** So does evaluating the groups j, j+1, ... */
  predicate GroupsRead(c: Chunk, st: Scan, j: nat)
    requires j <= |st.groups|
    decreases |st.groups| - j
  {
    j < |st.groups| && (TermsRead(c, st, st.groups[j], 0) || GroupsRead(c, GroupAt(c, st, j).0, j + 1))
  }

  /** One call of the scanner reads through old_pins_array while it is NULL. Only the first sample it
      examines can be the one: the pins are there afterwards. */
  predicate Faults(c: Chunk, st: Scan) {
    && HaveConditions(st.groups)
    && var st1 := Enter(c, st);
       st1.missing && st1.cur < c.end && GroupsRead(c, st1, 0)
  }

  // ----- Waits over a sequence of chunks -----

  datatype WaitResult = Blocked | Hit(st: Scan, rest: seq<Chunk>)

  predicate IsSuffix(rest: seq<Chunk>, chunks: seq<Chunk>) {
    rest == chunks || (chunks != [] && IsSuffix(rest, chunks[1..]))
  }

  /** One wait: scans chunk after chunk, releasing each one that holds no match. rest starts with
      the chunk in which the match was found. Blocked means every chunk was released. */
  function Wait(jump: bool, st: Scan, chunks: seq<Chunk>): (r: WaitResult)
    ensures r.Hit? ==> r.rest != [] && IsSuffix(r.rest, chunks)
    ensures r.Hit? ==> |r.st.prev| == |st.prev| && !r.st.first
    decreases |chunks|
  {
    if chunks == [] then Blocked
    else
      var (st1, found) := FindMatch(jump, chunks[0], st);
      if found then Hit(st1.(first := false), chunks)
      else Wait(jump, st1, chunks[1..])
  }

  // ----- Runs: a decoder that keeps waiting -----

  /** What a successful wait reports: sample number, matched groups and pin values. */
  datatype Event = Event(sample: U64, mask: set<nat>, pins: Pins)

  function EventOf(s: Scan, c: Chunk): Event {
    Event(s.cur, s.mask, PinsAt(c, s.cur, |s.prev|))
  }

  /** A decoder, seen from its waits: which conditions it asks for after what it has seen. */
  type Decoder = seq<Event> -> seq<Group>

  /** An empty condition list leaves the previous one in place. */
  function Install(st: Scan, groups: seq<Group>): Scan {
    if groups == [] then st else st.(groups := groups)
  }

  /** The events of the next n waits of a decoder that has already seen the events in seen. */
  function Run(jump: bool, next: Decoder, seen: seq<Event>, n: nat, st: Scan, chunks: seq<Chunk>): (trace: seq<Event>)
    ensures |trace| <= n
    decreases n
  {
    if n == 0 then []
    else
      match Wait(jump, Install(st, next(seen)), chunks)
      case Blocked => []
      case Hit(s, rest) =>
        var e := EventOf(s, rest[0]);
        [e] + Run(jump, next, seen + [e], n - 1, s, rest)
  }
}
