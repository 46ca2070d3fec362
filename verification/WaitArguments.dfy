/** c_wait of c_decoder_api.c: its argument list and the OR of AND-groups made from it. */
module WaitArguments {
  import opened Scanner

  const OR: int := -1
  const END: int := -2
  const SKIP_TYPE: int := 6

  /** An argument: an encoded term or separator, or the sample count behind a SKIP. */
  datatype Arg = Code(arg: int) | Count(n: nat)

  /** CW_H, ..., CW_SKIP: (type << 16) | channel; a SKIP has all channel bits set. */
  function Encoded(t: Term): seq<Arg> {
    match t
    case High(ch) => [Code(0x00000 + ch)]
    case Low(ch) => [Code(0x10000 + ch)]
    case Rising(ch) => [Code(0x20000 + ch)]
    case Falling(ch) => [Code(0x30000 + ch)]
    case EitherEdge(ch) => [Code(0x40000 + ch)]
    case NoEdge(ch) => [Code(0x50000 + ch)]
    case Skip(count, _) => [Code(0x6FFFF), Count(count)]
  }

  /** The term an argument stands for; types above SKIP are none. */
  function Decoded(arg: int): Term
    requires arg >= 0 && (arg / 0x10000) % 0x10000 != SKIP_TYPE
  {
    var kind, ch := (arg / 0x10000) % 0x10000, arg % 0x10000;
    if kind == 0 then High(ch) else if kind == 1 then Low(ch) else if kind == 2 then Rising(ch)
    else if kind == 3 then Falling(ch) else if kind == 4 then EitherEdge(ch) else NoEdge(ch)
  }

  /** A group is kept only if it has a term. */
  function Flush(groups: seq<Group>, current: Group): seq<Group> {
    if current == [] then groups else groups + [current]
  }

  /** A legal list: it ends, every code is a separator or a term, every SKIP has its count. */
  predicate Legal(args: seq<Arg>)
    decreases |args|
  {
    args != [] && args[0].Code? &&
    (args[0].arg == END ||
     (if args[0].arg == OR then Legal(args[1..])
      else args[0].arg >= 0 && (args[0].arg / 0x10000) % 0x10000 <= SKIP_TYPE &&
           if (args[0].arg / 0x10000) % 0x10000 == SKIP_TYPE then |args| > 1 && args[1].Count? && Legal(args[2..])
           else Legal(args[1..])))
  }

  /** The groups read from the arguments, with those already complete and the one under way. */
  function Parse(args: seq<Arg>, groups: seq<Group>, current: Group): seq<Group>
    requires Legal(args)
    decreases |args|
  {
    var arg := args[0].arg;
    if arg == END then Flush(groups, current)
    else if arg == OR then Parse(args[1..], Flush(groups, current), [])
    else if (arg / 0x10000) % 0x10000 == SKIP_TYPE then Parse(args[2..], groups, current + [Skip(args[1].n, 0)])
    else Parse(args[1..], groups, current + [Decoded(arg)])
  }

  /** The loop over the arguments. */
  method ConditionList(args: seq<Arg>) returns (orGroups: seq<Group>)
    requires Legal(args)
    ensures orGroups == Parse(args, [], [])
  {
    orGroups := [];
    var currentAnd: Group := [];
    var i := 0;
    while args[i].arg != END
      invariant i < |args| && Legal(args[i..]) && args[i].Code?
      invariant Parse(args[i..], orGroups, currentAnd) == Parse(args, [], [])
      decreases |args| - i
    {
      var arg := args[i].arg;
      assert args[i..][1..] == args[i + 1..];
      if arg == OR {
        if currentAnd != [] {
          orGroups := orGroups + [currentAnd];
          currentAnd := [];
        }
      } else if (arg / 0x10000) % 0x10000 == SKIP_TYPE {
        i := i + 1;
        assert args[i - 1..][2..] == args[i + 1..];
        currentAnd := currentAnd + [Skip(args[i].n, 0)];
      } else {
        currentAnd := currentAnd + [Decoded(arg)];
      }
      i := i + 1;
    }
    if currentAnd != [] {
      orGroups := orGroups + [currentAnd];
    }
  }

  // ----- What the macros write, c_wait reads -----

  function EncodedGroup(g: Group): seq<Arg> {
    if g == [] then [] else Encoded(g[0]) + EncodedGroup(g[1..])
  }

  /** The argument list for an OR of AND-groups, CW_OR being -1 and CW_END -2. */
  function EncodedList(groups: seq<Group>): seq<Arg> {
    if groups == [] then [Code(-2)]
    else if |groups| == 1 then EncodedGroup(groups[0]) + [Code(-2)]
    else EncodedGroup(groups[0]) + [Code(-1)] + EncodedList(groups[1..])
  }

  /** Channels have sixteen bits, and skips have not counted yet. */
  predicate Writable(t: Term) {
    if t.Skip? then t.skipped == 0 else t.ch < 0x10000
  }

  predicate AllWritable(g: Group) {
    forall k :: 0 <= k < |g| ==> Writable(g[k])
  }

  function NonEmpty(groups: seq<Group>): seq<Group> {
    if groups == [] then [] else Flush([], groups[0]) + NonEmpty(groups[1..])
  }

  lemma {:induction false} TermParses(t: Term, more: seq<Arg>, groups: seq<Group>, current: Group)
    requires Writable(t) && Legal(more)
    ensures Legal(Encoded(t) + more)
    ensures Parse(Encoded(t) + more, groups, current) == Parse(more, groups, current + [t])
  {
    var args := Encoded(t) + more;
    if t.Skip? {
      assert args[2..] == more && args[1] == Count(t.count);
    } else {
      assert args[1..] == more;
      assert Decoded(args[0].arg) == t;
    }
  }

  lemma {:induction false} GroupParses(g: Group, rest: seq<Arg>, groups: seq<Group>, current: Group)
    requires AllWritable(g) && Legal(rest)
    ensures Legal(EncodedGroup(g) + rest)
    ensures Parse(EncodedGroup(g) + rest, groups, current) == Parse(rest, groups, current + g)
    decreases |g|
  {
    hide Legal, Parse, Encoded, Writable;
    if g == [] {
      assert EncodedGroup(g) + rest == rest && current + g == current;
    } else {
      assert Writable(g[0]);
      GroupParses(g[1..], rest, groups, current + [g[0]]);
      TermParses(g[0], EncodedGroup(g[1..]) + rest, groups, current);
      assert current + [g[0]] + g[1..] == current + g;
      assert EncodedGroup(g) + rest == Encoded(g[0]) + (EncodedGroup(g[1..]) + rest);
    }
  }

  lemma Separator(more: seq<Arg>, groups: seq<Group>, current: Group)
    requires Legal(more)
    ensures Legal([Code(OR)] + more) && Parse([Code(OR)] + more, groups, current) == Parse(more, Flush(groups, current), [])
  {
    assert ([Code(OR)] + more)[1..] == more;
  }

  lemma End(groups: seq<Group>, current: Group)
    ensures Legal([Code(END)]) && Parse([Code(END)], groups, current) == Flush(groups, current)
  {
  }

  lemma NothingFlushed(groups: seq<Group>)
    ensures Flush(groups, []) == groups
  {
  }

  lemma FlushIn(groups: seq<Group>, g: Group, more: seq<Group>)
    ensures Flush(groups, g) + more == groups + (Flush([], g) + more)
  {
  }

  /** The groups come back as written, without empty ones; with no term at all the list is empty, and
      wait then keeps its previous conditions. */
  lemma {:induction false} ListParses(groups: seq<Group>, done: seq<Group>)
    requires forall j :: 0 <= j < |groups| ==> AllWritable(groups[j])
    ensures Legal(EncodedList(groups))
    ensures Parse(EncodedList(groups), done, []) == done + NonEmpty(groups)
    decreases |groups|
  {
    hide AllWritable, Legal, Parse, Flush, EncodedGroup;
    End(done, []);
    if groups == [] {
      NothingFlushed(done);
    } else {
      var g, more := groups[0], groups[1..];
      assert [] + g == g;
      FlushIn(done, g, NonEmpty(more));
      if more == [] {
        GroupParses(g, [Code(END)], done, []);
        End(done, g);
      } else {
        ListParses(more, Flush(done, g));
        Separator(EncodedList(more), done, g);
        GroupParses(g, [Code(OR)] + EncodedList(more), done, []);
        assert EncodedGroup(g) + [Code(OR)] + EncodedList(more) == EncodedGroup(g) + ([Code(OR)] + EncodedList(more));
      }
    }
  }
}
