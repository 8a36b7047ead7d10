/** `MCP::Transport::Stdio`: a single handler slot and the `start` loop that
    reads lines until end of input, strips them, skips blank ones, calls the
    handler and writes whatever non-nil value it returns. The input is the
    finite sequence of lines `STDIN.gets` returns before it returns nil; the
    output is the sequence of values written to STDOUT, one per line. */
module Transport {
  import opened Wrappers

  /** What one call of the handler does: the values it wrote to the output
      itself, in order, and the value it returned (`None` for nil); or an
      exception it raised. */
  datatype Reply<Out> = Reply(pushed: seq<Out>, response: Option<Out>) | Raised(message: string)

  /** The transport's state: the one callback slot, empty at construction. */
  datatype Stdio<Out> = Stdio(callback: Option<string -> Reply<Out>>)

  /** How `start` ends: the input ran out (a clean return), or an exception
      left the loop and was re-raised. Either way, `output` is what was
      written before the end. */
  datatype RunResult<Out> = Closed(output: seq<Out>) | Failed(output: seq<Out>, message: string)

  function NewStdio<Out>(): (t: Stdio<Out>)
    ensures t.callback.None?
  {
    Stdio(None)
  }

  /** `on_message(&block)`: the new block takes the single slot, whatever
      was there before. */
  function OnMessage<Out>(t: Stdio<Out>, handler: string -> Reply<Out>): (t': Stdio<Out>)
    ensures t'.callback.Some? && t'.callback.value == handler
  {
    t.(callback := Some(handler))
  }

  // ---------------------------------------------------------------------------
  // String#strip

  /** The characters `String#strip` removes: NUL, tab, line feed, vertical
      tab, form feed, carriage return and space. */
  predicate IsSpace(c: char) {
    c == '\0' || c == '\t' || c == '\n' || c == '\U{B}' || c == '\U{C}' || c == '\r' || c == ' '
  }

  predicate AllSpace(s: string) {
    forall i :: 0 <= i < |s| ==> IsSpace(s[i])
  }

  /** Drops the leading whitespace: what is left is a suffix that is empty or
      starts with a non-space. */
  function LStrip(s: string): (r: string)
    ensures |r| <= |s| && r == s[|s| - |r|..]
    ensures AllSpace(s[..|s| - |r|])
    ensures r == [] || !IsSpace(r[0])
    decreases |s|
  {
    if |s| > 0 && IsSpace(s[0]) then
      var r := LStrip(s[1..]);
      assert s[..|s| - |r|] == [s[0]] + s[1..][..|s| - 1 - |r|];
      r
    else s
  }

  /** Drops the trailing whitespace: what is left is a prefix that is empty or
      ends with a non-space. */
  function RStrip(s: string): (r: string)
    ensures |r| <= |s| && r == s[..|r|]
    ensures AllSpace(s[|r|..])
    ensures r == [] || !IsSpace(r[|r| - 1])
    decreases |s|
  {
    if |s| > 0 && IsSpace(s[|s| - 1]) then
      var r := RStrip(s[..|s| - 1]);
      assert s[|r|..] == s[..|s| - 1][|r|..] + [s[|s| - 1]];
      r
    else s
  }

  /** A string is all whitespace exactly when both sides of any cut are. */
  lemma AllSpaceSplit(s: string, k: nat)
    requires k <= |s|
    ensures AllSpace(s) <==> AllSpace(s[..k]) && AllSpace(s[k..])
  {
    if AllSpace(s[..k]) && AllSpace(s[k..]) {
      forall i | 0 <= i < |s|
        ensures IsSpace(s[i])
      {
        if i < k {
          assert s[i] == s[..k][i];
        } else {
          assert s[i] == s[k..][i - k];
        }
      }
    }
  }

  /** `String#strip`: the part of `s` between its leading and its trailing
      whitespace. It is empty exactly when `s` is all whitespace; see
      StripTrimsBothEnds for what it keeps. */
  function Strip(s: string): (r: string)
    ensures r == [] <==> AllSpace(s)
    ensures |r| <= |s|
  {
    var left := LStrip(s);
    var r := RStrip(left);
    AllSpaceSplit(s, |s| - |left|);
    AllSpaceSplit(left, |r|);
    r
  }

  /** Neither end of what `strip` keeps is whitespace. */
  lemma StripTrimsBothEnds(s: string)
    ensures Strip(s) != [] ==> !IsSpace(Strip(s)[0]) && !IsSpace(Strip(s)[|Strip(s)| - 1])
  {
    var left := LStrip(s);
    var r := RStrip(left);
    assert Strip(s) == r;
    if r != [] {
      assert r[0] == left[0];
    }
  }

  /** What `strip` keeps is a slice of `s` with only whitespace on either
      side of it. */
  lemma StripKeepsASlice(s: string)
    ensures exists i :: 0 <= i <= |s| - |Strip(s)| && Strip(s) == s[i..i + |Strip(s)|]
                        && AllSpace(s[..i]) && AllSpace(s[i + |Strip(s)|..])
  {
    var left := LStrip(s);
    var r := RStrip(left);
    var i := |s| - |left|;
    assert Strip(s) == r;
    PrefixOfSuffix(s, left, r, i);
    assert 0 <= i <= |s| - |r| && r == s[i..i + |r|] && AllSpace(s[..i]) && AllSpace(s[i + |r|..]);
  }

  /** A prefix `r` of a suffix `left` of `s` is the slice of `s` that starts
      where `left` does; what follows `r` in `left` is what follows it in `s`. */
  lemma PrefixOfSuffix(s: string, left: string, r: string, i: nat)
    requires i + |left| == |s| && left == s[i..]
    requires |r| <= |left| && r == left[..|r|] && AllSpace(left[|r|..])
    ensures r == s[i..i + |r|] && AllSpace(s[i + |r|..])
  {
    assert s[i + |r|..] == left[|r|..];
  }

  lemma StripIsIdempotent(s: string)
    ensures Strip(Strip(s)) == Strip(s)
  {
    var r := Strip(s);
    StripTrimsBothEnds(s);
    assert LStrip(r) == r;
    assert RStrip(r) == r;
  }

  // ---------------------------------------------------------------------------
  // The loop

  /** `@callback.call(line) if @callback`: with no handler the value is nil. */
  function Call<Out>(t: Stdio<Out>, line: string): (r: Reply<Out>)
    ensures t.callback.None? ==> r == Reply([], None)
  {
    match t.callback
    case None => Reply([], None)
    case Some(h) => h(line)
  }

  /** What reaches the output for one reply: the handler's own writes, then
      its return value when that is not nil. */
  function Emitted<Out>(reply: Reply<Out>): (out: seq<Out>)
    requires reply.Reply?
    ensures |out| == |reply.pushed| + (if reply.response.Some? then 1 else 0)
  {
    reply.pushed + (if reply.response.Some? then [reply.response.value] else [])
  }

  function Prepend<Out>(out: seq<Out>, rest: RunResult<Out>): RunResult<Out> {
    match rest
    case Closed(o) => Closed(out + o)
    case Failed(o, e) => Failed(out + o, e)
  }

  /** The handler never writes to the output on its own. */
  ghost predicate Quiet<Out>(t: Stdio<Out>) {
    forall line :: Call(t, line).Reply? ==> Call(t, line).pushed == []
  }

  /** The lines the handler receives: each input line stripped, the empty
      results dropped, in input order. */
  function Delivered(input: seq<string>): (lines: seq<string>)
    ensures |lines| <= |input|
    ensures forall i :: 0 <= i < |lines| ==> lines[i] != []
  {
    if |input| == 0 then []
    else
      var line := Strip(input[0]);
      var rest := Delivered(input[1..]);
      if line == [] then rest else [line] + rest
  }

  /** One turn of the loop on an already stripped line, given what the rest
      of the loop does: a blank line is skipped, a raise ends the loop, and a
      reply is written ahead of the rest. */
  function Step<Out>(t: Stdio<Out>, line: string, rest: RunResult<Out>): (r: RunResult<Out>)
    ensures line == [] ==> r == rest
    ensures line != [] && Call(t, line).Raised? ==> r == Failed([], Call(t, line).message)
    ensures line != [] && Call(t, line).Reply? ==>
      r.Closed? == rest.Closed? && r.output == Emitted(Call(t, line)) + rest.output
  {
    if line == [] then rest
    else
      match Call(t, line)
      case Raised(e) => Failed([], e)
      case Reply(_, _) => Prepend(Emitted(Call(t, line)), rest)
  }

  /** `start`: the loop folded over the lines read before end of input. A
      quiet handler produces at most one output per non-blank line; with no
      handler nothing is written. */
  function Start<Out>(t: Stdio<Out>, input: seq<string>): (r: RunResult<Out>)
    ensures t.callback.None? ==> r == Closed([])
    ensures Quiet(t) ==> |r.output| <= |Delivered(input)|
    decreases |input|
  {
    if |input| == 0 then Closed([]) else Step(t, Strip(input[0]), Start(t, input[1..]))
  }

  // ---------------------------------------------------------------------------
  // Properties of the loop

  /** Nothing after a raise is read: the loop over `xs + ys` is the loop
      over `xs` followed, only when that one reached the end of `xs` without
      a raise, by the loop over `ys`. */
  function Continue<Out>(t: Stdio<Out>, first: RunResult<Out>, ys: seq<string>): RunResult<Out> {
    match first
    case Closed(o) => Prepend(o, Start(t, ys))
    case Failed(o, e) => Failed(o, e)
  }

  lemma {:induction false} StartSplits<Out>(t: Stdio<Out>, xs: seq<string>, ys: seq<string>)
    ensures Start(t, xs + ys) == Continue(t, Start(t, xs), ys)
    decreases |xs|
  {
    if |xs| == 0 {
      assert xs + ys == ys;
    } else {
      assert (xs + ys)[0] == xs[0];
      assert (xs + ys)[1..] == xs[1..] + ys;
      StartSplits(t, xs[1..], ys);
      var line := Strip(xs[0]);
      if line != [] && Call(t, line).Reply? {
        var out := Emitted(Call(t, line));
        match Start(t, xs[1..])
        case Closed(o) =>
          assert out + (o + Start(t, ys).output) == (out + o) + Start(t, ys).output;
        case Failed(o, e) =>
      }
    }
  }

  /** The handler sees the stripped, non-blank lines and nothing else: the
      loop over the input behaves as the loop over those lines. */
  lemma {:induction false} StartSeesOnlyDelivered<Out>(t: Stdio<Out>, input: seq<string>)
    ensures Start(t, input) == Start(t, Delivered(input))
    decreases |input|
  {
    if |input| > 0 {
      StartSeesOnlyDelivered(t, input[1..]);
      var line := Strip(input[0]);
      if line != [] {
        var d := Delivered(input);
        assert d[0] == line && d[1..] == Delivered(input[1..]);
      }
    }
  }

  /** The handler raises on none of `lines`. */
  predicate NeverRaises<Out>(t: Stdio<Out>, lines: seq<string>) {
    forall i :: 0 <= i < |lines| ==> Call(t, lines[i]).Reply?
  }

  /** What a run of replies writes: each reply's own writes and its non-nil
      value, one line after another. */
  function Emissions<Out>(t: Stdio<Out>, lines: seq<string>): seq<Out>
    requires NeverRaises(t, lines)
    decreases |lines|
  {
    if |lines| == 0 then [] else Emitted(Call(t, lines[0])) + Emissions(t, lines[1..])
  }

  /** When the handler never raises, `start` returns normally at end of input
      having written exactly the replies to the delivered lines, in input
      order. */
  lemma {:induction false} StartEmitsInOrder<Out>(t: Stdio<Out>, input: seq<string>)
    requires NeverRaises(t, Delivered(input))
    ensures Start(t, input) == Closed(Emissions(t, Delivered(input)))
    decreases |input|
  {
    if |input| > 0 {
      var d := Delivered(input);
      var rest := Delivered(input[1..]);
      var line := Strip(input[0]);
      if line == [] {
        assert d == rest;
        StartEmitsInOrder(t, input[1..]);
      } else {
        assert d == [line] + rest;
        assert d[0] == line && d[1..] == rest;
        assert NeverRaises(t, rest) by {
          forall i | 0 <= i < |rest|
            ensures Call(t, rest[i]).Reply?
          {
            assert rest[i] == d[i + 1];
          }
        }
        assert Call(t, line).Reply? by {
          assert d[0] == line;
        }
        StartEmitsInOrder(t, input[1..]);
        assert Emissions(t, d) == Emitted(Call(t, line)) + Emissions(t, rest);
      }
    }
  }

  /** When the handler first raises on the `k`-th delivered line, `start`
      fails with that exception after writing the replies to the lines
      before it, and reads nothing more. */
  lemma {:induction false} StartStopsAtRaise<Out>(t: Stdio<Out>, input: seq<string>, k: nat)
    requires k < |Delivered(input)|
    requires NeverRaises(t, Delivered(input)[..k])
    requires Call(t, Delivered(input)[k]).Raised?
    ensures Start(t, input) == Failed(Emissions(t, Delivered(input)[..k]), Call(t, Delivered(input)[k]).message)
    decreases |input|
  {
    var d := Delivered(input);
    var line := Strip(input[0]);
    var rest := Delivered(input[1..]);
    assert Start(t, input) == Step(t, line, Start(t, input[1..]));
    if line == [] {
      assert d == rest;
      StartStopsAtRaise(t, input[1..], k);
    } else {
      assert d[0] == line && d[1..] == rest;
      if k == 0 {
        assert Call(t, line).Raised?;
      } else {
        assert d[..k][0] == line;
        assert d[..k][1..] == rest[..k - 1];
        NeverRaisesTail(t, d[..k]);
        StartStopsAtRaise(t, input[1..], k - 1);
        assert Emissions(t, d[..k]) == Emitted(Call(t, line)) + Emissions(t, rest[..k - 1]);
      }
    }
  }

  /** A run of replies stays one after its first line. */
  lemma NeverRaisesTail<Out>(t: Stdio<Out>, lines: seq<string>)
    requires |lines| > 0 && NeverRaises(t, lines)
    ensures Call(t, lines[0]).Reply? && NeverRaises(t, lines[1..])
  {
    var tail := lines[1..];
    forall i | 0 <= i < |tail|
      ensures Call(t, tail[i]).Reply?
    {
      assert tail[i] == lines[i + 1];
    }
  }

  /** A run over one non-blank line the handler answers writes that reply. */
  lemma RunOfOneLine<Out>(t: Stdio<Out>, line: string)
    requires Strip(line) != [] && Call(t, Strip(line)).Reply?
    ensures Start(t, [line]) == Closed(Emitted(Call(t, Strip(line))))
  {
    assert [line][1..] == [];
    assert Start(t, [line]) == Step(t, Strip(line), Closed([]));
  }

  /** A run over two non-blank lines the handler answers writes the two
      replies in order. */
  lemma RunOfTwoLines<Out>(t: Stdio<Out>, a: string, b: string)
    requires Strip(a) != [] && Call(t, Strip(a)).Reply?
    requires Strip(b) != [] && Call(t, Strip(b)).Reply?
    ensures Start(t, [a, b]) == Closed(Emitted(Call(t, Strip(a))) + Emitted(Call(t, Strip(b))))
  {
    assert [a, b][1..] == [b];
    RunOfOneLine(t, b);
    assert Start(t, [a, b]) == Step(t, Strip(a), Start(t, [b]));
  }

  /** The same, for two lines answered by a response each and nothing
      pushed. */
  lemma RunOfTwoAnswers<Out>(t: Stdio<Out>, a: string, b: string, ra: Out, rb: Out)
    requires Strip(a) != [] && Call(t, Strip(a)) == Reply([], Some(ra))
    requires Strip(b) != [] && Call(t, Strip(b)) == Reply([], Some(rb))
    ensures Start(t, [a, b]) == Closed([ra, rb])
  {
    assert [a, b][1..] == [b];
    assert Start(t, [b]) == Closed([rb]) by {
      RunOfOneLine(t, b);
    }
    assert Start(t, [a, b]) == Step(t, Strip(a), Start(t, [b]));
  }

  /** Only the most recently registered handler is ever called. */
  lemma LastHandlerWins<Out>(t: Stdio<Out>, first: string -> Reply<Out>, last: string -> Reply<Out>, input: seq<string>)
    ensures Start(OnMessage(OnMessage(t, first), last), input) == Start(OnMessage(NewStdio(), last), input)
  {
  }
}
