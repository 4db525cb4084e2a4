/** Which commands are confirmed: in a terminal that echoes, exactly those that were typed, in order; and in every
    run a queued line at the next line break, if and only if it was shown. */
module EchoGuardSessions {
  import opened Sequences
  import opened TerminalText
  import opened EchoGuard
  import opened EchoGuardSafety

  // ----- a terminal that echoes -----

  /** A code point is not cut in two. */
  predicate CutsNoPair(a: Text, b: Text) { !(a != [] && b != [] && IsHigh(a[|a| - 1]) && IsLow(b[0])) }

  /** Some text that is typed and echoed, or a character that is echoed and then taken back. */
  datatype Stroke = Words(text: Text) | Slip(point: Text)

  function StrokeActions(k: Stroke): seq<Action> {
    match k
    case Words(text) => [Typed(text), Output(text)]
    case Slip(point) => [Typed(point), Output(point), Rubout, Output([BS, SPACE, BS])]
  }

  predicate MayBeTyped(line: Text, k: Stroke) {
    match k
    case Words(text) => Plain(text)
    case Slip(point) => point != [] && Plain(point) && FirstPoint(point) == point && CutsNoPair(line, point)
  }

  function After(line: Text, k: Stroke): Text { if k.Words? then line + k.text else line }

  /** The line that the strokes leave behind. */
  function LineOf(line: Text, strokes: seq<Stroke>): Text
    decreases |strokes|
  {
    if strokes == [] then line else LineOf(After(line, strokes[0]), strokes[1..])
  }

  predicate AllMayBeTyped(line: Text, strokes: seq<Stroke>)
    decreases |strokes|
  {
    strokes == [] || (MayBeTyped(line, strokes[0]) && AllMayBeTyped(After(line, strokes[0]), strokes[1..]))
  }

  function Typing(strokes: seq<Stroke>): seq<Action>
    decreases |strokes|
  {
    if strokes == [] then [] else StrokeActions(strokes[0]) + Typing(strokes[1..])
  }

  /** A prompt or any other output, the strokes, and a last part that is echoed partly before Enter and partly after
      it. */
  datatype Exchange = Exchange(prompt: Text, strokes: seq<Stroke>, before: Text, after: Text) {
    function Command(): Text { LineOf([], strokes) + (before + after) }
  }

  /** The command is visible text and not blank. */
  predicate IsEchoed(x: Exchange) {
    && AllMayBeTyped([], x.strokes) && Plain(x.before + x.after) && CutsNoPair(x.before, x.after) && HasText(x.Command())
  }

  function Actions(x: Exchange): seq<Action> {
    [Output(x.prompt)] + Typing(x.strokes) +
    [Typed(x.before + x.after), Output(x.before), Enter, Output(x.after), Output([CR, LF])]
  }

  function Session(exchanges: seq<Exchange>): seq<Action>
    decreases |exchanges|
  {
    if exchanges == [] then [] else Actions(exchanges[0]) + Session(exchanges[1..])
  }

  function TypedCommands(exchanges: seq<Exchange>): seq<Text>
    decreases |exchanges|
  {
    if exchanges == [] then [] else [exchanges[0].Command()] + TypedCommands(exchanges[1..])
  }

  /** Nothing is typed and nothing is awaited. */
  predicate Clean(s: State) { s.current == NEW_LINE && s.submitted == [] && s.traces == [] }

  /** Output that nobody waits for changes nothing. */
  lemma {:induction false} OutputIsIgnored(s: State, tokens: seq<Token>)
    requires Clean(s)
    ensures ConsumeAll(s, tokens) == s
    decreases |tokens|
  {
    if tokens != [] {
      OutputIsIgnored(s, tokens[1..]);
    }
  }

  /** The next code point awaited. */
  lemma NextPoint(a: Text, i: nat, b: Text)
    requires i < |a| && CutsNoPair(a, b)
    ensures var n, rest := PointLength(a, i), a[i..] + b;
      i + n <= |a| && rest != [] && FirstPoint(rest) == a[i..i + n] && DropFirst(rest) == a[i + n..] + b
  {
    var rest := a[i..] + b;
    assert rest[0] == a[i];
    assert i + 1 < |a| ==> rest[1] == a[i + 1];
    assert i + 1 == |a| && b != [] ==> rest[1] == b[0];
    var n := PointLength(a, i);
    assert PointLength(rest, 0) == n;
    assert rest[..n] == a[i..i + n] && rest[n..] == a[i + n..] + b;
  }

  /** The echo is taken off what the current line awaits. */
  lemma {:induction false} CurrentIsEchoed(s: State, a: Text, i: nat, b: Text)
    requires Plain(a) && i <= |a| && CutsNoPair(a, b)
    requires s.submitted == [] && s.traces == [] && s.current.echoSafe && s.current.pending == a[i..] + b
    ensures var u := ConsumeAll(s, Tokens(a, i));
      && u == s.(current := u.current, trace := u.trace)
      && u.current == s.current.(pending := b, justConfirmed := u.current.justConfirmed)
    decreases |a| - i
  {
    hide Scan, PointLength, FirstPoint, DropFirst;
    if i == |a| {
      assert Tokens(a, i) == [];
    } else {
      var n := PointLength(a, i);
      PlainScan(a, i);
      TokensUnfold(a, i);
      NextPoint(a, i, b);
      var t := CurrentChar(s, a[i..i + n]);
      assert Tokens(a, i)[1..] == Tokens(a, i + n);
      CurrentIsEchoed(t, a, i + n, b);
    }
  }

  /** The echo is taken off what the oldest queued line awaits. */
  lemma {:induction false} QueuedIsEchoed(s: State, a: Text, i: nat)
    requires Plain(a) && i <= |a| && |s.traces| == |s.submitted|
    requires s.submitted != [] && s.submitted[0].echoSafe && s.submitted[0].pending == a[i..]
    ensures var u := ConsumeAll(s, Tokens(a, i));
      u == s.(submitted := s.submitted[0 := s.submitted[0].(pending := [])], traces := u.traces)
    decreases |a| - i
  {
    hide Scan, PointLength, FirstPoint, DropFirst;
    if i == |a| {
      assert Tokens(a, i) == [];
    } else {
      var n := PointLength(a, i);
      PlainScan(a, i);
      TokensUnfold(a, i);
      NextPoint(a, i, []);
      assert a[i..] + [] == a[i..] && a[i + n..] + [] == a[i + n..];
      var t := SubmittedChar(s, a[i..i + n]);
      assert Tokens(a, i)[1..] == Tokens(a, i + n);
      QueuedIsEchoed(t, a, i + n);
    }
  }

  lemma LineBreakToken()
    ensures Tokens([CR, LF], 0) == [NewLine]
  {
    assert Tokens([CR, LF], 2) == [];
  }

  /** The line has been typed and shown, and nothing is queued. */
  predicate Shows(s: State, line: Text) {
    && s.submitted == [] && s.traces == []
    && s.current == NEW_LINE.(command := line, justConfirmed := s.current.justConfirmed)
  }

  /** Typed, and partly echoed. */
  lemma CurrentEcho(s: State, line: Text, a: Text, b: Text)
    requires Shows(s, line) && Plain(a) && CutsNoPair(a, b)
    ensures var u := Act(Act(s, Typed(a + b)), Output(a));
      && u == s.(current := u.current, trace := u.trace)
      && u.current == NEW_LINE.(command := line + (a + b), pending := b, justConfirmed := u.current.justConfirmed)
  {
    hide Tokens;
    assert a[0..] + b == a + b == [] + (a + b);
    assert a + b == [] ==> line + (a + b) == line && b == [];
    CurrentIsEchoed(Append(s, a + b), a, 0, b);
  }

  lemma SilentErasure()
    ensures Tokens([BS, SPACE, BS], 0) == []
  {
    ErasureIsSilent([]);
    assert [BS, SPACE, BS] + [] == [BS, SPACE, BS];
  }

  /** A character that is taken back leaves the line as it was. */
  lemma LastTaken(line: Text, point: Text)
    requires point != [] && FirstPoint(point) == point && CutsNoPair(line, point)
    ensures line + point != [] && DropLast(line + point) == line
  {
    hide DropLast;
    DropLastCuts(line + point);
    assert (line + point)[..|line|] == line;
  }

  lemma SlipLeavesNothing(s: State, line: Text, point: Text)
    requires Shows(s, line) && MayBeTyped(line, Slip(point))
    ensures var u := Act(Act(Act(Act(s, Typed(point)), Output(point)), Rubout), Output([BS, SPACE, BS]));
      Shows(u, line) && u.confirmed == s.confirmed
  {
    hide Tokens, DropLast, FirstPoint, Plain;
    assert point + [] == point;
    CurrentEcho(s, line, point, []);
    LastTaken(line, point);
    SilentErasure();
  }

  lemma StrokeShows(s: State, line: Text, k: Stroke)
    requires Shows(s, line) && MayBeTyped(line, k)
    ensures var u := Run(s, StrokeActions(k));
      Shows(u, After(line, k)) && u.confirmed == s.confirmed
  {
    hide Act, Plain, FirstPoint, CutsNoPair;
    match k
    case Words(text) =>
      assert text + [] == text;
      CurrentEcho(s, line, text, []) by {
        assert CutsNoPair(text, []) by {
          NothingCut(text);
        }
      }
      RunTwo(s, Typed(text), Output(text));
    case Slip(point) =>
      SlipLeavesNothing(s, line, point);
      var t := Act(Act(s, Typed(point)), Output(point));
      RunTwo(s, Typed(point), Output(point));
      RunTwo(t, Rubout, Output([BS, SPACE, BS]));
      RunAppend(s, [Typed(point), Output(point)], [Rubout, Output([BS, SPACE, BS])]);
      assert [Typed(point), Output(point)] + [Rubout, Output([BS, SPACE, BS])] == StrokeActions(k);
  }

  lemma NothingCut(a: Text)
    ensures CutsNoPair(a, [])
  {}

  lemma {:induction false} StrokesShow(s: State, line: Text, strokes: seq<Stroke>)
    requires Shows(s, line) && AllMayBeTyped(line, strokes)
    ensures var u := Run(s, Typing(strokes)); Shows(u, LineOf(line, strokes)) && u.confirmed == s.confirmed
    decreases |strokes|
  {
    hide Act, MayBeTyped, StrokeActions, After;
    if strokes != [] {
      StrokeShows(s, line, strokes[0]);
      RunAppend(s, StrokeActions(strokes[0]), Typing(strokes[1..]));
      StrokesShow(Run(s, StrokeActions(strokes[0])), After(line, strokes[0]), strokes[1..]);
    }
  }

  lemma PlainParts(a: Text, b: Text)
    requires Plain(a + b)
    ensures Plain(a) && Plain(b)
  {
    forall i | 0 <= i < |b| ensures b[i] >= SPACE && b[i] != DEL {
      assert (a + b)[|a| + i] == b[i];
    }
    forall i | 0 <= i < |a| ensures a[i] >= SPACE && a[i] != DEL {
      assert (a + b)[i] == a[i];
    }
  }

  /** Entered, and echoed to the end. */
  lemma QueuedEcho(s: State, command: Text, rest: Text)
    requires s.submitted == [] && s.traces == [] && Plain(rest) && HasText(command)
    requires s.current == NEW_LINE.(command := command, pending := rest, justConfirmed := s.current.justConfirmed)
    ensures var u := Act(Act(s, Enter), Output(rest));
      && u.current == NEW_LINE && u.confirmed == s.confirmed
      && |u.traces| == 1 && u.submitted == [NEW_LINE.(command := command)]
  {
    hide Tokens, HasText;
    assert rest[0..] == rest;
    QueuedIsEchoed(SubmitLine(s), rest, 0);
  }

  lemma {:induction false} RunAppend(s: State, a: seq<Action>, b: seq<Action>)
    requires |s.traces| == |s.submitted|
    ensures Run(s, a + b) == Run(Run(s, a), b)
    decreases |a|
  {
    hide Act;
    if a == [] {
      assert a + b == b;
    } else {
      assert (a + b)[1..] == a[1..] + b;
      RunAppend(Act(s, a[0]), a[1..], b);
    }
  }

  lemma RunOne(s: State, a: Action)
    requires |s.traces| == |s.submitted|
    ensures Run(s, [a]) == Act(s, a)
  {
    hide Act;
    assert [a][1..] == [];
    assert Run(Act(s, a), []) == Act(s, a);
  }

  lemma RunTwo(s: State, a: Action, b: Action)
    requires |s.traces| == |s.submitted|
    ensures Run(s, [a, b]) == Act(Act(s, a), b)
  {
    hide Act, Run;
    RunOne(s, a);
    RunOne(Act(s, a), b);
    RunAppend(s, [a], [b]);
    assert [a] + [b] == [a, b];
  }

  lemma LineBreakConfirms(s: State, command: Text)
    requires |s.traces| == 1 && s.submitted == [NEW_LINE.(command := command)] && s.current == NEW_LINE
    requires HasText(command)
    ensures var u := Act(s, Output([CR, LF]));
      Clean(u) && Commands(u.confirmed) == Commands(s.confirmed) + [command]
  {
    hide Tokens, HasText;
    LineBreakToken();
    var u := LineBoundary(s);
    assert ConsumeAll(s, [NewLine]) == u by {
      assert [NewLine][1..] == [];
    }
  }

  lemma FiveActions(a: Action, b: Action, c: Action, d: Action, e: Action)
    ensures [a, b] + ([c, d] + [e]) == [a, b, c, d, e]
  {}

  lemma RunFive(s: State, a: Action, b: Action, c: Action, d: Action, e: Action)
    requires |s.traces| == |s.submitted|
    ensures Run(s, [a, b, c, d, e]) == Act(Act(Act(Act(Act(s, a), b), c), d), e)
  {
    hide Act, Run;
    var t := Act(Act(s, a), b);
    FiveActions(a, b, c, d, e);
    RunTwo(s, a, b);
    RunTwo(t, c, d);
    RunOne(Act(Act(t, c), d), e);
    RunAppend(t, [c, d], [e]);
    RunAppend(s, [a, b], [c, d] + [e]);
  }

  /** The last part of the line, Enter and a line break. */
  lemma EntryConfirms(s: State, line: Text, a: Text, b: Text)
    requires Shows(s, line) && Plain(a + b) && CutsNoPair(a, b) && HasText(line + (a + b))
    ensures var u := Run(s, [Typed(a + b), Output(a), Enter, Output(b), Output([CR, LF])]);
      Clean(u) && Commands(u.confirmed) == Commands(s.confirmed) + [line + (a + b)]
  {
    hide Act, HasText, Plain, CutsNoPair;
    var t := Act(Act(s, Typed(a + b)), Output(a));
    var u := Act(Act(t, Enter), Output(b));
    PlainParts(a, b);
    CurrentEcho(s, line, a, b);
    QueuedEcho(t, line + (a + b), b);
    LineBreakConfirms(u, line + (a + b));
    RunFive(s, Typed(a + b), Output(a), Enter, Output(b), Output([CR, LF]));
  }

  lemma ExchangeConfirms(s: State, x: Exchange)
    requires Clean(s) && IsEchoed(x)
    ensures var u := Run(s, Actions(x));
      Clean(u) && Commands(u.confirmed) == Commands(s.confirmed) + [x.Command()]
  {
    hide Act, Run, HasText, Plain, CutsNoPair, Typing, LineOf, AllMayBeTyped;
    var entry := [Typed(x.before + x.after), Output(x.before), Enter, Output(x.after), Output([CR, LF])];
    var t := Run(s, Typing(x.strokes));
    PromptIsIgnored(s, x.prompt);
    RunOne(s, Output(x.prompt));
    StrokesShow(s, [], x.strokes);
    EntryConfirms(t, LineOf([], x.strokes), x.before, x.after);
    RunAppend(s, [Output(x.prompt)], Typing(x.strokes));
    RunAppend(s, [Output(x.prompt)] + Typing(x.strokes), entry);
  }

  lemma PromptIsIgnored(s: State, prompt: Text)
    requires Clean(s)
    ensures Act(s, Output(prompt)) == s
  {
    OutputIsIgnored(s, Tokens(prompt, 0));
  }

  lemma {:induction false} SessionConfirms(s: State, exchanges: seq<Exchange>)
    requires Clean(s) && forall x :: x in exchanges ==> IsEchoed(x)
    ensures Commands(Run(s, Session(exchanges)).confirmed) == Commands(s.confirmed) + TypedCommands(exchanges)
    decreases |exchanges|
  {
    hide Act, Actions, IsEchoed, Commands;
    if exchanges == [] {
      assert Commands(s.confirmed) + [] == Commands(s.confirmed);
    } else {
      var x, rest := exchanges[0], exchanges[1..];
      ExchangeConfirms(s, x);
      RunAppend(s, Actions(x), Session(rest));
      SessionConfirms(Run(s, Actions(x)), rest);
      assert Commands(s.confirmed) + ([x.Command()] + TypedCommands(rest)) ==
        (Commands(s.confirmed) + [x.Command()]) + TypedCommands(rest);
    }
  }

  /** In a terminal that echoes what is typed, at once or behind Enter, exactly the commands typed are confirmed, as
      they stand after corrections, in their order, whatever else the programs print. */
  lemma TypedIsConfirmed(exchanges: seq<Exchange>)
    requires forall x :: x in exchanges ==> IsEchoed(x)
    ensures Commands(Run(START, Session(exchanges)).confirmed) == TypedCommands(exchanges)
  {
    hide Run, Session, IsEchoed;
    SessionConfirms(START, exchanges);
    assert Commands(START.confirmed) == [];
  }

  // ----- typing ahead -----

  function Entries(commands: seq<Text>): seq<Action>
    decreases |commands|
  {
    if commands == [] then [] else [Typed(commands[0]), Enter] + Entries(commands[1..])
  }

  function Echoes(commands: seq<Text>): seq<Action>
    decreases |commands|
  {
    if commands == [] then [] else [Output(commands[0]), Output([CR, LF])] + Echoes(commands[1..])
  }

  /** These lines are queued, with all of them still awaited. */
  predicate Awaits(s: State, commands: seq<Text>) {
    && s.current == NEW_LINE && |s.submitted| == |s.traces| == |commands|
    && forall i :: 0 <= i < |commands| ==> s.submitted[i] == NEW_LINE.(command := commands[i], pending := commands[i])
  }

  lemma EntryQueues(s: State, queued: seq<Text>, command: Text)
    requires Awaits(s, queued) && HasText(command)
    ensures var u := Run(s, [Typed(command), Enter]); Awaits(u, queued + [command]) && u.confirmed == s.confirmed
  {
    hide HasText, Run;
    RunTwo(s, Typed(command), Enter);
    assert [] + command == command;
  }

  lemma {:induction false} EntriesQueue(s: State, queued: seq<Text>, commands: seq<Text>)
    requires Awaits(s, queued) && forall c :: c in commands ==> HasText(c)
    ensures var u := Run(s, Entries(commands)); Awaits(u, queued + commands) && u.confirmed == s.confirmed
    decreases |commands|
  {
    hide HasText, Awaits, Act;
    AwaitsIsSound(s, queued);
    if commands == [] {
      assert queued + commands == queued;
    } else {
      EntryQueues(s, queued, commands[0]);
      var t := Run(s, [Typed(commands[0]), Enter]);
      RunAppend(s, [Typed(commands[0]), Enter], Entries(commands[1..]));
      EntriesQueue(t, queued + [commands[0]], commands[1..]);
      assert queued + [commands[0]] + commands[1..] == queued + commands;
    }
  }

  lemma AwaitsIsSound(s: State, queued: seq<Text>)
    requires Awaits(s, queued)
    ensures |s.traces| == |s.submitted|
  {}

  lemma EchoConfirms(s: State, commands: seq<Text>)
    requires Awaits(s, commands) && commands != [] && Plain(commands[0]) && HasText(commands[0])
    ensures var u := Run(s, [Output(commands[0]), Output([CR, LF])]);
      Awaits(u, commands[1..]) && Commands(u.confirmed) == Commands(s.confirmed) + [commands[0]]
  {
    hide HasText, Run, Tokens, Plain;
    assert commands[0][0..] == commands[0];
    QueuedIsEchoed(s, commands[0], 0);
    LineBreakToken();
    RunTwo(s, Output(commands[0]), Output([CR, LF]));
    var t := ConsumeAll(s, Tokens(commands[0], 0));
    assert ConsumeAll(t, [NewLine]) == LineBoundary(t) by {
      assert [NewLine][1..] == [];
    }
  }

  lemma {:induction false} EchoesConfirm(s: State, commands: seq<Text>)
    requires Awaits(s, commands) && forall c :: c in commands ==> Plain(c) && HasText(c)
    ensures Commands(Run(s, Echoes(commands)).confirmed) == Commands(s.confirmed) + commands
    decreases |commands|
  {
    hide HasText, Plain, Awaits, Act, Commands;
    AwaitsIsSound(s, commands);
    if commands == [] {
      assert Commands(s.confirmed) + commands == Commands(s.confirmed);
    } else {
      EchoConfirms(s, commands);
      RunAppend(s, [Output(commands[0]), Output([CR, LF])], Echoes(commands[1..]));
      EchoesConfirm(Run(s, [Output(commands[0]), Output([CR, LF])]), commands[1..]);
      assert Commands(s.confirmed) + [commands[0]] + commands[1..] == Commands(s.confirmed) + commands;
    }
  }

  /** Lines that are entered before any of them is echoed are confirmed all the same, in their order. */
  lemma TypedAheadIsConfirmed(commands: seq<Text>)
    requires forall c :: c in commands ==> Plain(c) && HasText(c)
    ensures Commands(Run(START, Entries(commands) + Echoes(commands)).confirmed) == commands
  {
    hide HasText, Plain, Run;
    EntriesQueue(START, [], commands);
    assert [] + commands == commands;
    RunAppend(START, Entries(commands), Echoes(commands));
    EchoesConfirm(Run(START, Entries(commands)), commands);
    assert Commands(START.confirmed) == [];
  }

  // ----- what is shown decides -----

  /** One visible character while a line is typed. */
  lemma CharDecides(s: State, c: Text)
    requires s.current.echoSafe && (s.current.pending == [] ==> s.current.justConfirmed)
    ensures var u := CurrentChar(s, c);
      && u == s.(current := u.current, trace := u.trace)
      && u.current.command == s.current.command && u.current.reliable == s.current.reliable
      && (u.current.echoSafe ==>
            s.current.pending == c + u.current.pending && (u.current.pending == [] ==> u.current.justConfirmed))
  {
    hide FirstPoint, DropFirst;
    if s.current.pending != [] {
      FirstIsPart(s.current.pending);
    }
  }

  /** What the line still awaits is what the output leaves of it; any other output makes the line unsafe. */
  lemma {:induction false} CurrentDecides(s: State, a: Text, i: nat)
    requires Plain(a) && i <= |a| && s.submitted == [] && s.traces == []
    requires s.current.echoSafe && (s.current.pending == [] ==> s.current.justConfirmed)
    ensures var u := ConsumeAll(s, Tokens(a, i));
      && u == s.(current := u.current, trace := u.trace)
      && u.current.command == s.current.command && u.current.reliable == s.current.reliable
      && (u.current.echoSafe ==>
            s.current.pending == a[i..] + u.current.pending && (u.current.pending == [] ==> u.current.justConfirmed))
    decreases |a| - i
  {
    hide Scan, PointLength, CurrentChar, Plain;
    if i == |a| {
      assert Tokens(a, i) == [];
    } else {
      var n := PointLength(a, i);
      var c := a[i..i + n];
      var t := CurrentChar(s, c);
      PlainScan(a, i);
      TokensUnfold(a, i);
      assert Tokens(a, i)[1..] == Tokens(a, i + n);
      hide Tokens;
      CharDecides(s, c);
      if t.current.echoSafe {
        CurrentDecides(t, a, i + n);
        var rest := ConsumeAll(t, Tokens(a, i + n)).current.pending;
        assert a[i..] == c + a[i + n..];
        assert c + (a[i + n..] + rest) == a[i..] + rest;
      } else {
        UnsafeStays(t, Tokens(a, i + n));
      }
    }
  }

  lemma FirstIsPart(text: Text)
    requires text != []
    ensures FirstPoint(text) + DropFirst(text) == text
  {}

  lemma {:induction false} UnsafeStays(s: State, tokens: seq<Token>)
    requires s.submitted == [] && s.traces == [] && !s.current.echoSafe
    ensures var u := ConsumeAll(s, tokens);
      && u == s.(current := u.current, trace := u.trace) && !u.current.echoSafe
      && u.current.command == s.current.command && u.current.reliable == s.current.reliable
    decreases |tokens|
  {
    if tokens != [] {
      UnsafeStays(Consume(s, tokens[0]), tokens[1..]);
    }
  }

  /** The same for a queued line, which unexpected output takes out of the queue. */
  lemma {:induction false} QueuedDecides(s: State, a: Text, i: nat)
    requires Plain(a) && i <= |a| && |s.traces| == |s.submitted| == 1 && s.current == NEW_LINE
    ensures var u := ConsumeAll(s, Tokens(a, i));
      && u.current == NEW_LINE && u.confirmed == s.confirmed
      && (u.submitted == [] || (|u.submitted| == 1 && u.submitted[0].command == s.submitted[0].command
                                && s.submitted[0].pending == a[i..] + u.submitted[0].pending))
    decreases |a| - i
  {
    hide Scan, PointLength, FirstPoint, DropFirst;
    if i == |a| {
      assert Tokens(a, i) == [];
    } else {
      var n := PointLength(a, i);
      var t := SubmittedChar(s, a[i..i + n]);
      PlainScan(a, i);
      TokensUnfold(a, i);
      assert Tokens(a, i)[1..] == Tokens(a, i + n);
      if t.submitted == [] {
        OutputIsIgnored(t, Tokens(a, i + n));
      } else {
        FirstIsPart(s.submitted[0].pending);
        QueuedDecides(t, a, i + n);
        assert a[i..] == a[i..i + n] + a[i + n..];
      }
    }
  }

  /** A line is typed, `u` is shown, it is entered, `v` is shown, and the screen line ends: it is confirmed if and only
      if `u` and `v` together are the line. */
  lemma ShownDecides(s: State, t: Text, u: Text, v: Text)
    requires Clean(s) && Plain(t) && HasText(t) && Plain(u) && Plain(v) && CutsNoPair(u, v)
    ensures var w := Run(s, [Typed(t), Output(u), Enter, Output(v), Output([CR, LF])]);
      Clean(w) && Commands(w.confirmed) == Commands(s.confirmed) + if u + v == t then [t] else []
  {
    hide Act, Run, HasText, Plain, CutsNoPair;
    if u + v == t {
      assert [] + (u + v) == t;
      EntryConfirms(s, [], u, v);
    } else {
      assert t != [] by {
        TextIsThere(t);
      }
      NotShown(s, t, u, v);
      RunFive(s, Typed(t), Output(u), Enter, Output(v), Output([CR, LF]));
    }
  }

  lemma NotShown(s: State, t: Text, u: Text, v: Text)
    requires Clean(s) && t != [] && Plain(u) && Plain(v) && u + v != t
    ensures var w := Act(Act(Act(Act(Act(s, Typed(t)), Output(u)), Enter), Output(v)), Output([CR, LF]));
      Clean(w) && w.confirmed == s.confirmed
  {
    hide Act, HasText, Plain;
    var shown := Act(Act(s, Typed(t)), Output(u));
    TypedAndShown(s, t, u);
    EnteredAndShown(shown, t, u, v);
    BoundaryWithoutConfirmation(Act(Act(shown, Enter), Output(v)));
  }

  lemma TypedAndShown(s: State, t: Text, u: Text)
    requires Clean(s) && t != [] && Plain(u)
    ensures var x := Act(Act(s, Typed(t)), Output(u));
      && x.submitted == [] && x.traces == [] && x.confirmed == s.confirmed && x.current.command == t && x.current.reliable
      && (x.current.echoSafe ==>
            t == u + x.current.pending && (x.current.pending == [] ==> x.current.justConfirmed))
  {
    hide Tokens, ConsumeAll, Plain;
    assert [] + t == t && u[0..] == u;
    CurrentDecides(Append(s, t), u, 0);
  }

  lemma EnteredAndShown(s: State, t: Text, u: Text, v: Text)
    requires s.submitted == [] && s.traces == [] && s.current.command == t && Plain(v) && u + v != t
    requires s.current.echoSafe ==> t == u + s.current.pending
    ensures var x := Act(Act(s, Enter), Output(v));
      && x.current == NEW_LINE && |x.traces| == |x.submitted| <= 1 && x.confirmed == s.confirmed
      && (x.submitted != [] ==> x.submitted[0].pending != [])
  {
    hide Tokens, HasText, ConsumeAll, Plain;
    var entered := SubmitLine(s);
    if entered.submitted == [] {
      OutputIsIgnored(entered, Tokens(v, 0));
    } else {
      QueuedDecides(entered, v, 0);
      assert v[0..] == v;
      assert v + [] == v;
    }
  }

  lemma TextIsThere(text: Text)
    requires HasText(text)
    ensures text != []
  {}

  lemma BoundaryWithoutConfirmation(s: State)
    requires s.current == NEW_LINE && |s.traces| == |s.submitted| <= 1
    requires s.submitted != [] ==> s.submitted[0].pending != []
    ensures var u := Act(s, Output([CR, LF])); Clean(u) && u.confirmed == s.confirmed
  {
    hide Tokens, HasText;
    LineBreakToken();
    assert ConsumeAll(s, [NewLine]) == LineBoundary(s) by {
      assert [NewLine][1..] == [];
    }
  }

  // ----- lines that are never confirmed -----

  /** Nothing is queued, and the line being typed can no longer be confirmed. */
  predicate Spoiled(s: State) { s.submitted == [] && s.traces == [] && !s.current.echoSafe }

  /** A line break in the middle of a line spoils it. */
  lemma BreakSpoils(s: State, t: Text, u: Text)
    requires Clean(s) && t != [] && Plain(u)
    ensures var w := Act(Act(Act(s, Typed(t)), Output(u)), Output([CR, LF])); Spoiled(w) && w.confirmed == s.confirmed
  {
    TypedAndShown(s, t, u);
    hide Tokens, Plain;
    LineBreakToken();
    var shown := Act(Act(s, Typed(t)), Output(u));
    assert ConsumeAll(shown, [NewLine]) == LineBoundary(shown) by {
      assert [NewLine][1..] == [];
    }
  }

  /** So does moving the cursor. */
  lemma CursorSpoils(s: State)
    requires s.submitted == [] && s.traces == []
    ensures Spoiled(Act(s, Cursor)) && Act(s, Cursor).confirmed == s.confirmed
  {}

  /** A line of white space is not worth remembering. */
  lemma BlankIsNotConfirmed(s: State, t: Text, u: Text)
    requires Clean(s) && Plain(u)
    requires forall x :: x in t ==>
      || x in {0x09, 0x0a, 0x0b, 0x0c, 0x0d, 0x20, 0xa0, 0x1680, 0x2028, 0x2029, 0x202f, 0x205f, 0x3000, 0xfeff}
      || 0x2000 <= x <= 0x200a
    ensures var v := Act(Act(Act(s, Typed(t)), Output(u)), Enter); Clean(v) && v.confirmed == s.confirmed
  {
    hide Tokens, Plain;
    forall i | 0 <= i < |t| ensures IsBlank(t[i]) {
      assert t[i] in t;
    }
    if t == [] {
      assert Append(s, t) == s;
      OutputIsIgnored(s, Tokens(u, 0));
    } else {
      TypedAndShown(s, t, u);
    }
  }

  /** Whatever is typed and shown after that, the line is not confirmed when it is entered, and the next one begins
      afresh. */
  lemma {:induction false} SpoiledIsNotConfirmed(s: State, actions: seq<Action>)
    requires Spoiled(s) && Enter !in actions
    ensures var u := Run(s, actions + [Enter]); Clean(u) && u.confirmed == s.confirmed
    decreases |actions|
  {
    hide HasText, DropLast;
    if actions == [] {
      assert actions + [Enter] == [Enter];
      RunOne(s, Enter);
    } else {
      assert (actions + [Enter])[1..] == actions[1..] + [Enter];
      var t := Act(s, actions[0]);
      if actions[0].Output? {
        UnsafeStays(s, Tokens(actions[0].text, 0));
      }
      SpoiledIsNotConfirmed(t, actions[1..]);
    }
  }

  // ----- every run -----

  /** Of a queued line in which nothing was erased, what is shown and what is awaited make up the command. */
  lemma ShownIffNothingAwaited(s: State, l: Line, t: Trace)
    requires QueuedInv(s, l, t) && !t.erased
    ensures l.pending == [] <==> t.shown == l.command
  {
    hide HasText, IsSuffix, IsSubsequence;
    assert l.command == t.shown + l.pending;
    assert l.pending == [] ==> t.shown + l.pending == t.shown;
    assert t.shown == l.command ==> |l.pending| == 0;
  }

  /** In every run: a line break takes the oldest queued line out of the queue, and confirms its command exactly if
      nothing of it is awaited any more; of a line in which nothing was erased, if and only if what was shown since
      its first keystroke is the command. */
  lemma ConfirmedIffShown(actions: seq<Action>)
    requires Run(START, actions).submitted != []
    ensures var s, u := Run(START, actions), Act(Run(START, actions), Output([CR, LF]));
      var l, t := s.submitted[0], s.traces[0];
      && u.submitted == s.submitted[1..] && u.current == s.current
      && t.id < |s.submissions| && l.command == s.submissions[t.id].line.command
      && Commands(u.confirmed) == Commands(s.confirmed) + (if l.pending == [] then [l.command] else [])
      && (!t.erased ==> (l.pending == [] <==> t.shown == l.command))
  {
    hide Run, HasText, IsSubsequence, Accounted;
    StartInv();
    RunKeeps(START, actions);
    var s := Run(START, actions);
    LineBreakToken();
    assert ConsumeAll(s, [NewLine]) == LineBoundary(s) by {
      assert [NewLine][1..] == [];
    }
    assert QueuedInv(s, s.submitted[0], s.traces[0]);
    if !s.traces[0].erased {
      ShownIffNothingAwaited(s, s.submitted[0], s.traces[0]);
    }
  }
}
