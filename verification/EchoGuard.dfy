/** Deciding which typed commands were really echoed by the remote terminal, so that hidden input never
    reaches the command history. */
module EchoGuard {
  import opened Options
  import opened TerminalText

  datatype Line = Line(command: Text, pending: Text, reliable: bool, echoSafe: bool, justConfirmed: bool)

  const NEW_LINE := Line([], [], true, true, false)

  /** The white space that trimming removes. */
  predicate IsBlank(u: unit) {
    || 0x09 <= u <= 0x0d || u == 0x20 || u == 0xa0 || u == 0x1680 || 0x2000 <= u <= 0x200a
    || u == 0x2028 || u == 0x2029 || u == 0x202f || u == 0x205f || u == 0x3000 || u == 0xfeff
  }

  predicate HasText(s: Text) { exists i :: 0 <= i < |s| && !IsBlank(s[i]) }

  // ----- what happened, for the record -----

  /** `shown` is the visible output attributed to a line since its first keystroke; `erased` tells whether
      a backspace removed anything; `id` is the line's place among the submissions. */
  datatype Trace = Trace(shown: Text, erased: bool, id: nat)

  datatype Submission = Submission(line: Line)

  datatype Confirmation = Confirmation(command: Text, trace: Trace)

  datatype State = State(
    current: Line, submitted: seq<Line>,
    trace: Trace, traces: seq<Trace>, submissions: seq<Submission>, confirmed: seq<Confirmation>)

  const START := State(NEW_LINE, [], Trace([], false, 0), [], [], [])

  // ----- keys -----

  function MarkUnsafe(l: Line): Line { l.(echoSafe := false, pending := [], justConfirmed := false) }

  function Append(s: State, value: Text): State {
    if value == [] then s
    else s.(current := s.current.(command := s.current.command + value, justConfirmed := false,
                                  pending := if s.current.echoSafe then s.current.pending + value else s.current.pending))
  }

  function Erased(s: State): State {
    if s.current.command == [] then s
    else s.(current := s.current.(command := DropLast(s.current.command), justConfirmed := false,
                                  pending := if s.current.echoSafe && s.current.pending != [] then DropLast(s.current.pending)
                                             else s.current.pending),
            trace := s.trace.(erased := true))
  }

  function Distrusted(s: State): State { s.(current := MarkUnsafe(s.current.(reliable := false))) }

  /** The line can still be confirmed. */
  predicate Confirmable(l: Line) { HasText(l.command) && l.reliable && l.echoSafe }

  function SubmitLine(s: State): State {
    var line := s.current.(justConfirmed := false);
    var noted := s.(current := NEW_LINE, submissions := s.submissions + [Submission(line)],
                    trace := Trace([], false, |s.submissions| + 1));
    if !Confirmable(line) then noted
    else noted.(submitted := s.submitted + [line], traces := s.traces + [s.trace.(id := |s.submissions|)])
  }

  // ----- output -----

  function Shift(s: State): State
    requires s.submitted != [] && |s.traces| == |s.submitted|
  {
    s.(submitted := s.submitted[1..], traces := s.traces[1..])
  }

  /** A visible character belongs to the oldest submitted line, if there is one. */
  function SubmittedChar(s: State, c: Text): State
    requires s.submitted != [] && |s.traces| == |s.submitted|
  {
    var line := s.submitted[0];
    if !line.echoSafe || line.pending == [] || c != FirstPoint(line.pending) then Shift(s)
    else s.(submitted := s.submitted[0 := line.(pending := DropFirst(line.pending))],
            traces := s.traces[0 := s.traces[0].(shown := s.traces[0].shown + c)])
  }

  function CurrentLineChar(l: Line, c: Text): Line {
    if !l.echoSafe then l
    else if l.pending == [] then (if l.justConfirmed then MarkUnsafe(l) else l)
    else if c != FirstPoint(l.pending) then MarkUnsafe(l)
    else l.(pending := DropFirst(l.pending), justConfirmed := DropFirst(l.pending) == [])
  }

  function CurrentChar(s: State, c: Text): State {
    s.(current := CurrentLineChar(s.current, c),
       trace := if s.current.command == [] then s.trace else s.trace.(shown := s.trace.shown + c))
  }

  function LineBoundary(s: State): State
    requires |s.traces| == |s.submitted|
  {
    if s.submitted != [] then
      var line := s.submitted[0];
      if line.reliable && line.echoSafe && line.pending == [] && HasText(line.command)
      then Shift(s.(confirmed := s.confirmed + [Confirmation(line.command, s.traces[0])]))
      else Shift(s)
    else if s.current.pending != [] || s.current.justConfirmed then s.(current := MarkUnsafe(s.current))
    else s
  }

  function Consume(s: State, token: Token): (r: State)
    requires |s.traces| == |s.submitted|
    ensures |r.traces| == |r.submitted|
  {
    match token
    case NewLine => LineBoundary(s)
    case Char(c) => if s.submitted != [] then SubmittedChar(s, c) else CurrentChar(s, c)
  }

  function ConsumeAll(s: State, tokens: seq<Token>): (r: State)
    requires |s.traces| == |s.submitted|
    ensures |r.traces| == |r.submitted|
    decreases |tokens|
  {
    if tokens == [] then s else ConsumeAll(Consume(s, tokens[0]), tokens[1..])
  }

  /** Nothing of the line is awaited any more. */
  predicate MaySuggest(l: Line) { l.reliable && l.echoSafe && l.pending == [] }

  // ----- the object -----

  class TerminalEchoGuard {
    var current: Line
    var submitted: seq<Line>
    ghost var trace: Trace
    ghost var traces: seq<Trace>
    ghost var submissions: seq<Submission>
    ghost var confirmed: seq<Confirmation>

    ghost function Model(): State
      reads this
    {
      State(current, submitted, trace, traces, submissions, confirmed)
    }

    ghost predicate Valid()
      reads this
    {
      |traces| == |submitted|
    }

    constructor ()
      ensures Valid() && Model() == START
    {
      current, submitted := NEW_LINE, [];
      trace, traces, submissions, confirmed := Trace([], false, 0), [], [], [];
    }

    method AppendChar(c: Text)
      requires c != []
      modifies this`current
      ensures Model() == Append(old(Model()), c)
    {
      current := current.(command := current.command + c, justConfirmed := false);
      if current.echoSafe {
        current := current.(pending := current.pending + c);
      }
    }

    method AppendInput(value: Text)
      modifies this`current
      ensures Model() == Append(old(Model()), value)
    {
      hide Points, Join, Append;
      var chars := Points(value);
      JoinPoints(value);
      var i := 0;
      assert chars[..0] == [];
      JoinNothing();
      AppendNothing(Model());
      while i < |chars|
        invariant i <= |chars|
        invariant Model() == Append(old(Model()), Join(chars[..i]))
      {
        PointsNotEmpty(value, i);
        JoinSnoc(chars, i);
        AppendTwice(old(Model()), Join(chars[..i]), chars[i]);
        AppendChar(chars[i]);
        i := i + 1;
      }
      assert chars[..i] == chars;
    }

    method Backspace()
      modifies this`current, this`trace
      ensures Model() == Erased(old(Model()))
    {
      if current.command == [] {
        return;
      }
      current := current.(command := DropLast(current.command), justConfirmed := false);
      if current.echoSafe && current.pending != [] {
        current := current.(pending := DropLast(current.pending));
      }
      trace := trace.(erased := true);
    }

    method MarkCurrentUnsafe()
      modifies this`current
      ensures current == MarkUnsafe(old(current))
    {
      current := current.(echoSafe := false, pending := [], justConfirmed := false);
    }

    method MarkUnreliable()
      modifies this`current
      ensures Model() == Distrusted(old(Model()))
    {
      current := current.(reliable := false);
      MarkCurrentUnsafe();
    }

    method Submit()
      requires Valid()
      modifies this
      ensures Valid() && Model() == SubmitLine(old(Model()))
    {
      var line := current.(justConfirmed := false);
      current := NEW_LINE;
      ghost var mine := trace.(id := |submissions|);
      submissions := submissions + [Submission(line)];
      trace := Trace([], false, |submissions|);
      if !HasText(line.command) || !line.reliable || !line.echoSafe {
        return;
      }
      submitted := submitted + [line];
      traces := traces + [mine];
    }

    method ShiftSubmitted()
      requires Valid() && submitted != []
      modifies this`submitted, this`traces
      ensures Valid() && Model() == Shift(old(Model()))
    {
      submitted := submitted[1..];
      traces := traces[1..];
    }

    method ConsumeSubmittedChar(c: Text)
      requires Valid() && submitted != []
      modifies this`submitted, this`traces
      ensures Valid() && Model() == SubmittedChar(old(Model()), c)
    {
      var line := submitted[0];
      if !line.echoSafe || line.pending == [] || c != FirstPoint(line.pending) {
        ShiftSubmitted();
        return;
      }
      submitted := submitted[0 := line.(pending := DropFirst(line.pending))];
      traces := traces[0 := traces[0].(shown := traces[0].shown + c)];
    }

    method ConsumeCurrentChar(c: Text)
      modifies this`current, this`trace
      ensures Model() == CurrentChar(old(Model()), c)
    {
      if current.command != [] {
        trace := trace.(shown := trace.shown + c);
      }
      if !current.echoSafe {
        return;
      }
      if current.pending == [] {
        if current.justConfirmed {
          MarkCurrentUnsafe();
        }
        return;
      }
      if c != FirstPoint(current.pending) {
        MarkCurrentUnsafe();
        return;
      }
      current := current.(pending := DropFirst(current.pending));
      current := current.(justConfirmed := current.pending == []);
    }

    method ConsumeLineBoundary() returns (confirmedHere: Option<Text>)
      requires Valid()
      modifies this
      ensures Valid() && Model() == LineBoundary(old(Model()))
      ensures Commands(confirmed) == Commands(old(confirmed)) + if confirmedHere.Some? then [confirmedHere.value] else []
    {
      confirmedHere := None;
      if submitted != [] {
        var line := submitted[0];
        if line.reliable && line.echoSafe && line.pending == [] && HasText(line.command) {
          confirmedHere := Some(line.command);
          confirmed := confirmed + [Confirmation(line.command, traces[0])];
        }
        ShiftSubmitted();
        return;
      }
      if current.pending != [] || current.justConfirmed {
        MarkCurrentUnsafe();
      }
    }

    /** The commands that this piece of output confirms. */
    method ObserveOutput(text: Text) returns (commands: seq<Text>)
      requires Valid()
      modifies this
      ensures Valid() && Model() == ConsumeAll(old(Model()), Tokens(text, 0))
      ensures Commands(confirmed) == Commands(old(confirmed)) + commands
    {
      hide LineBoundary, SubmittedChar, CurrentChar, Tokens;
      commands := [];
      var tokens := TerminalOutputTokens(text);
      var i := 0;
      assert tokens[0..] == tokens;
      while i < |tokens|
        invariant i <= |tokens| && Valid()
        invariant ConsumeAll(Model(), tokens[i..]) == ConsumeAll(old(Model()), tokens)
        invariant Commands(confirmed) == Commands(old(confirmed)) + commands
      {
        assert tokens[i..][1..] == tokens[i + 1..];
        match tokens[i] {
          case NewLine =>
            var command := ConsumeLineBoundary();
            if command.Some? {
              commands := commands + [command.value];
            }
          case Char(c) =>
            if submitted != [] {
              ConsumeSubmittedChar(c);
            } else {
              ConsumeCurrentChar(c);
            }
        }
        i := i + 1;
      }
    }
  }

  lemma AppendNothing(s: State)
    ensures Append(s, []) == s
  {}

  lemma AppendTwice(s: State, a: Text, b: Text)
    ensures Append(Append(s, a), b) == Append(s, a + b)
  {
    var l := s.current;
    assert l.command + (a + b) == (l.command + a) + b && l.pending + (a + b) == (l.pending + a) + b;
    if b == [] {
      assert a + b == a;
    } else if a == [] {
      assert a + b == b;
    }
  }

  function Commands(confirmed: seq<Confirmation>): seq<Text> {
    seq(|confirmed|, i requires 0 <= i < |confirmed| => confirmed[i].command)
  }

  lemma {:induction false} PointsNotEmpty(s: Text, i: nat)
    requires i < |Points(s)|
    ensures Points(s)[i] != []
    decreases |s|
  {
    if i > 0 {
      PointsNotEmpty(DropFirst(s), i - 1);
    }
  }

  lemma {:induction false} JoinSnoc(chars: seq<Text>, i: nat)
    requires i < |chars|
    ensures Join(chars[..i + 1]) == Join(chars[..i]) + chars[i]
    decreases i
  {
    if i == 0 {
      assert chars[..1][1..] == [] && chars[..0] == [];
    } else {
      JoinSnoc(chars[1..], i - 1);
      assert chars[..i + 1][1..] == chars[1..][..i] && chars[..i][1..] == chars[1..][..i - 1];
    }
  }
}
