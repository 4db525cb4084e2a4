/** Terminal text as UTF-16 code units, its code points, and the visible characters and line breaks in a
    piece of terminal output. */
module TerminalText {
  import opened Options

  type unit = x: int | 0 <= x < 0x1_0000

  type Text = seq<unit>

  const ESC: unit := 0x1b
  const BEL: unit := 0x07
  const CR: unit := 0x0d
  const LF: unit := 0x0a
  const BS: unit := 0x08
  const DEL: unit := 0x7f
  const SPACE: unit := 0x20
  const BACKSLASH: unit := 0x5c

  // ----- code points -----

  predicate IsHigh(u: unit) { 0xd800 <= u < 0xdc00 }

  predicate IsLow(u: unit) { 0xdc00 <= u < 0xe000 }

  /** How many units the code point at `i` takes. */
  function PointLength(s: Text, i: nat): (n: nat)
    requires i < |s|
    ensures 1 <= n && i + n <= |s|
  {
    if IsHigh(s[i]) && i + 1 < |s| && IsLow(s[i + 1]) then 2 else 1
  }

  function FirstPoint(s: Text): Text { if s == [] then [] else s[..PointLength(s, 0)] }

  function DropFirst(s: Text): (rest: Text)
    ensures s != [] ==> |rest| < |s| && FirstPoint(s) + rest == s
  {
    if s == [] then [] else s[PointLength(s, 0)..]
  }

  function Points(s: Text): seq<Text>
    decreases |s|
  {
    if s == [] then [] else [FirstPoint(s)] + Points(DropFirst(s))
  }

  function Join(points: seq<Text>): Text
    decreases |points|
  {
    if points == [] then [] else points[0] + Join(points[1..])
  }

  function DropLast(s: Text): Text { if s == [] then [] else Join(Points(s)[..|Points(s)| - 1]) }

  lemma PointsUnfold(s: Text)
    requires s != []
    ensures Points(s) == [FirstPoint(s)] + Points(DropFirst(s))
  {}

  lemma {:induction false} JoinPoints(s: Text)
    ensures Join(Points(s)) == s
    ensures |Points(s)| == 0 <==> s == []
    decreases |s|
  {
    hide FirstPoint, DropFirst;
    if s == [] {
      assert Points(s) == [];
    } else {
      hide Points, Join;
      PointsUnfold(s);
      JoinPoints(DropFirst(s));
      JoinCons(FirstPoint(s), Points(DropFirst(s)));
    }
  }

  lemma JoinCons(point: Text, rest: seq<Text>)
    ensures Join([point] + rest) == point + Join(rest)
  {
    assert ([point] + rest)[1..] == rest;
  }

  function LastLength(s: Text): (n: nat)
    requires s != []
    ensures 1 <= n <= |s|
  {
    if |s| >= 2 && IsHigh(s[|s| - 2]) && IsLow(s[|s| - 1]) then 2 else 1
  }

  lemma LastOfRest(s: Text)
    requires s != [] && DropFirst(s) != []
    ensures LastLength(DropFirst(s)) == LastLength(s)
    ensures FirstPoint(s) + DropFirst(s)[..|DropFirst(s)| - LastLength(s)] == s[..|s| - LastLength(s)]
  {}

  lemma DropLastCons(s: Text)
    requires s != []
    ensures DropLast(s) == if DropFirst(s) == [] then [] else FirstPoint(s) + DropLast(DropFirst(s))
  {
    hide FirstPoint, DropFirst, Join;
    var rest := DropFirst(s);
    var points := Points(rest);
    PointsUnfold(s);
    JoinPoints(rest);
    if rest == [] {
      assert Points(s)[..|Points(s)| - 1] == [];
      assert Join([]) == [] by {
        JoinNothing();
      }
    } else {
      assert ([FirstPoint(s)] + points)[..|points|] == [FirstPoint(s)] + points[..|points| - 1];
      JoinCons(FirstPoint(s), points[..|points| - 1]);
    }
  }

  lemma JoinNothing()
    ensures Join([]) == []
  {}

  /** Dropping the last of the code points read from the left cuts one or two units off the end. */
  lemma {:induction false} DropLastCuts(s: Text)
    requires s != []
    ensures DropLast(s) == s[..|s| - LastLength(s)]
    decreases |s|
  {
    hide DropLast;
    DropLastCons(s);
    if DropFirst(s) != [] {
      hide FirstPoint, LastLength;
      DropLastCuts(DropFirst(s));
      LastOfRest(s);
    }
  }

  // ----- escape sequences -----

  /** The end of a control sequence whose parameters start at `i`. */
  function ControlEnd(text: Text, i: nat): (end: nat)
    requires i <= |text|
    ensures i <= end <= |text|
    decreases |text| - i
  {
    if i == |text| then i else if 0x40 <= text[i] <= 0x7e then i + 1 else ControlEnd(text, i + 1)
  }

  /** The end of a string sequence: behind a BEL, behind an ESC backslash, or the end of the text. */
  function StringEnd(text: Text, i: nat): (end: nat)
    requires i <= |text|
    ensures i <= end <= |text|
    decreases |text| - i
  {
    if i == |text| then i
    else if text[i] == BEL then i + 1
    else if text[i] == ESC && i + 1 < |text| && text[i + 1] == BACKSLASH then i + 2
    else StringEnd(text, i + 1)
  }

  /** `[` starts a control sequence; `]`, `P`, `^` and `_` start a string. */
  function EscapeEnd(text: Text, start: nat): (end: nat)
    requires start < |text|
    ensures start < end <= |text|
  {
    if start + 1 == |text| then start + 1
    else if text[start + 1] == 0x5b then ControlEnd(text, start + 2)
    else if text[start + 1] in [0x5d, 0x50, 0x5e, 0x5f] then StringEnd(text, start + 2)
    else start + 2
  }

  method SkipEscapeSequence(text: Text, start: nat) returns (index: nat)
    requires start < |text|
    ensures index == EscapeEnd(text, start)
  {
    index := start + 1;
    if index == |text| {
      return;
    }
    var introducer := text[index];
    index := index + 1;
    if introducer == 0x5b {
      while index < |text|
        invariant start + 2 <= index <= |text|
        invariant ControlEnd(text, start + 2) == ControlEnd(text, index)
      {
        index := index + 1;
        if 0x40 <= text[index - 1] <= 0x7e {
          return;
        }
      }
      return;
    }
    if introducer in [0x5d, 0x50, 0x5e, 0x5f] {
      while index < |text|
        invariant start + 2 <= index <= |text|
        invariant StringEnd(text, start + 2) == StringEnd(text, index)
      {
        if text[index] == BEL {
          return index + 1;
        }
        if text[index] == ESC && index + 1 < |text| && text[index + 1] == BACKSLASH {
          return index + 2;
        }
        index := index + 1;
      }
    }
  }

  // ----- tokens -----

  datatype Token = Char(value: Text) | NewLine

  predicate IsAt(text: Text, i: nat, u: unit) { i < |text| && text[i] == u }

  /** One step of the scan: where it goes on, and the token found. */
  function Scan(text: Text, i: nat): (res: (nat, Option<Token>))
    requires i < |text|
    ensures i < res.0 <= |text|
  {
    if text[i] == ESC then (EscapeEnd(text, i), None)
    else if text[i] == CR || text[i] == LF then
      (if text[i] == CR && IsAt(text, i + 1, LF) then i + 2 else i + 1, Some(NewLine))
    else if text[i] == BS then
      (if IsAt(text, i + 1, SPACE) && IsAt(text, i + 2, BS) then i + 3 else i + 1, None)
    else if text[i] == DEL || text[i] < SPACE then (i + 1, None)
    else (i + PointLength(text, i), Some(Char(text[i..i + PointLength(text, i)])))
  }

  function Tokens(text: Text, i: nat): seq<Token>
    requires i <= |text|
    decreases |text| - i
  {
    if i == |text| then []
    else
      var (next, token) := Scan(text, i);
      (if token.Some? then [token.value] else []) + Tokens(text, next)
  }

  /** The scan step at `index`, with its own inner loop for escape sequences. */
  method ScanToken(text: Text, start: nat) returns (index: nat, token: Option<Token>)
    requires start < |text|
    ensures (index, token) == Scan(text, start)
  {
    hide EscapeEnd, PointLength;
    index, token := start, None;
    var c := text[index];
    if c == ESC {
      index := SkipEscapeSequence(text, index);
    } else if c == CR || c == LF {
      token := Some(NewLine);
      index := if c == CR && IsAt(text, index + 1, LF) then index + 2 else index + 1;
    } else if c == BS {
      index := if IsAt(text, index + 1, SPACE) && IsAt(text, index + 2, BS) then index + 3 else index + 1;
    } else if c == DEL || c < SPACE {
      index := index + 1;
    } else {
      var value := text[index..index + PointLength(text, index)];
      token := Some(Char(value));
      index := index + |value|;
    }
  }

  method TerminalOutputTokens(text: Text) returns (tokens: seq<Token>)
    ensures tokens == Tokens(text, 0)
  {
    hide Scan;
    tokens := [];
    var index := 0;
    while index < |text|
      invariant index <= |text|
      invariant tokens + Tokens(text, index) == Tokens(text, 0)
    {
      ghost var rest := Tokens(text, Scan(text, index).0);
      var next, token := ScanToken(text, index);
      if token.Some? {
        assert tokens + ([token.value] + rest) == (tokens + [token.value]) + rest;
        tokens := tokens + [token.value];
      }
      index := next;
    }
  }

  /** Only visible characters come out, one code point each. */
  lemma {:induction false} TokensAreVisible(text: Text, i: nat, k: nat)
    requires i <= |text| && k < |Tokens(text, i)|
    ensures var t := Tokens(text, i)[k];
      t.Char? ==> t.value != [] && t.value[0] >= SPACE && t.value[0] != DEL && FirstPoint(t.value) == t.value
    decreases |text| - i
  {
    var (next, token) := Scan(text, i);
    if token.None? {
      TokensAreVisible(text, next, k);
    } else if k > 0 {
      TokensAreVisible(text, next, k - 1);
    }
  }

  predicate Plain(text: Text) { forall i :: 0 <= i < |text| ==> text[i] >= SPACE && text[i] != DEL }

  function Chars(tokens: seq<Token>): Text
    decreases |tokens|
  {
    if tokens == [] then []
    else (if tokens[0].Char? then tokens[0].value else []) + Chars(tokens[1..])
  }

  lemma CharsCons(value: Text, rest: seq<Token>)
    ensures Chars([Char(value)] + rest) == value + Chars(rest)
  {
    assert ([Char(value)] + rest)[1..] == rest;
  }

  lemma TokensUnfold(text: Text, i: nat)
    requires i < |text|
    ensures Tokens(text, i) == (if Scan(text, i).1.Some? then [Scan(text, i).1.value] else []) + Tokens(text, Scan(text, i).0)
  {}

  lemma PlainScan(text: Text, i: nat)
    requires Plain(text) && i < |text|
    ensures Scan(text, i) == (i + PointLength(text, i), Some(Char(text[i..i + PointLength(text, i)])))
  {}

  /** Of text without control characters nothing is lost. */
  lemma {:induction false} PlainTextSurvives(text: Text, i: nat)
    requires Plain(text) && i <= |text|
    ensures Chars(Tokens(text, i)) == text[i..] && NewLine !in Tokens(text, i)
    decreases |text| - i
  {
    hide Scan, PointLength;
    if i == |text| {
      assert Tokens(text, i) == [];
    } else {
      hide Tokens, Chars;
      var n := PointLength(text, i);
      PlainTextSurvives(text, i + n);
      PlainScan(text, i);
      TokensUnfold(text, i);
      CharsCons(text[i..i + n], Tokens(text, i + n));
      assert text[i..] == text[i..i + n] + text[i + n..];
    }
  }

  /** The scan of `text` stops at position `k`. */
  predicate Reaches(text: Text, i: nat, k: nat)
    requires i <= |text|
    decreases |text| - i
  {
    i == k || (i < |text| && Reaches(text, Scan(text, i).0, k))
  }

  lemma {:induction false} ReachesFrom(text: Text, i: nat, k: nat)
    requires i <= |text| && Reaches(text, i, k)
    ensures i <= k <= |text|
    decreases |text| - i
  {
    if i != k {
      ReachesFrom(text, Scan(text, i).0, k);
    }
  }

  lemma {:induction false} ControlEndLocal(a: Text, b: Text, i: nat)
    requires i <= |a|
    ensures ControlEnd(a + b, i) <= |a| ==> ControlEnd(a, i) == ControlEnd(a + b, i)
    decreases |a| - i
  {
    if i < |a| {
      assert (a + b)[i] == a[i];
      ControlEndLocal(a, b, i + 1);
    }
  }

  lemma {:induction false} StringEndLocal(a: Text, b: Text, i: nat)
    requires i <= |a|
    ensures StringEnd(a + b, i) <= |a| ==> StringEnd(a, i) == StringEnd(a + b, i)
    decreases |a| - i
  {
    if i < |a| {
      assert (a + b)[i] == a[i];
      assert i + 1 < |a| ==> (a + b)[i + 1] == a[i + 1];
      StringEndLocal(a, b, i + 1);
    }
  }

  lemma ScanLocal(a: Text, b: Text, i: nat)
    requires i < |a| && Scan(a + b, i).0 <= |a|
    ensures Scan(a, i) == Scan(a + b, i)
  {
    var t := a + b;
    assert t[i] == a[i];
    assert i + 1 < |a| ==> t[i + 1] == a[i + 1];
    assert i + 2 < |a| ==> t[i + 2] == a[i + 2];
    if a[i] == ESC && i + 2 <= |a| {
      ControlEndLocal(a, b, i + 2);
      StringEndLocal(a, b, i + 2);
    }
    if i + PointLength(t, i) <= |a| {
      assert t[i..i + PointLength(t, i)] == a[i..i + PointLength(t, i)];
    }
  }

  lemma {:induction false} TokensShift(a: Text, b: Text, i: nat)
    requires i <= |b|
    ensures Tokens(a + b, |a| + i) == Tokens(b, i)
    decreases |b| - i
  {
    hide Scan;
    if i < |b| {
      ScanShift(a, b, i);
      TokensShift(a, b, Scan(b, i).0);
    }
  }

  lemma ScanShift(a: Text, b: Text, i: nat)
    requires i < |b|
    ensures Scan(a + b, |a| + i) == (|a| + Scan(b, i).0, Scan(b, i).1)
  {
    var t, k := a + b, |a| + i;
    assert t[k] == b[i];
    assert i + 1 < |b| ==> t[k + 1] == b[i + 1];
    assert i + 2 < |b| ==> t[k + 2] == b[i + 2];
    if b[i] == ESC && i + 2 <= |b| {
      EndsShift(a, b, i + 2);
    }
    assert t[k..k + PointLength(t, k)] == b[i..i + PointLength(b, i)];
  }

  lemma {:induction false} EndsShift(a: Text, b: Text, i: nat)
    requires i <= |b|
    ensures ControlEnd(a + b, |a| + i) == |a| + ControlEnd(b, i)
    ensures StringEnd(a + b, |a| + i) == |a| + StringEnd(b, i)
    decreases |b| - i
  {
    if i < |b| {
      assert (a + b)[|a| + i] == b[i];
      assert i + 1 < |b| ==> (a + b)[|a| + i + 1] == b[i + 1];
      EndsShift(a, b, i + 1);
    }
  }

  /** Output may arrive in two pieces, as long as the cut does not fall inside an escape sequence, a CR LF,
      an erasure or a surrogate pair. */
  lemma {:induction false} CutBetweenTokens(a: Text, b: Text, i: nat)
    requires i <= |a| && Reaches(a + b, i, |a|)
    ensures Tokens(a + b, i) == Tokens(a, i) + Tokens(b, 0)
    decreases |a| - i
  {
    hide Scan;
    if i == |a| {
      TokensShift(a, b, 0);
      assert Tokens(a, i) == [];
    } else {
      hide Tokens;
      var (next, token) := Scan(a + b, i);
      ReachesFrom(a + b, next, |a|);
      ScanLocal(a, b, i);
      CutBetweenTokens(a, b, next);
      TokensUnfold(a + b, i);
      TokensUnfold(a, i);
      var front := if token.Some? then [token.value] else [];
      assert front + (Tokens(a, next) + Tokens(b, 0)) == (front + Tokens(a, next)) + Tokens(b, 0);
    }
  }

  // ----- what the pieces of terminal output mean -----

  /** What is scanned in one step at the front is followed by what the rest means. */
  lemma TokensBehind(a: Text, b: Text, token: Option<Token>)
    requires a != [] && Scan(a + b, 0) == (|a|, token)
    ensures Tokens(a + b, 0) == (if token.Some? then [token.value] else []) + Tokens(b, 0)
  {
    hide Scan, Tokens;
    TokensUnfold(a + b, 0);
    TokensShift(a, b, 0);
  }

  lemma {:induction false} ControlEndsAtFinal(text: Text, i: nat, k: nat)
    requires i <= k < |text| && 0x40 <= text[k] <= 0x7e
    requires forall j :: i <= j < k ==> !(0x40 <= text[j] <= 0x7e)
    ensures ControlEnd(text, i) == k + 1
    decreases k - i
  {
    if i < k {
      ControlEndsAtFinal(text, i + 1, k);
    }
  }

  /** ESC `[`, parameters and a final character, as for colours and cursor movements: nothing is visible. */
  lemma ControlSequenceIsSilent(parameters: Text, final: unit, rest: Text)
    requires 0x40 <= final <= 0x7e && forall u :: u in parameters ==> !(0x40 <= u <= 0x7e)
    ensures Tokens([0x1b, 0x5b] + parameters + [final] + rest, 0) == Tokens(rest, 0)
  {
    hide Tokens;
    var a := [0x1b, 0x5b] + parameters + [final];
    forall j | 2 <= j < |a| - 1 ensures !(0x40 <= (a + rest)[j] <= 0x7e) {
      assert (a + rest)[j] == parameters[j - 2] && parameters[j - 2] in parameters;
    }
    ControlEndsAtFinal(a + rest, 2, |a| - 1);
    TokensBehind(a, rest, None);
  }

  lemma {:induction false} StringEndsAt(text: Text, i: nat, k: nat)
    requires i <= k < |text| && forall j :: i <= j < k ==> text[j] != BEL && text[j] != ESC
    ensures text[k] == BEL ==> StringEnd(text, i) == k + 1
    ensures text[k] == ESC && k + 1 < |text| && text[k + 1] == BACKSLASH ==> StringEnd(text, i) == k + 2
    decreases k - i
  {
    if i < k {
      StringEndsAt(text, i + 1, k);
    }
  }

  /** ESC and `]`, `P`, `^` or `_` begin a string, as for window titles, which BEL or ESC backslash ends. */
  lemma StringIsSilent(introducer: unit, body: Text, rest: Text)
    requires introducer in {0x5d, 0x50, 0x5e, 0x5f} && 0x07 !in body && 0x1b !in body
    ensures Tokens([0x1b, introducer] + body + [0x07] + rest, 0) == Tokens(rest, 0)
    ensures Tokens([0x1b, introducer] + body + [0x1b, 0x5c] + rest, 0) == Tokens(rest, 0)
  {
    hide Tokens;
    var a, b := [0x1b, introducer] + body + [0x07], [0x1b, introducer] + body + [0x1b, 0x5c];
    StringEndsAt(a + rest, 2, |body| + 2);
    StringEndsAt(b + rest, 2, |body| + 2);
    TokensBehind(a, rest, None);
    TokensBehind(b, rest, None);
  }

  /** Other escape sequences have two characters, and other control characters, with BEL and DEL, stand alone. */
  lemma ControlIsSilent(u: unit, rest: Text)
    ensures u !in {0x5b, 0x5d, 0x50, 0x5e, 0x5f} ==> Tokens([0x1b, u] + rest, 0) == Tokens(rest, 0)
    ensures (u < 0x20 || u == 0x7f) && u !in {0x08, 0x0a, 0x0d, 0x1b} ==> Tokens([u] + rest, 0) == Tokens(rest, 0)
  {
    hide Tokens;
    if u !in {0x5b, 0x5d, 0x50, 0x5e, 0x5f} {
      TokensBehind([0x1b, u], rest, None);
    }
    if (u < 0x20 || u == 0x7f) && u !in {0x08, 0x0a, 0x0d, 0x1b} {
      TokensBehind([u], rest, None);
    }
  }

  /** CR LF is one line break, and so is either of them alone. */
  lemma LineBreaks(rest: Text)
    ensures Tokens([0x0d, 0x0a] + rest, 0) == [NewLine] + Tokens(rest, 0)
    ensures Tokens([0x0a] + rest, 0) == [NewLine] + Tokens(rest, 0)
    ensures rest == [] || rest[0] != 0x0a ==> Tokens([0x0d] + rest, 0) == [NewLine] + Tokens(rest, 0)
  {
    hide Tokens;
    TokensBehind([0x0d, 0x0a], rest, Some(NewLine));
    TokensBehind([0x0a], rest, Some(NewLine));
    if rest == [] || rest[0] != 0x0a {
      TokensBehind([0x0d], rest, Some(NewLine));
    }
  }

  /** BS, space, BS is the echo of an erased character: the space in it is not visible output. */
  lemma ErasureIsSilent(rest: Text)
    ensures Tokens([0x08, 0x20, 0x08] + rest, 0) == Tokens(rest, 0)
    ensures !([0x20, 0x08] <= rest) ==> Tokens([0x08] + rest, 0) == Tokens(rest, 0)
  {
    hide Tokens;
    TokensBehind([0x08, 0x20, 0x08], rest, None);
    if !([0x20, 0x08] <= rest) {
      TokensBehind([0x08], rest, None);
    }
  }
}
