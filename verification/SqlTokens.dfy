/** The text that Rebind reads, cut into plain text, literals, identifiers and comments, and what that means for
    its placeholders. Nothing here is said in terms of the lexer's states. */
module SqlTokens {
  import opened SqlFlatten
  import opened SqlRebind

  /** Plain text, or text between an opening and a closing mark; the last token of a text may lack the closing one. */
  datatype Token = Plain(text: string) | Enclosed(open: string, body: string, close: string)

  function TokenText(t: Token): string {
    match t
    case Plain(text) => text
    case Enclosed(open, body, close) => open + body + close
  }

  function Written(ts: seq<Token>): string {
    if ts == [] then "" else TokenText(ts[0]) + Written(ts[1..])
  }

  /** No quotation mark, and no two dashes in a row. */
  predicate IsPlain(x: string) {
    && (forall i :: 0 <= i < |x| ==> x[i] != '\'' && x[i] != '"')
    && (forall i :: 0 < i < |x| ==> !(x[i - 1] == '-' && x[i] == '-'))
  }

  /** Which mark closes what the opening one begins. */
  predicate Closes(open: string, mark: char) {
    (open == "'" && mark == '\'') || (open == "\"" && mark == '"') || (open == "--" && mark == '\n')
  }

  predicate IsEnclosed(open: string, body: string, close: string, mark: char) {
    Closes(open, mark) && mark !in body && (close == [mark] || close == "")
  }

  ghost predicate TokenOk(t: Token, rest: string) {
    match t
    case Plain(text) => IsPlain(text) && !(text != "" && text[|text| - 1] == '-' && rest != "" && rest[0] == '-')
    case Enclosed(open, body, close) =>
      (exists mark :: IsEnclosed(open, body, close, mark)) && (close == "" ==> rest == "")
  }

  /** The tokens are those of the text they make up. */
  ghost predicate Lexed(ts: seq<Token>) {
    ts == [] || (TokenOk(ts[0], Written(ts[1..])) && Lexed(ts[1..]))
  }

  /******* Every text has tokens *******/

  function Find(x: string, mark: char): (n: nat)
    ensures n <= |x| && mark !in x[..n] && (n < |x| ==> x[n] == mark)
  {
    if x == [] || x[0] == mark then 0 else 1 + Find(x[1..], mark)
  }

  function OpeningOf(x: string): string
    requires x != []
  {
    if x[0] == '\'' then "'" else if x[0] == '"' then "\"" else if x[0] == '-' && DashAt(x, 1) then "--" else ""
  }

  function MarkOf(open: string): char {
    if open == "'" then '\'' else if open == "\"" then '"' else '\n'
  }

  /** The first token of a text: one plain character, or all up to the closing mark. */
  function FirstToken(x: string): (t: Token)
    requires x != []
    ensures 0 < |TokenText(t)| <= |x|
  {
    var open := OpeningOf(x);
    if open == "" then Plain([x[0]])
    else
      var rest := x[|open|..];
      var n := Find(rest, MarkOf(open));
      if n < |rest| then Enclosed(open, rest[..n], [MarkOf(open)]) else Enclosed(open, rest, "")
  }

  lemma FirstTokenIsPrefix(x: string)
    requires x != []
    ensures x == TokenText(FirstToken(x)) + x[|TokenText(FirstToken(x))|..]
  {
    var open := OpeningOf(x);
    if open == "" {
      assert x == [x[0]] + x[1..];
    } else {
      hide OpeningOf;
      var rest := x[|open|..];
      var n := Find(rest, MarkOf(open));
      assert x == open + rest by { OpeningIsPrefix(x); }
      if n < |rest| {
        Cut(open, rest, n);
      } else {
        assert open + rest + "" == x && x[|x|..] == "";
      }
    }
  }

  lemma OpeningIsPrefix(x: string)
    requires x != []
    ensures |OpeningOf(x)| <= |x| && x == OpeningOf(x) + x[|OpeningOf(x)|..]
  {}

  lemma Cut(open: string, rest: string, n: nat)
    requires n < |rest|
    ensures var w := open + rest[..n] + [rest[n]];
      open + rest == w + rest[n + 1..] && (open + rest)[|w|..] == rest[n + 1..]
  {
    assert rest == rest[..n] + [rest[n]] + rest[n + 1..];
  }

  function TokensOf(x: string): seq<Token>
    decreases |x|
  {
    if x == [] then [] else [FirstToken(x)] + TokensOf(x[|TokenText(FirstToken(x))|..])
  }

  lemma FirstTokenOk(x: string)
    requires x != []
    ensures TokenOk(FirstToken(x), x[|TokenText(FirstToken(x))|..])
  {
    var t, open := FirstToken(x), OpeningOf(x);
    if open != "" {
      var rest := x[|open|..];
      assert IsEnclosed(open, t.body, t.close, MarkOf(open)) by { assert rest[..|rest|] == rest; }
    }
  }

  /** Every text is made up of the tokens it is cut into. */
  lemma {:induction false} EveryTextLexes(x: string)
    ensures Written(TokensOf(x)) == x && Lexed(TokensOf(x))
    decreases |x|
  {
    hide FirstToken, TokenOk, Lexed, Written, TokenText;
    if x == [] {
      NoTokens();
    } else {
      var t, n := FirstToken(x), |TokenText(FirstToken(x))|;
      FirstTokenOk(x);
      FirstTokenIsPrefix(x);
      EveryTextLexes(x[n..]);
      OneMoreToken(t, TokensOf(x[n..]));
    }
  }

  lemma NoTokens()
    ensures Written([]) == "" && Lexed([])
  {}

  lemma OneMoreToken(t: Token, ts: seq<Token>)
    ensures Written([t] + ts) == TokenText(t) + Written(ts)
    ensures Lexed([t] + ts) <==> TokenOk(t, Written(ts)) && Lexed(ts)
  {
    hide TokenOk;
    assert ([t] + ts)[1..] == ts;
  }

  /******* Numbering *******/

  /** Plain text with its question marks replaced by numbers counting up from j. */
  function Numbered(x: string, j: nat): string {
    if x == [] then ""
    else if x[0] == '?' then "$" + Itoa(j) + Numbered(x[1..], j + 1)
    else [x[0]] + Numbered(x[1..], j)
  }

  function Marks(x: string): nat {
    if x == [] then 0 else (if x[0] == '?' then 1 else 0) + Marks(x[1..])
  }

  /** Only plain text is numbered; all other tokens stay as they are. */
  function NumberedTokens(ts: seq<Token>, j: nat): string {
    if ts == [] then ""
    else if ts[0].Plain? then Numbered(ts[0].text, j) + NumberedTokens(ts[1..], j + Marks(ts[0].text))
    else TokenText(ts[0]) + NumberedTokens(ts[1..], j)
  }

  /** Neither the first character of plain text nor the rest changes the lexer's state. */
  lemma PlainTail(x: string, y: string)
    requires x != [] && TokenOk(Plain(x), y)
    ensures TokenOk(Plain(x[1..]), y)
    ensures Step(Start, x[0], DashAt(x + y, 1)) == Start
  {}

  lemma {:induction false} PlainPasses(x: string, y: string, j: nat)
    requires TokenOk(Plain(x), y)
    ensures RebindFrom(x + y, Start, j) == Numbered(x, j) + RebindFrom(y, Start, j + Marks(x))
  {
    hide Itoa, TokenOk;
    if x == [] {
      assert x + y == y;
    } else {
      assert (x + y)[1..] == x[1..] + y;
      PlainTail(x, y);
      PlainPasses(x[1..], y, if x[0] == '?' then j + 1 else j);
    }
  }

  /** The state that an opening mark leads to. */
  function Inside(open: string): LexState {
    if open == "'" then InString else if open == "\"" then InQuoted else InComment
  }

  lemma StaysInside(open: string, mark: char, c: char, dashNext: bool)
    requires Closes(open, mark) && c != mark
    ensures Inside(open) != Start && Step(Inside(open), c, dashNext) == Inside(open)
  {}

  lemma {:induction false} BodyPasses(open: string, mark: char, body: string, y: string, j: nat)
    requires Closes(open, mark) && mark !in body
    ensures RebindFrom(body + y, Inside(open), j) == body + RebindFrom(y, Inside(open), j)
  {
    hide Itoa, RebindFrom, Closes, Inside, Step;
    if body == [] {
      assert body + y == y && body + RebindFrom(y, Inside(open), j) == RebindFrom(y, Inside(open), j);
    } else {
      var c, rest := body[0], body[1..];
      assert body == [c] + rest && c in body && forall d :: d in rest ==> d in body;
      StaysInside(open, mark, c, DashAt(rest + y, 0));
      assert body + y == [c] + (rest + y);
      RebindCons(c, rest + y, Inside(open), j);
      BodyPasses(open, mark, rest, y, j);
      assert body + RebindFrom(y, Inside(open), j) == [c] + (rest + RebindFrom(y, Inside(open), j));
    }
  }

  lemma OpeningPasses(open: string, mark: char, y: string, j: nat)
    requires Closes(open, mark)
    ensures RebindFrom(open + y, Start, j) == open + RebindFrom(y, Inside(open), j)
  {
    hide Itoa, RebindFrom;
    if open == "--" {
      assert open + y == ['-'] + (['-'] + y);
      RebindCons('-', ['-'] + y, Start, j);
      RebindCons('-', y, InComment, j);
      assert open + RebindFrom(y, InComment, j) == ['-'] + (['-'] + RebindFrom(y, InComment, j));
    } else {
      RebindCons(mark, y, Start, j);
    }
  }

  lemma ClosingPasses(open: string, mark: char, y: string, j: nat)
    requires Closes(open, mark)
    ensures RebindFrom([mark] + y, Inside(open), j) == [mark] + RebindFrom(y, Start, j)
  {
    hide Itoa, RebindFrom;
    RebindCons(mark, y, Inside(open), j);
  }

  lemma EnclosedPasses(open: string, body: string, close: string, y: string, j: nat)
    requires TokenOk(Enclosed(open, body, close), y)
    ensures RebindFrom(open + body + close + y, Start, j) == open + body + close + RebindFrom(y, Start, j)
  {
    hide Itoa, RebindFrom;
    var mark :| IsEnclosed(open, body, close, mark);
    var rest := body + (close + y);
    assert open + body + close + y == open + rest;
    OpeningPasses(open, mark, rest, j);
    BodyPasses(open, mark, body, close + y, j);
    if close == "" {
      assert close + y == "";
      RebindNothing(Start, j);
      RebindNothing(Inside(open), j);
    } else {
      ClosingPasses(open, mark, y, j);
    }
  }

  lemma {:induction false} TokensRebound(ts: seq<Token>, j: nat)
    requires Lexed(ts)
    ensures RebindFrom(Written(ts), Start, j) == NumberedTokens(ts, j)
  {
    hide Itoa, RebindFrom, Numbered, TokenOk;
    if ts == [] {
      RebindNothing(Start, j);
    } else {
      var rest := Written(ts[1..]);
      match ts[0]
      case Plain(text) =>
        PlainPasses(text, rest, j);
        TokensRebound(ts[1..], j + Marks(text));
      case Enclosed(open, body, close) =>
        EnclosedPasses(open, body, close, rest, j);
        TokensRebound(ts[1..], j);
    }
  }

  /**
   * The output is the text with the question marks of its plain text numbered 1, 2, ... from left to right, and
   * with literals, quoted identifiers and comments as they are, closed or not.
   */
  lemma ReboundTokens(ts: seq<Token>)
    requires Lexed(ts)
    ensures Rebound(Written(ts)) == NumberedTokens(ts, 1)
  {
    TokensRebound(ts, 1);
  }

  /** For every text, then, the output is what numbering its tokens gives. */
  lemma ReboundByTokens(x: string)
    ensures Rebound(x) == NumberedTokens(TokensOf(x), 1)
  {
    hide *;
    EveryTextLexes(x);
    ReboundTokens(TokensOf(x));
  }

  /******* Where the placeholders are *******/

  /** Position i lies in plain text. */
  predicate InPlain(ts: seq<Token>, i: int) {
    ts != [] &&
    var n := |TokenText(ts[0])|;
    if i < n then i >= 0 && ts[0].Plain? else InPlain(ts[1..], i - n)
  }

  /** The lexer's state at position i of a text that is read from state st. */
  function StateFrom(x: string, st: LexState, i: nat): LexState
    requires i <= |x|
  {
    if i == 0 then st else Step(StateFrom(x, st, i - 1), x[i - 1], DashAt(x, i))
  }

  lemma {:induction false} StateFromStart(x: string, i: nat)
    requires i <= |x|
    ensures StateFrom(x, Start, i) == StateAt(x, i)
  {
    hide Step;
    if i == 0 {
    } else {
      StateFromStart(x, i - 1);
    }
  }

  lemma {:induction false} StateShift(x: string, y: string, st: LexState, i: nat)
    requires i <= |y|
    ensures StateFrom(x + y, st, |x| + i) == StateFrom(y, StateFrom(x + y, st, |x|), i)
  {
    hide Step;
    if i == 0 {
    } else {
      StateShift(x, y, st, i - 1);
      assert (x + y)[|x| + i - 1] == y[i - 1] && DashAt(x + y, |x| + i) == DashAt(y, i);
    }
  }

  lemma {:induction false} PlainStates(x: string, y: string, i: nat)
    requires TokenOk(Plain(x), y) && i <= |x|
    ensures StateFrom(x + y, Start, i) == Start
  {
    if i == 0 {
    } else {
      PlainStates(x, y, i - 1);
    }
  }

  lemma {:induction false} BodyStates(open: string, mark: char, body: string, y: string, i: nat)
    requires Closes(open, mark) && mark !in body && i <= |body|
    ensures StateFrom(body + y, Inside(open), i) == Inside(open)
  {
    if i == 0 {
    } else {
      BodyStates(open, mark, body, y, i - 1);
      StaysInside(open, mark, body[i - 1], DashAt(body + y, i));
    }
  }

  lemma OpeningState(open: string, mark: char, y: string)
    requires Closes(open, mark)
    ensures StateFrom(open + y, Start, |open|) == Inside(open)
    ensures forall i :: 0 < i <= |open| ==> StateFrom(open + y, Start, i) == Inside(open)
  {
    assert StateFrom(open + y, Start, 1) == Inside(open);
  }

  /** In an enclosed token the lexer is never at its start state but before the opening mark, and it is there
      again after the closing one. */
  lemma EnclosedStates(open: string, body: string, close: string, y: string, i: nat)
    requires TokenOk(Enclosed(open, body, close), y) && 0 < i <= |open + body + close|
    ensures i < |open + body + close| ==> StateFrom(open + body + close + y, Start, i) != Start
    ensures close != "" ==> StateFrom(open + body + close + y, Start, |open + body + close|) == Start
  {
    var mark :| IsEnclosed(open, body, close, mark);
    hide StateFrom, IsEnclosed;
    var rest := body + (close + y);
    assert open + body + close + y == open + rest;
    OpeningState(open, mark, rest);
    if i > |open| {
      var k := i - |open|;
      StateShift(open, rest, Start, k);
      if k <= |body| {
        BodyStates(open, mark, body, close + y, k);
      }
    }
    if close != "" {
      var n := |body|;
      StateShift(open, rest, Start, n + 1);
      BodyStates(open, mark, body, close + y, n);
      ClosingState(open, mark, body, y);
    }
  }

  lemma ClosingState(open: string, mark: char, body: string, y: string)
    requires Closes(open, mark) && mark !in body
    ensures StateFrom(body + ([mark] + y), Inside(open), |body| + 1) == Start
  {
    BodyStates(open, mark, body, [mark] + y, |body|);
  }

  /**
   * The placeholders of a text are exactly the question marks of its plain text.
   */
  lemma {:induction false} PlaceholdersExactly(ts: seq<Token>, i: nat)
    requires Lexed(ts) && i < |Written(ts)|
    ensures Written(ts)[i] == '?' && StateFrom(Written(ts), Start, i) == Start
      <==> Written(ts)[i] == '?' && InPlain(ts, i)
    decreases |ts|
  {
    hide StateFrom, TokenOk, Closes;
    var t, rest := ts[0], Written(ts[1..]);
    var w := TokenText(t);
    if i < |w| {
      match t
      case Plain(text) => PlainStates(text, rest, i);
      case Enclosed(open, body, close) =>
        if i > 0 {
          EnclosedStates(open, body, close, rest, i);
        } else {
          OpeningIsNoMark(open, body, close, rest);
        }
    } else {
      match t {
        case Plain(text) => PlainStates(text, rest, |text|);
        case Enclosed(open, body, close) =>
          OpeningIsNoMark(open, body, close, rest);
          EnclosedStates(open, body, close, rest, |w|);
      }
      StateShift(w, rest, Start, i - |w|);
      PlaceholdersExactly(ts[1..], i - |w|);
    }
  }

  lemma OpeningIsNoMark(open: string, body: string, close: string, y: string)
    requires TokenOk(Enclosed(open, body, close), y)
    ensures open != "" && open[0] != '?' && (close == "" ==> y == "")
  {}

  /** The same for every text, with the lexer's own definition of a placeholder. */
  lemma PlaceholderIsPlainMark(x: string, i: nat)
    requires i < |x|
    ensures IsPlaceholder(x, i) <==> x[i] == '?' && InPlain(TokensOf(x), i)
  {
    hide TokensOf, Lexed, Written, InPlain, StateFrom, StateAt;
    EveryTextLexes(x);
    PlaceholdersExactly(TokensOf(x), i);
    StateFromStart(x, i);
  }

  /******* Plain text *******/

  lemma {:induction false} MarksAppend(x: string, y: string)
    ensures Marks(x + y) == Marks(x) + Marks(y)
  {
    if x == [] {
      assert x + y == y;
    } else {
      assert (x + y)[1..] == x[1..] + y;
      MarksAppend(x[1..], y);
    }
  }

  lemma {:induction false} NoMarks(x: string)
    ensures Marks(x) == 0 <==> '?' !in x
  {
    if x == [] {
    } else {
      NoMarks(x[1..]);
      assert forall c :: c in x <==> c == x[0] || c in x[1..];
    }
  }

  /** In text with no quotation marks and no two dashes in a row, every question mark is a placeholder. */
  lemma PlainText(x: string)
    requires IsPlain(x)
    ensures Rebound(x) == Numbered(x, 1)
    ensures forall i: nat :: i < |x| ==> (IsPlaceholder(x, i) <==> x[i] == '?')
    ensures Placeholders(x, |x|) == Marks(x)
  {
    hide Itoa, Rebound, Placeholders, Marks, IsPlaceholder, Numbered, RebindFrom;
    assert Rebound(x) == Numbered(x, 1) by {
      PlainPasses(x, "", 1);
      RebindNothing(Start, 1 + Marks(x));
      assert x + "" == x && Numbered(x, 1) + "" == Numbered(x, 1);
      ReboundIs(x);
    }
    forall i: nat | i < |x|
      ensures IsPlaceholder(x, i) <==> x[i] == '?'
    {
      PlainPosition(x, i);
    }
    PlainCount(x, |x|);
    assert x[..|x|] == x;
  }

  lemma PlainPosition(x: string, i: nat)
    requires IsPlain(x) && i < |x|
    ensures IsPlaceholder(x, i) <==> x[i] == '?'
  {
    hide StateAt, StateFrom, IsPlain;
    PlainStates(x, "", i);
    assert x + "" == x;
    StateFromStart(x, i);
  }

  lemma ReboundIs(x: string)
    ensures Rebound(x) == RebindFrom(x, Start, 1)
  {}

  lemma {:induction false} PlainCount(x: string, n: nat)
    requires n <= |x| && forall i: nat :: i < |x| ==> (IsPlaceholder(x, i) <==> x[i] == '?')
    ensures Placeholders(x, n) == Marks(x[..n])
  {
    hide IsPlaceholder;
    if n == 0 {
    } else {
      PlainCount(x, n - 1);
      MarksAppend(x[..n - 1], [x[n - 1]]);
      assert x[..n] == x[..n - 1] + [x[n - 1]];
      assert Marks([x[n - 1]]) == if x[n - 1] == '?' then 1 else 0;
    }
  }

  /******* Comments *******/

  /** No plain token holds a question mark. */
  predicate Unmarked(ts: seq<Token>) {
    ts == [] || ((ts[0].Plain? ==> '?' !in ts[0].text) && Unmarked(ts[1..]))
  }

  /** No plain token after the first comment holds a question mark. */
  predicate UnmarkedAfterComment(ts: seq<Token>) {
    ts == [] || if ts[0].Enclosed? && ts[0].open == "--" then Unmarked(ts[1..]) else UnmarkedAfterComment(ts[1..])
  }

  lemma NoPlaceholderCons(c: char, y: string, st: LexState)
    ensures NoPlaceholder([c] + y, st) <==> !(st == Start && c == '?') && NoPlaceholder(y, Step(st, c, DashAt(y, 0)))
    ensures NoPlaceholder("", st)
  {
    assert ([c] + y)[1..] == y && DashAt([c] + y, 1) == DashAt(y, 0);
  }

  lemma CommentsLastCons(c: char, y: string, st: LexState)
    requires st != InComment
    ensures CommentsLast([c] + y, st) <==> CommentsLast(y, Step(st, c, DashAt(y, 0)))
    ensures CommentsLast("", st)
  {
    hide NoPlaceholder;
    assert ([c] + y)[1..] == y && DashAt([c] + y, 1) == DashAt(y, 0);
  }

  lemma {:induction false} PlainNoPlaceholder(x: string, y: string)
    requires TokenOk(Plain(x), y)
    ensures NoPlaceholder(x + y, Start) <==> '?' !in x && NoPlaceholder(y, Start)
    ensures CommentsLast(x + y, Start) <==> CommentsLast(y, Start)
  {
    hide NoPlaceholder, CommentsLast, TokenOk, Step;
    if x == [] {
      assert x + y == y;
    } else {
      PlainTail(x, y);
      PlainNoPlaceholder(x[1..], y);
      assert x + y == [x[0]] + (x[1..] + y) && DashAt(x + y, 1) == DashAt(x[1..] + y, 0);
      assert forall c :: c in x <==> c == x[0] || c in x[1..];
      NoPlaceholderCons(x[0], x[1..] + y, Start);
      CommentsLastCons(x[0], x[1..] + y, Start);
    }
  }

  lemma {:induction false} BodyNoPlaceholder(open: string, mark: char, body: string, y: string)
    requires Closes(open, mark) && mark !in body
    ensures NoPlaceholder(body + y, Inside(open)) <==> NoPlaceholder(y, Inside(open))
    ensures open != "--" ==> (CommentsLast(body + y, Inside(open)) <==> CommentsLast(y, Inside(open)))
  {
    hide NoPlaceholder, CommentsLast, Closes, Step;
    if body == [] {
      assert body + y == y;
    } else {
      var c, rest := body[0], body[1..];
      assert c in body && forall d :: d in rest ==> d in body;
      StaysInside(open, mark, c, DashAt(rest + y, 0));
      BodyNoPlaceholder(open, mark, rest, y);
      assert body + y == [c] + (rest + y);
      NoPlaceholderCons(c, rest + y, Inside(open));
      if open != "--" {
        InsideQuote(open, mark);
        CommentsLastCons(c, rest + y, Inside(open));
      }
    }
  }

  lemma InsideQuote(open: string, mark: char)
    requires Closes(open, mark) && open != "--"
    ensures Inside(open) != InComment && open == [mark]
    ensures Step(Start, mark, true) == Step(Start, mark, false) == Inside(open)
  {}

  lemma MarkCloses(open: string, mark: char, dashNext: bool)
    requires Closes(open, mark)
    ensures Step(Inside(open), mark, dashNext) == Start && Inside(open) != Start
  {}

  /** What an enclosed token leaves to be looked at is what follows it; after a comment, for placeholders only. */
  lemma EnclosedNoPlaceholder(open: string, body: string, close: string, y: string)
    requires TokenOk(Enclosed(open, body, close), y)
    ensures var x := open + body + close + y;
      && (NoPlaceholder(x, Start) <==> NoPlaceholder(y, Start))
      && (CommentsLast(x, Start) <==> if open == "--" then NoPlaceholder(y, Start) else CommentsLast(y, Start))
  {
    var mark :| IsEnclosed(open, body, close, mark);
    hide NoPlaceholder, CommentsLast, TokenOk, Closes, Step, Inside;
    var rest := close + y;
    assert open + body + close + y == open + (body + rest);
    BodyNoPlaceholder(open, mark, body, rest);
    if close == "" {
      assert rest == "" && y == "" by { UnclosedIsLast(open, body, y); }
      NoPlaceholderCons('x', "", Inside(open));
      NoPlaceholderCons('x', "", Start);
      CommentsLastCons('x', "", Start);
    } else {
      MarkCloses(open, mark, DashAt(y, 0));
      NoPlaceholderCons(mark, y, Inside(open));
    }
    if open == "--" {
      OpenComment(body + rest);
    } else {
      InsideQuote(open, mark);
      NoPlaceholderCons(mark, body + rest, Start);
      CommentsLastCons(mark, body + rest, Start);
      QuoteIsNoMark(open, mark);
      if close == "" {
        CommentsLastCons('x', "", Inside(open));
      } else {
        CommentsLastCons(mark, y, Inside(open));
      }
    }
  }

  lemma UnclosedIsLast(open: string, body: string, y: string)
    requires TokenOk(Enclosed(open, body, ""), y)
    ensures y == ""
  {}

  lemma QuoteIsNoMark(open: string, mark: char)
    requires Closes(open, mark)
    ensures mark != '?'
  {}

  lemma OpenComment(z: string)
    ensures NoPlaceholder("--" + z, Start) <==> NoPlaceholder(z, Inside("--"))
    ensures CommentsLast("--" + z, Start) <==> NoPlaceholder(z, Inside("--"))
  {
    hide NoPlaceholder;
    assert "--" + z == ['-'] + (['-'] + z);
    NoPlaceholderCons('-', ['-'] + z, Start);
    NoPlaceholderCons('-', z, InComment);
    CommentsLastCons('-', ['-'] + z, Start);
  }

  lemma {:induction false} TokensComments(ts: seq<Token>)
    requires Lexed(ts)
    ensures NoPlaceholder(Written(ts), Start) <==> Unmarked(ts)
    ensures CommentsLast(Written(ts), Start) <==> UnmarkedAfterComment(ts)
  {
    hide NoPlaceholder, CommentsLast, TokenOk;
    if ts == [] {
      NoPlaceholderCons('x', "", Start);
      CommentsLastCons('x', "", Start);
    } else {
      var rest := Written(ts[1..]);
      TokensComments(ts[1..]);
      match ts[0]
      case Plain(text) => PlainNoPlaceholder(text, rest);
      case Enclosed(open, body, close) => EnclosedNoPlaceholder(open, body, close, rest);
    }
  }

  /** Which texts flattening and rebinding commute on, said by their tokens. */
  lemma CommentsLastExactly(x: string)
    ensures CommentsLast(x, Start) <==> UnmarkedAfterComment(TokensOf(x))
  {
    hide *;
    EveryTextLexes(x);
    TokensComments(TokensOf(x));
  }

  /******* Numbers and dollar signs *******/

  /** Numbers are written without leading zeros. */
  lemma {:induction false} ItoaCanonical(n: nat)
    ensures Itoa(n)[0] == '0' <==> n == 0
    ensures n == 0 ==> Itoa(n) == "0"
  {
    if n < 10 {
    } else {
      ItoaCanonical(n / 10);
    }
  }

  /** A text without dollar signs is always recovered. */
  lemma NoDollarRecovered(x: string)
    requires '$' !in x
    ensures Decode(Rebound(x)) == x
  {
    hide Decode, Rebound;
    NoDollarUnambiguous(x, Start, 1);
    DecodeRebound(x);
  }

  lemma {:induction false} NoDollarUnambiguous(x: string, st: LexState, j: nat)
    requires '$' !in x
    ensures Unambiguous(x, st, j)
  {
    hide Itoa;
    if x == [] {
    } else {
      assert x[0] in x && forall c :: c in x[1..] ==> c in x;
      NoDollarUnambiguous(x[1..], Start, j + 1);
      NoDollarUnambiguous(x[1..], Step(st, x[0], DashAt(x, 1)), j);
    }
  }
}
