/** Placeholder renumbering (`__sqlbundle_postgres.Rebind`) and how it meets whitespace normalisation. */
module SqlRebind {
  import opened SqlFlatten

  /******* Decimal numbers *******/

  predicate IsDigit(c: char) {
    '0' <= c <= '9'
  }

  function Itoa(n: nat): (s: string)
    ensures s != [] && forall i :: 0 <= i < |s| ==> IsDigit(s[i])
  {
    var digit := ['0' + (n % 10) as char];
    if n < 10 then digit else Itoa(n / 10) + digit
  }

  function Atoi(s: string): nat
    requires forall i :: 0 <= i < |s| ==> IsDigit(s[i])
  {
    if s == [] then 0
    else
      var last := s[|s| - 1];
      assert IsDigit(last);
      10 * Atoi(s[..|s| - 1]) + (last as int - '0' as int)
  }

  lemma {:induction false} AtoiItoa(n: nat)
    ensures Atoi(Itoa(n)) == n
  {
    if n < 10 {
      assert Itoa(n)[..0] == [];
    } else {
      AtoiItoa(n / 10);
      var s := Itoa(n);
      assert s[..|s| - 1] == Itoa(n / 10);
    }
  }

  /******* The lexer *******/

  datatype LexState = Start | InString | InQuoted | InComment

  /** The state after reading c; a '-' looks ahead for a second one. */
  function Step(st: LexState, c: char, dashNext: bool): LexState {
    match st
    case Start =>
      if c == '-' && dashNext then InComment
      else if c == '"' then InQuoted
      else if c == '\'' then InString
      else Start
    case InString => if c == '\'' then Start else InString
    case InQuoted => if c == '"' then Start else InQuoted
    case InComment => if c == '\n' then Start else InComment
  }

  predicate DashAt(x: string, i: nat) {
    i < |x| && x[i] == '-'
  }

  /** The lexer's state before position i. */
  function StateAt(x: string, i: nat): LexState
    requires i <= |x|
  {
    if i == 0 then Start else Step(StateAt(x, i - 1), x[i - 1], DashAt(x, i))
  }

  predicate IsPlaceholder(x: string, i: nat)
    requires i < |x|
  {
    x[i] == '?' && StateAt(x, i) == Start
  }

  /** How many placeholders lie before position i. */
  function Placeholders(x: string, i: nat): nat
    requires i <= |x|
  {
    if i == 0 then 0 else Placeholders(x, i - 1) + if IsPlaceholder(x, i - 1) then 1 else 0
  }

  function Marker(j: nat): string {
    "$" + Itoa(j)
  }

  /** What position i of the text becomes. */
  function Piece(x: string, i: nat): string
    requires i < |x|
  {
    if IsPlaceholder(x, i) then Marker(Placeholders(x, i) + 1) else [x[i]]
  }

  /** The rebound text, position by position. */
  function Pieces(x: string, n: nat): string
    requires n <= |x|
  {
    if n == 0 then "" else Pieces(x, n - 1) + Piece(x, n - 1)
  }

  /******* The loop and the recursion it computes *******/

  function RebindFrom(x: string, st: LexState, j: nat): string {
    if x == [] then ""
    else if st == Start && x[0] == '?' then Marker(j) + RebindFrom(x[1..], Start, j + 1)
    else [x[0]] + RebindFrom(x[1..], Step(st, x[0], DashAt(x, 1)), j)
  }

  function Rebound(x: string): string {
    RebindFrom(x, Start, 1)
  }

  /** One round of the loop moves the next piece from the rest to the output. */
  lemma RebindRound(out: string, x: string, i: nat, st: LexState, j: nat)
    requires i < |x|
    ensures out + RebindFrom(x[i..], st, j) ==
      if st == Start && x[i] == '?' then out + Marker(j) + RebindFrom(x[i + 1..], Start, j + 1)
      else out + [x[i]] + RebindFrom(x[i + 1..], Step(st, x[i], DashAt(x, i + 1)), j)
  {
    hide Itoa;
    var rest := x[i..];
    assert rest[1..] == x[i + 1..] && DashAt(rest, 1) == DashAt(x, i + 1);
  }

  method Rebind(sql: string) returns (out: string)
    ensures out == Rebound(sql)
  {
    hide Itoa, RebindFrom;
    out := "";
    var j := 1;
    var state := Start;
    var i := 0;
    assert sql[0..] == sql && "" + RebindFrom(sql, Start, 1) == RebindFrom(sql, Start, 1);
    while i < |sql|
      invariant 0 <= i <= |sql| && j > 0
      invariant Rebound(sql) == out + RebindFrom(sql[i..], state, j)
    {
      var ch := sql[i];
      RebindRound(out, sql, i, state, j);
      match state {
        case Start =>
          match ch {
            case '?' =>
              out := out + ("$" + Itoa(j));
              state := Start;
              j := j + 1;
              i := i + 1;
              continue;
            case '-' =>
              if i + 1 < |sql| && sql[i + 1] == '-' {
                state := InComment;
              }
            case '"' =>
              state := InQuoted;
            case '\'' =>
              state := InString;
            case _ =>
          }
        case InString =>
          if ch == '\'' {
            state := Start;
          }
        case InQuoted =>
          if ch == '"' {
            state := Start;
          }
        case InComment =>
          if ch == '\n' {
            state := Start;
          }
      }
      out := out + [ch];
      i := i + 1;
    }
    RebindNothing(state, j);
    assert sql[i..] == "" && out + "" == out;
  }

  lemma RebindNothing(st: LexState, j: nat)
    ensures RebindFrom("", st, j) == ""
  {}

  /** Every position becomes its own piece, and the placeholders are numbered 1, 2, ... from left to right. */
  lemma {:induction false} ReboundPrefix(x: string, n: nat)
    requires n <= |x|
    ensures Rebound(x) == Pieces(x, n) + RebindFrom(x[n..], StateAt(x, n), Placeholders(x, n) + 1)
  {
    hide Marker, Itoa, RebindFrom, DashAt;
    if n == 0 {
      assert x[0..] == x && "" + Rebound(x) == Rebound(x);
    } else {
      ReboundPrefix(x, n - 1);
      RebindRound(Pieces(x, n - 1), x, n - 1, StateAt(x, n - 1), Placeholders(x, n - 1) + 1);
      assert Pieces(x, n) == Pieces(x, n - 1) + Piece(x, n - 1);
    }
  }

  lemma {:induction false} ReboundIsNumbered(x: string)
    ensures Rebound(x) == Pieces(x, |x|)
  {
    hide *;
    ReboundPrefix(x, |x|);
    RebindNothing(StateAt(x, |x|), Placeholders(x, |x|) + 1);
    assert x[|x|..] == "";
    assert Pieces(x, |x|) + "" == Pieces(x, |x|);
  }

  /******* The rebound text passes through the same states *******/

  lemma RebindCons(c: char, y: string, st: LexState, j: nat)
    requires !(st == Start && c == '?')
    ensures RebindFrom([c] + y, st, j) == [c] + RebindFrom(y, Step(st, c, DashAt(y, 0)), j)
  {
    hide Itoa;
    assert ([c] + y)[1..] == y && DashAt([c] + y, 1) == DashAt(y, 0);
  }

  lemma RebindHead(x: string, st: LexState, j: nat)
    ensures RebindFrom(x, st, j) == [] <==> x == []
    ensures DashAt(RebindFrom(x, st, j), 0) <==> DashAt(x, 0)
  {
    hide Itoa;
  }

  /** A text of '$' and digits passes unchanged and leaves the lexer where it was. */
  lemma {:induction false} NeutralPrefix(w: string, y: string, j: nat)
    requires forall i :: 0 <= i < |w| ==> w[i] == '$' || IsDigit(w[i])
    ensures RebindFrom(w + y, Start, j) == w + RebindFrom(y, Start, j)
  {
    hide Itoa, RebindFrom;
    if w == [] {
      assert w + y == y && w + RebindFrom(y, Start, j) == RebindFrom(y, Start, j);
    } else {
      assert w + y == [w[0]] + (w[1..] + y);
      RebindCons(w[0], w[1..] + y, Start, j);
      NeutralPrefix(w[1..], y, j);
      assert w + RebindFrom(y, Start, j) == [w[0]] + (w[1..] + RebindFrom(y, Start, j));
    }
  }

  lemma {:induction false} RebindTwiceFrom(x: string, st: LexState, j: nat, k: nat)
    ensures RebindFrom(RebindFrom(x, st, j), st, k) == RebindFrom(x, st, j)
  {
    hide Itoa;
    if x == [] {
    } else if st == Start && x[0] == '?' {
      RebindTwiceFrom(x[1..], Start, j + 1, k);
      NeutralPrefix(Marker(j), RebindFrom(x[1..], Start, j + 1), k);
    } else {
      var st' := Step(st, x[0], DashAt(x, 1));
      RebindHead(x[1..], st', j);
      RebindCons(x[0], RebindFrom(x[1..], st', j), st, k);
      RebindTwiceFrom(x[1..], st', j, k);
    }
  }

  lemma RebindIdempotent(x: string)
    ensures Rebound(Rebound(x)) == Rebound(x)
  {
    RebindTwiceFrom(x, Start, 1, 1);
  }

  /** Dollar signs and digits neither change the state nor are placeholders. */
  lemma {:induction false} NeutralStretch(y: string, p: nat, q: nat)
    requires p <= q <= |y| && StateAt(y, p) == Start
    requires forall k :: p <= k < q ==> y[k] == '$' || IsDigit(y[k])
    ensures StateAt(y, q) == Start && Placeholders(y, q) == Placeholders(y, p)
    decreases q - p
  {
    if p == q {
    } else {
      NeutralStretch(y, p, q - 1);
    }
  }

  lemma PieceAt(x: string, i: nat)
    requires i < |x|
    ensures var y, p := Rebound(x), |Pieces(x, i)|;
      && |Pieces(x, i + 1)| == p + |Piece(x, i)| <= |y|
      && y[p..p + |Piece(x, i)|] == Piece(x, i)
      && (DashAt(y, |Pieces(x, i + 1)|) <==> DashAt(x, i + 1))
  {
    hide Piece, RebindFrom, StateAt, Placeholders;
    ReboundPrefix(x, i + 1);
    RebindHead(x[i + 1..], StateAt(x, i + 1), Placeholders(x, i + 1) + 1);
    assert Pieces(x, i + 1) == Pieces(x, i) + Piece(x, i);
  }

  /** One character read in the same state, with the same lookahead, in two texts. */
  lemma SameStep(y: string, p: nat, x: string, i: nat)
    requires p < |y| && i < |x| && y[p] == x[i] && StateAt(y, p) == StateAt(x, i)
    requires DashAt(y, p + 1) <==> DashAt(x, i + 1)
    ensures StateAt(y, p + 1) == StateAt(x, i + 1)
    ensures Placeholders(y, p + 1) == Placeholders(y, p) + if IsPlaceholder(x, i) then 1 else 0
  {}

  lemma AfterPlaceholder(x: string, i: nat)
    requires i < |x| && IsPlaceholder(x, i)
    ensures StateAt(x, i) == StateAt(x, i + 1) == Start
  {}

  lemma PieceIs(x: string, i: nat)
    requires i < |x|
    ensures IsPlaceholder(x, i) ==>
      forall k :: 0 <= k < |Piece(x, i)| ==> Piece(x, i)[k] == '$' || IsDigit(Piece(x, i)[k])
    ensures !IsPlaceholder(x, i) ==> Piece(x, i) == [x[i]]
  {
    hide Placeholders, StateAt;
  }

  /** The output passes through the states of the text, position by position, and holds no placeholder. */
  lemma {:induction false} ReboundStates(x: string, i: nat)
    requires i <= |x|
    ensures |Pieces(x, i)| <= |Rebound(x)|
    ensures StateAt(Rebound(x), |Pieces(x, i)|) == StateAt(x, i)
    ensures Placeholders(Rebound(x), |Pieces(x, i)|) == 0
  {
    hide Rebound, Pieces, Piece, IsPlaceholder, StateAt, Placeholders, DashAt;
    if i == 0 {
      NoPieces(x);
    } else {
      ReboundStates(x, i - 1);
      PieceAt(x, i - 1);
      PieceIs(x, i - 1);
      var y, p, q, piece := Rebound(x), |Pieces(x, i - 1)|, |Pieces(x, i)|, Piece(x, i - 1);
      assert forall k :: p <= k < q ==> y[k] == y[p..q][k - p] == piece[k - p];
      if IsPlaceholder(x, i - 1) {
        AfterPlaceholder(x, i - 1);
        NeutralStretch(y, p, q);
      } else {
        SameStep(y, p, x, i - 1);
      }
    }
  }

  lemma NoPieces(x: string)
    ensures Pieces(x, 0) == "" && StateAt(x, 0) == Start && Placeholders(x, 0) == 0
    ensures StateAt(Rebound(x), 0) == Start && Placeholders(Rebound(x), 0) == 0
  {}

  lemma NoPlaceholderLeft(x: string)
    ensures Placeholders(Rebound(x), |Rebound(x)|) == 0
  {
    hide *;
    ReboundStates(x, |x|);
    ReboundIsNumbered(x);
  }

  /******* Recovering the text: a counting decoder *******/

  function DecodeFrom(y: string, st: LexState, j: nat): string
    decreases |y|
  {
    if y == [] then ""
    else if st == Start && y[0] == '$' && Itoa(j) <= y[1..] then
      "?" + DecodeFrom(y[1 + |Itoa(j)|..], Start, j + 1)
    else [y[0]] + DecodeFrom(y[1..], Step(st, y[0], DashAt(y, 1)), j)
  }

  function Decode(y: string): string {
    DecodeFrom(y, Start, 1)
  }

  /** The text holds no '$' that already reads as the placeholder due next. */
  predicate Unambiguous(x: string, st: LexState, j: nat) {
    x == [] ||
    if st == Start && x[0] == '?' then Unambiguous(x[1..], Start, j + 1)
    else !(st == Start && x[0] == '$' && Itoa(j) <= x[1..])
         && Unambiguous(x[1..], Step(st, x[0], DashAt(x, 1)), j)
  }

  lemma PrefixByHead(a: string, b: string)
    requires a != [] && b != []
    ensures a <= b <==> a[0] == b[0] && a[1..] <= b[1..]
  {
    if a[0] == b[0] && a[1..] <= b[1..] {
      assert a == [a[0]] + a[1..] && b == [b[0]] + b[1..];
    }
  }

  lemma {:induction false} DigitPrefix(ds: string, x: string, j: nat)
    requires forall i :: 0 <= i < |ds| ==> IsDigit(ds[i])
    ensures ds <= RebindFrom(x, Start, j) <==> ds <= x
  {
    hide Itoa;
    if ds != [] && x != [] && IsDigit(x[0]) {
      DigitPrefix(ds[1..], x[1..], j);
      var y := RebindFrom(x, Start, j);
      assert y == [x[0]] + RebindFrom(x[1..], Start, j);
      assert y[1..] == RebindFrom(x[1..], Start, j);
      PrefixByHead(ds, y);
      PrefixByHead(ds, x);
    } else if ds != [] {
      assert IsDigit(ds[0]);
    }
  }

  lemma DecodeMarker(z: string, j: nat)
    ensures DecodeFrom(Marker(j) + z, Start, j) == "?" + DecodeFrom(z, Start, j + 1)
  {
    hide Itoa;
    var y := Marker(j) + z;
    assert y[1..] == Itoa(j) + z;
    assert y[1 + |Itoa(j)|..] == z;
  }

  lemma DecodeCons(c: char, z: string, st: LexState, j: nat)
    requires !(st == Start && c == '$' && Itoa(j) <= z)
    ensures DecodeFrom([c] + z, st, j) == [c] + DecodeFrom(z, Step(st, c, DashAt(z, 0)), j)
  {
    hide Itoa;
    assert ([c] + z)[1..] == z && DashAt([c] + z, 1) == DashAt(z, 0);
  }

  lemma SameAfterPrefix(p: string, a: string, b: string)
    ensures p + a == p + b <==> a == b
  {
    assert (p + a)[|p|..] == a && (p + b)[|p|..] == b;
  }

  lemma {:induction false} DecodeReboundFrom(x: string, st: LexState, j: nat)
    ensures DecodeFrom(RebindFrom(x, st, j), st, j) == x <==> Unambiguous(x, st, j)
  {
    hide Itoa, DecodeFrom;
    if x == [] {
      DecodeNothing(st, j);
    } else if st == Start && x[0] == '?' {
      var z := RebindFrom(x[1..], Start, j + 1);
      DecodeReboundFrom(x[1..], Start, j + 1);
      DecodeMarker(z, j);
      assert x == "?" + x[1..];
      SameAfterPrefix("?", DecodeFrom(z, Start, j + 1), x[1..]);
    } else {
      var st' := Step(st, x[0], DashAt(x, 1));
      var z := RebindFrom(x[1..], st', j);
      RebindHead(x[1..], st', j);
      DecodeReboundFrom(x[1..], st', j);
      assert x == [x[0]] + x[1..];
      if st == Start && x[0] == '$' {
        DigitPrefix(Itoa(j), x[1..], j);
        if Itoa(j) <= z {
          assert z == Itoa(j) + z[|Itoa(j)|..];
          DecodeMarker(z[|Itoa(j)|..], j);
          assert ['$'] + z == Marker(j) + z[|Itoa(j)|..];
          return;
        }
      }
      DecodeCons(x[0], z, st, j);
      SameAfterPrefix([x[0]], DecodeFrom(z, st', j), x[1..]);
    }
  }

  lemma DecodeNothing(st: LexState, j: nat)
    ensures DecodeFrom("", st, j) == ""
  {}

  /** The decoder recovers the text exactly when no '$' of the text reads as the next placeholder. */
  lemma DecodeRebound(x: string)
    ensures Decode(Rebound(x)) == x <==> Unambiguous(x, Start, 1)
  {
    DecodeReboundFrom(x, Start, 1);
  }

  lemma RebindInjective(x: string, y: string)
    requires Unambiguous(x, Start, 1) && Unambiguous(y, Start, 1)
    requires Rebound(x) == Rebound(y)
    ensures x == y
  {
    DecodeRebound(x);
    DecodeRebound(y);
  }

  /** Two different texts may rebind to the same one when a '$' imitates a placeholder. */
  lemma RebindCollides()
    ensures Rebound("?") == Rebound("$1") == "$1"
  {
    NeutralPrefix("$1", "", 1);
    assert "$1" + "" == "$1";
    assert Itoa(1) == "1";
    assert "?"[1..] == "";
  }

  /******* Rebinding and flattening *******/

  /** No placeholder is recognised in x read from state st. */
  predicate NoPlaceholder(x: string, st: LexState) {
    x == [] || (!(st == Start && x[0] == '?') && NoPlaceholder(x[1..], Step(st, x[0], DashAt(x, 1))))
  }

  /** Once the first comment has begun, no further placeholder follows. */
  predicate CommentsLast(x: string, st: LexState) {
    if st == InComment then NoPlaceholder(x, InComment)
    else x == [] || CommentsLast(x[1..], Step(st, x[0], DashAt(x, 1)))
  }

  /** A comment swallows all text without a newline. */
  lemma {:induction false} CommentSwallows(y: string, j: nat)
    requires '\n' !in y
    ensures RebindFrom(y, InComment, j) == y && NoPlaceholder(y, InComment)
  {
    hide Itoa;
    if y == [] {
    } else {
      assert y[0] in y && forall c :: c in y[1..] ==> c in y;
      CommentSwallows(y[1..], j);
    }
  }

  function After(g: Gap, c: char): Gap {
    if !IsSpace(c) then InWord else if g == InWord then Pending else g
  }

  lemma {:induction false} NormHasNoNewline(x: string, g: Gap)
    ensures '\n' !in Norm(x, g)
  {
    if x == [] {
    } else {
      NormHasNoNewline(x[1..], After(g, x[0]));
    }
  }

  lemma NormCons(c: char, y: string, g: Gap)
    ensures Norm([c] + y, g) == (if IsSpace(c) then "" else Separator(g) + [c]) + Norm(y, After(g, c))
  {
    assert ([c] + y)[1..] == y;
  }

  lemma {:induction false} NormSpaceless(w: string, y: string, g: Gap)
    requires w != [] && Spaceless(w)
    ensures Norm(w + y, g) == Separator(g) + w + Norm(y, InWord)
  {
    hide Norm, Separator;
    assert w + y == [w[0]] + (w[1..] + y);
    NormCons(w[0], w[1..] + y, g);
    if |w| == 1 {
      assert w[1..] + y == y && [w[0]] == w;
    } else {
      NormSpaceless(w[1..], y, InWord);
      assert Separator(InWord) == "" by { SeparatorInWord(); }
      assert Separator(g) + [w[0]] + ("" + w[1..] + Norm(y, InWord)) == Separator(g) + w + Norm(y, InWord);
    }
  }

  lemma SeparatorInWord()
    ensures Separator(InWord) == ""
  {}

  lemma NormHead(x: string)
    ensures DashAt(Norm(x, InWord), 0) <==> DashAt(x, 0)
  {
    if x != [] && IsSpace(x[0]) {
      NormPendingHead(x[1..]);
    }
  }

  lemma {:induction false} NormPendingHead(x: string)
    ensures Norm(x, Pending) == [] || Norm(x, Pending)[0] == ' '
  {
    if x == [] || !IsSpace(x[0]) {
    } else {
      NormPendingHead(x[1..]);
    }
  }

  /** The separator written before a word does not disturb the lexer outside comments. */
  lemma SeparatorPasses(z: string, st: LexState, j: nat, g: Gap)
    requires st != InComment
    ensures RebindFrom(Separator(g) + z, st, j) == Separator(g) + RebindFrom(z, st, j)
  {
    hide Itoa, RebindFrom;
    if g == Pending {
      RebindCons(' ', z, st, j);
    } else {
      assert "" + z == z && "" + RebindFrom(z, st, j) == RebindFrom(z, st, j);
    }
  }

  /** A replaced placeholder is visible after flattening. */
  lemma {:induction false} ReplacementSurvives(x: string, st: LexState, j: nat, g: Gap)
    ensures Norm(RebindFrom(x, st, j), g) == Norm(x, g) <==> NoPlaceholder(x, st)
  {
    hide Itoa, Norm;
    if x != [] {
      assert x == [x[0]] + x[1..];
      NormCons(x[0], x[1..], g);
      if st == Start && x[0] == '?' {
        var z := RebindFrom(x[1..], Start, j + 1);
        NormSpaceless(Marker(j), z, g);
        assert Norm(RebindFrom(x, st, j), g)[|Separator(g)|] == '$';
        assert Norm(x, g)[|Separator(g)|] == '?';
      } else {
        var st' := Step(st, x[0], DashAt(x, 1));
        var z := RebindFrom(x[1..], st', j);
        NormCons(x[0], z, g);
        ReplacementSurvives(x[1..], st', j, After(g, x[0]));
        var p := if IsSpace(x[0]) then "" else Separator(g) + [x[0]];
        SameAfterPrefix(p, Norm(z, After(g, x[0])), Norm(x[1..], After(g, x[0])));
      }
    }
  }

  lemma {:induction false} CommuteFrom(x: string, st: LexState, j: nat, g: Gap)
    ensures Norm(RebindFrom(x, st, j), g) == RebindFrom(Norm(x, g), st, j) <==> CommentsLast(x, st)
    decreases |x|
  {
    hide Itoa, NoPlaceholder, Norm, RebindFrom;
    if st == InComment {
      NormHasNoNewline(x, g);
      CommentSwallows(Norm(x, g), j);
      ReplacementSurvives(x, InComment, j, g);
    } else if x == [] {
      RebindNothing(st, j);
      NormNothing(g);
    } else if st == Start && x[0] == '?' {
      CommuteFrom(x[1..], Start, j + 1, InWord);
      CommutePlaceholder(x, j, g);
    } else {
      var st' := Step(st, x[0], DashAt(x, 1));
      CommuteFrom(x[1..], st', j, After(g, x[0]));
      CommuteCharacter(x, st, j, g);
    }
  }

  lemma NormNothing(g: Gap)
    ensures Norm("", g) == ""
  {}

  lemma CommutePlaceholder(x: string, j: nat, g: Gap)
    requires x != [] && x[0] == '?'
    ensures Norm(RebindFrom(x, Start, j), g) == RebindFrom(Norm(x, g), Start, j)
      <==> Norm(RebindFrom(x[1..], Start, j + 1), InWord) == RebindFrom(Norm(x[1..], InWord), Start, j + 1)
  {
    hide Itoa, Norm;
    var w, y, n := Marker(j), RebindFrom(x[1..], Start, j + 1), Norm(x[1..], InWord);
    NormSpaceless(w, y, g);
    assert Norm(RebindFrom(x, Start, j), g) == Separator(g) + w + Norm(y, InWord);
    assert x == "?" + x[1..];
    NormCons('?', x[1..], g);
    var z := "?" + n;
    assert Norm(x, g) == Separator(g) + z;
    SeparatorPasses(z, Start, j, g);
    assert z[1..] == n;
    assert RebindFrom(z, Start, j) == w + RebindFrom(n, Start, j + 1);
    assert RebindFrom(Norm(x, g), Start, j) == Separator(g) + w + RebindFrom(n, Start, j + 1);
    SameAfterPrefix(Separator(g) + w, Norm(y, InWord), RebindFrom(n, Start, j + 1));
  }

  lemma CommuteCharacter(x: string, st: LexState, j: nat, g: Gap)
    requires x != [] && st != InComment && !(st == Start && x[0] == '?')
    ensures var st', g' := Step(st, x[0], DashAt(x, 1)), After(g, x[0]);
            Norm(RebindFrom(x, st, j), g) == RebindFrom(Norm(x, g), st, j)
            <==> Norm(RebindFrom(x[1..], st', j), g') == RebindFrom(Norm(x[1..], g'), st', j)
  {
    hide Itoa, Norm, RebindFrom;
    var c, r, st', g' := x[0], x[1..], Step(st, x[0], DashAt(x, 1)), After(g, x[0]);
    var y, n := RebindFrom(r, st', j), Norm(r, g');
    assert x == [c] + r;
    RebindCons(c, r, st, j);
    NormCons(c, y, g);
    NormCons(c, r, g);
    if IsSpace(c) {
      assert "" + Norm(y, g') == Norm(y, g') && "" + n == n;
    } else {
      SeparatorPasses([c] + n, st, j, g);
      assert Norm(x, g) == Separator(g) + ([c] + n);
      NormHead(r);
      RebindCons(c, n, st, j);
      assert RebindFrom(Norm(x, g), st, j) == Separator(g) + [c] + RebindFrom(n, st', j);
      SameAfterPrefix(Separator(g) + [c], Norm(y, g'), RebindFrom(n, st', j));
    }
  }

  /**
   * Rebinding the flattened text equals flattening the rebound text exactly when no placeholder follows
   * the first comment: flattening turns the newline that ends a comment into a space.
   */
  lemma FlattenRebindCommute(x: string)
    ensures Flatten(Rebound(x)) == Rebound(Flatten(x)) <==> CommentsLast(x, Start)
  {
    hide Itoa, RebindFrom, Norm, CommentsLast;
    NormIsJoin(x);
    NormIsJoin(Rebound(x));
    CommuteFrom(x, Start, 1, Fresh);
  }

  /** A text with a placeholder after a comment: flattening hides the placeholder inside the comment. */
  lemma CommentHidesPlaceholder()
    ensures Flatten(Rebound("--\n?")) != Rebound(Flatten("--\n?"))
  {
    hide Itoa, RebindFrom, Flatten;
    var x := "--\n?";
    FlattenRebindCommute(x);
    assert x[1..] == "-\n?" && x[1..][1..] == "\n?" && x[1..][1..][1..] == "?";
    assert Step(Start, '-', true) == InComment;
    assert !NoPlaceholder("?", Start);
    assert !NoPlaceholder("\n?", InComment) by { assert "\n?"[1..] == "?"; }
    assert !NoPlaceholder("-\n?", InComment);
  }
}
