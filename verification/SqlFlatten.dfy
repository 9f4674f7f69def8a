/** Whitespace normalisation of SQL text (`__sqlbundle_flattenSQL`). */
module SqlFlatten {

  predicate IsSpace(c: char) {
    c == ' ' || c == '\t' || c == '\n'
  }

  ghost predicate AllSpace(x: string) {
    forall i :: 0 <= i < |x| ==> IsSpace(x[i])
  }

  ghost predicate Spaceless(x: string) {
    forall i :: 0 <= i < |x| ==> !IsSpace(x[i])
  }

  /******* Reference definition: split into words, join by single spaces *******/

  function WordLength(x: string): (n: nat)
    ensures n <= |x| && Spaceless(x[..n]) && (n < |x| ==> IsSpace(x[n]))
  {
    if x == [] || IsSpace(x[0]) then 0 else 1 + WordLength(x[1..])
  }

  function Words(x: string): seq<string>
    decreases |x|
  {
    if x == [] then []
    else if IsSpace(x[0]) then Words(x[1..])
    else
      var n := WordLength(x);
      [x[..n]] + Words(x[n..])
  }

  function JoinWords(ws: seq<string>): string {
    if ws == [] then ""
    else if |ws| == 1 then ws[0]
    else ws[0] + " " + JoinWords(ws[1..])
  }

  function Flatten(x: string): string {
    JoinWords(Words(x))
  }

  /** What follows a first word. */
  function Tail(ws: seq<string>): string {
    if ws == [] then "" else " " + JoinWords(ws)
  }

  lemma JoinCons(w: string, ws: seq<string>)
    ensures JoinWords([w] + ws) == w + Tail(ws)
  {
    if ws != [] {
      assert ([w] + ws)[1..] == ws;
    }
  }

  /** Texts the fast path hands back untouched. */
  ghost predicate IsFlat(x: string) {
    && (forall i :: 0 <= i < |x| ==> x[i] != '\t' && x[i] != '\n')
    && (forall i :: 0 < i < |x| ==> !(x[i - 1] == ' ' && x[i] == ' '))
    && (x != [] ==> x[0] != ' ' && x[|x| - 1] != ' ')
  }

  /******* Properties of the reference definition *******/

  lemma {:induction false} WordLengthOfWord(w: string, b: string)
    requires Spaceless(w) && (b != [] ==> IsSpace(b[0]))
    ensures WordLength(w + b) == |w|
  {
    if w == [] {
      assert w + b == b;
    } else {
      assert (w + b)[1..] == w[1..] + b;
      WordLengthOfWord(w[1..], b);
    }
  }

  lemma WordsNothing()
    ensures Words("") == []
  {}

  lemma WordsAfterSpace(c: char, b: string)
    requires IsSpace(c)
    ensures Words([c] + b) == Words(b)
  {
    assert ([c] + b)[1..] == b;
  }

  lemma WordsCons(w: string, b: string)
    requires Spaceless(w) && w != [] && (b != [] ==> IsSpace(b[0]))
    ensures Words(w + b) == [w] + Words(b)
  {
    WordLengthOfWord(w, b);
    assert (w + b)[..|w|] == w && (w + b)[|w|..] == b;
  }

  /** Splitting distributes over concatenation at a word boundary. */
  lemma {:induction false} WordsConcat(a: string, b: string)
    requires a != [] && b != [] ==> IsSpace(a[|a| - 1]) || IsSpace(b[0])
    ensures Words(a + b) == Words(a) + Words(b)
    decreases |a|
  {
    hide Words;
    WordsNothing();
    if a == [] {
      assert a + b == b;
    } else if IsSpace(a[0]) {
      var a' := a[1..];
      assert a == [a[0]] + a' && a + b == [a[0]] + (a' + b);
      WordsAfterSpace(a[0], a');
      WordsAfterSpace(a[0], a' + b);
      WordsConcat(a', b);
    } else {
      var n := WordLength(a);
      var w, a' := a[..n], a[n..];
      assert a == w + a' && a + b == w + (a' + b);
      WordsCons(w, a');
      WordsCons(w, a' + b);
      WordsConcat(a', b);
    }
  }

  lemma {:induction false} WordsOfSpaces(x: string)
    requires AllSpace(x)
    ensures Words(x) == []
  {
    if x == [] {
    } else {
      WordsOfSpaces(x[1..]);
    }
  }

  lemma WordsOfWord(w: string)
    requires Spaceless(w) && w != []
    ensures Words(w) == [w]
  {
    WordsCons(w, "");
    assert w + "" == w;
  }

  lemma {:induction false} JoinSnoc(ws: seq<string>, w: string)
    requires ws != []
    ensures JoinWords(ws + [w]) == JoinWords(ws) + " " + w
  {
    if |ws| == 1 {
      assert (ws + [w])[1..] == [w];
    } else {
      assert (ws + [w])[1..] == ws[1..] + [w];
      JoinSnoc(ws[1..], w);
    }
  }

  ghost predicate AreWords(ws: seq<string>) {
    forall i :: 0 <= i < |ws| ==> ws[i] != [] && Spaceless(ws[i])
  }

  lemma {:induction false} WordsAreWords(x: string)
    ensures AreWords(Words(x))
    decreases |x|
  {
    if x == [] {
    } else {
      WordsAreWords(if IsSpace(x[0]) then x[1..] else x[WordLength(x)..]);
    }
  }

  lemma {:induction false} WordsOfJoin(ws: seq<string>)
    requires AreWords(ws)
    ensures Words(JoinWords(ws)) == ws
  {
    if ws == [] {
    } else {
      WordsOfJoin(ws[1..]);
      WordsAfterSpace(' ', JoinWords(ws[1..]));
      WordsCons(ws[0], Tail(ws[1..]));
      JoinCons(ws[0], ws[1..]);
      assert [ws[0]] + ws[1..] == ws;
    }
  }

  lemma FlattenIdempotent(x: string)
    ensures Flatten(Flatten(x)) == Flatten(x)
  {
    WordsAreWords(x);
    WordsOfJoin(Words(x));
  }

  lemma {:induction false} JoinIsFlat(ws: seq<string>)
    requires AreWords(ws)
    ensures IsFlat(JoinWords(ws)) && (ws != [] ==> JoinWords(ws) != [])
  {
    if |ws| <= 1 {
    } else {
      JoinIsFlat(ws[1..]);
    }
  }

  /** A flat text of several words is its first word, one space and a shorter flat text. */
  lemma FlatSplit(x: string, n: nat) returns (rest: string)
    requires IsFlat(x) && n < |x| && IsSpace(x[n])
    ensures x == x[..n] + (" " + rest)
    ensures IsFlat(rest) && rest != [] && |rest| < |x|
  {
    assert x[n] == ' ';
    assert n + 1 < |x| && x[n + 1] != ' ';
    rest := x[n + 1..];
    forall i | 0 <= i < |rest|
      ensures rest[i] != '\t' && rest[i] != '\n'
      ensures 0 < i ==> !(rest[i - 1] == ' ' && rest[i] == ' ')
    {
      assert rest[i] == x[n + 1 + i];
      assert 0 < i ==> rest[i - 1] == x[n + i];
    }
    assert rest[|rest| - 1] == x[|x| - 1];
  }

  lemma {:induction false} FlatIsFixed(x: string)
    requires IsFlat(x)
    ensures Flatten(x) == x
    decreases |x|
  {
    var n := WordLength(x);
    if x == [] {
    } else if n == |x| {
      assert x[..n] == x;
      WordsOfWord(x);
    } else {
      var rest := FlatSplit(x, n);
      FlatIsFixed(rest);
      WordsAfterSpace(' ', rest);
      WordsCons(x[..n], " " + rest);
      JoinCons(x[..n], Words(rest));
      assert Words(rest) != [];
    }
  }

  /** The text comes back unchanged exactly when it is already flat. */
  lemma FlattenFixedPoints(x: string)
    ensures Flatten(x) == x <==> IsFlat(x)
  {
    WordsAreWords(x);
    JoinIsFlat(Words(x));
    if IsFlat(x) {
      FlatIsFixed(x);
    }
  }

  lemma WordsTrim(x: string, s: nat, e: nat)
    requires s <= e <= |x| && forall k :: 0 <= k < s || e <= k < |x| ==> IsSpace(x[k])
    ensures Words(x) == Words(x[s..e])
  {
    assert x == x[..s] + (x[s..e] + x[e..]);
    WordsOfSpaces(x[..s]);
    WordsOfSpaces(x[e..]);
    WordsConcat(x[..s], x[s..e] + x[e..]);
    WordsConcat(x[s..e], x[e..]);
  }

  /******* The loops *******/

  method FlattenSQL(text: string) returns (out: string)
    ensures out == Flatten(text)
  {
    hide Words, JoinWords, WordLength;
    var s, e := Trim(text);
    WordsTrim(text, s, e + 1);
    if s > e {
      assert text[s..e + 1] == "";
      WordsOfSpaces("");
      EmptyFlattens();
      return "";
    }
    out := Collapse(text[s..e + 1]);
  }

  lemma EmptyFlattens()
    ensures Flatten("") == ""
  {}

  /** The first and last positions that are not whitespace; s passes e when there is none. */
  method Trim(text: string) returns (s: nat, e: int)
    ensures s <= e + 1 <= |text|
    ensures forall k :: 0 <= k < s || e < k < |text| ==> IsSpace(text[k])
    ensures s <= e ==> !IsSpace(text[s]) && !IsSpace(text[e])
  {
    s, e := 0, |text| - 1;
    while s < |text| && IsSpace(text[s])
      invariant 0 <= s <= |text|
      invariant forall k :: 0 <= k < s ==> IsSpace(text[k])
    {
      s := s + 1;
    }
    while s <= e && IsSpace(text[e])
      invariant -1 <= e < |text| && s <= e + 1
      invariant s <= e || s == |text|
      invariant forall k :: e < k < |text| ==> IsSpace(text[k])
    {
      e := e - 1;
    }
  }

  /** Scan for whitespace that needs fixing: the fast path when there is none. */
  method Collapse(x: string) returns (out: string)
    requires x != [] && !IsSpace(x[0]) && !IsSpace(x[|x| - 1])
    ensures out == Flatten(x)
  {
    hide Words, JoinWords, WordLength;
    var wasSpace := false;
    var i := 0;
    while i < |x|
      invariant 0 <= i <= |x|
      invariant wasSpace <==> i > 0 && x[i - 1] == ' '
      invariant forall k :: 0 <= k < i ==> x[k] != '\t' && x[k] != '\n'
      invariant forall k :: 0 < k < i ==> !(x[k - 1] == ' ' && x[k] == ' ')
    {
      var justSpace := x[i] == ' ';
      if (wasSpace && justSpace) || x[i] == '\t' || x[i] == '\n' {
        var prefix := if wasSpace then x[..i - 1] else x[..i];
        PrefixIsFlattened(x, i, prefix);
        out := Rebuild(x, i, prefix);
        return;
      }
      wasSpace := justSpace;
      i := i + 1;
    }
    FlatIsFixed(x);
    return x;
  }

  lemma PrefixIsFlattened(x: string, i: nat, prefix: string)
    requires 0 < i <= |x| && !IsSpace(x[0])
    requires forall k :: 0 <= k < i ==> x[k] != '\t' && x[k] != '\n'
    requires forall k :: 0 < k < i ==> !(x[k - 1] == ' ' && x[k] == ' ')
    requires prefix == if x[i - 1] == ' ' then x[..i - 1] else x[..i]
    ensures prefix == Flatten(x[..i])
  {
    FlatIsFixed(prefix);
    var gap := x[|prefix|..i];
    assert x[..i] == prefix + gap;
    WordsConcat(prefix, gap);
    WordsOfSpaces(gap);
    assert Words(prefix) + [] == Words(prefix);
  }

  /** The rebuilding path, entered at the first whitespace that needs fixing. */
  method Rebuild(x: string, i: nat, prefix: string) returns (result: string)
    requires 0 < i < |x| && IsSpace(x[i]) && !IsSpace(x[0]) && !IsSpace(x[|x| - 1])
    requires prefix == Flatten(x[..i])
    ensures result == Flatten(x)
  {
    hide Words, JoinWords, WordLength;
    result := prefix;
    var p := i;
    while p < |x|
      invariant i <= p <= |x| + 1
      invariant p < |x| ==> IsSpace(x[p - 1]) || IsSpace(x[p])
      invariant p != |x|
      invariant result == Flatten(if p < |x| then x[..p] else x)
      decreases |x| - p
    {
      ghost var from := p;
      while p < |x| && IsSpace(x[p])
        invariant from <= p < |x|
        invariant forall k :: from <= k < p ==> IsSpace(x[k])
      {
        p := p + 1;
      }
      result := result + " ";
      var start := p;
      while p < |x| && !IsSpace(x[p])
        invariant start <= p <= |x|
        invariant forall k :: start <= k < p ==> !IsSpace(x[k])
      {
        p := p + 1;
      }
      OneMoreWord(x, from, start, p);
      result := result + x[start..p];
      p := p + 1;
      assert x[..|x|] == x;
    }
  }

  lemma StartsWithWord(x: string)
    requires x != [] && !IsSpace(x[0])
    ensures Words(x) != []
  {}

  lemma OneMoreWord(x: string, from: nat, start: nat, end: nat)
    requires 0 < from <= start < end <= |x| && !IsSpace(x[0])
    requires from == start ==> IsSpace(x[from - 1])
    requires forall k :: from <= k < start ==> IsSpace(x[k])
    requires forall k :: start <= k < end ==> !IsSpace(x[k])
    requires end < |x| ==> IsSpace(x[end])
    ensures Flatten(x[..end]) == Flatten(x[..from]) + " " + x[start..end]
    ensures end < |x| ==> Flatten(x[..end + 1]) == Flatten(x[..end])
  {
    hide Words, JoinWords;
    var a, gap, w := x[..from], x[from..start], x[start..end];
    assert x[..start] == a + gap;
    assert gap != [] ==> gap[0] == x[from];
    WordsConcat(a, gap);
    WordsOfSpaces(gap);
    assert Words(a) + [] == Words(a);
    assert IsSpace(x[..start][start - 1]);
    assert x[..end] == x[..start] + w;
    WordsConcat(x[..start], w);
    WordsOfWord(w);
    StartsWithWord(a);
    JoinSnoc(Words(a), w);
    if end < |x| {
      assert x[..end + 1] == x[..end] + [x[end]];
      WordsConcat(x[..end], [x[end]]);
      WordsOfSpaces([x[end]]);
      assert Words(x[..end]) + [] == Words(x[..end]);
    }
  }

  /******* Flattening as a one-pass transducer *******/

  /** Where the pass stands: before the first word, inside a word, or in whitespace after a word. */
  datatype Gap = Fresh | InWord | Pending

  function Separator(g: Gap): string {
    if g == Pending then " " else ""
  }

  function Norm(x: string, g: Gap): string {
    if x == [] then ""
    else if IsSpace(x[0]) then Norm(x[1..], if g == InWord then Pending else g)
    else Separator(g) + [x[0]] + Norm(x[1..], InWord)
  }

  lemma {:induction false} NormFinishesWord(x: string)
    ensures Norm(x, InWord) == x[..WordLength(x)] + Norm(x[WordLength(x)..], Pending)
  {
    if x != [] {
      if IsSpace(x[0]) {
        assert x[0..] == x;
      } else {
        NormFinishesWord(x[1..]);
        assert x[1..][WordLength(x) - 1..] == x[WordLength(x)..];
        assert x[..WordLength(x)] == [x[0]] + x[1..][..WordLength(x) - 1];
      }
    }
  }

  lemma {:induction false} NormIsJoin(x: string)
    ensures Norm(x, Fresh) == Flatten(x)
    ensures Norm(x, Pending) == Tail(Words(x))
    decreases |x|
  {
    if x != [] {
      if IsSpace(x[0]) {
        NormIsJoin(x[1..]);
      } else {
        var n := WordLength(x);
        NormIsJoin(x[n..]);
        NormFinishesWord(x);
        JoinCons(x[..n], Words(x[n..]));
        assert Norm(x, InWord) == [x[0]] + Norm(x[1..], InWord);
        assert Norm(x, Pending) == " " + Norm(x, Fresh);
      }
    }
  }
}
