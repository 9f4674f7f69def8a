/** What rendering keeps: laws of the rendered text, and how many arguments a statement binds. */
module SqlLaws {
  import opened SqlFlatten
  import opened SqlRebind
  import opened SqlTokens
  import opened SqlRender

  /******* Lists of parts *******/

  lemma {:induction false} JoinAppend(sep: string, a: seq<string>, b: seq<string>)
    requires a != [] && b != []
    ensures JoinBy(sep, a + b) == JoinBy(sep, a) + sep + JoinBy(sep, b)
  {
    hide JoinBy;
    var n := |b| - 1;
    var front, last := b[..n], b[n];
    assert a + b == (a + front) + [last] && b == front + [last];
    JoinOneMore(sep, a + front, last);
    JoinOneMore(sep, front, last);
    if n == 0 {
      assert a + front == a && "" + last == last;
    } else {
      JoinAppend(sep, a, front);
      var x, y := JoinBy(sep, a) + sep, JoinBy(sep, front);
      assert x + y + sep + last == x + (y + sep + last);
    }
  }

  lemma {:induction false} TextsAppend(a: seq<SQL>, b: seq<SQL>)
    ensures Texts(a + b) == Texts(a) + Texts(b)
  {
    if b == [] {
      assert a + b == a;
    } else {
      var n := |b| - 1;
      assert (a + b)[..|a + b| - 1] == a + b[..n];
      TextsAppend(a, b[..n]);
    }
  }

  lemma {:induction false} TextsPresent(sqls: seq<SQL>)
    ensures Texts(sqls) == [] <==> forall i :: 0 <= i < |sqls| ==> sqls[i].Nil?
  {
    if sqls == [] {
    } else {
      var n := |sqls| - 1;
      TextsPresent(sqls[..n]);
    }
  }

  /** Some part of the list is there. */
  ghost predicate Present(sqls: seq<SQL>) {
    exists i :: 0 <= i < |sqls| && !sqls[i].Nil?
  }

  /** Two lists with something in them are rendered one after the other, with one separator in between. */
  lemma ListsAppend(join: string, a: seq<SQL>, b: seq<SQL>)
    requires Present(a) && Present(b)
    ensures Text(Literals(join, a + b)) == Text(Literals(join, a)) + join + Text(Literals(join, b))
  {
    hide JoinBy;
    TextsAppend(a, b);
    TextsPresent(a);
    TextsPresent(b);
    JoinAppend(join, Texts(a), Texts(b));
  }

  /** A list with nothing in it is empty, and one part stands for itself. */
  lemma ListsOfFew(join: string, sqls: seq<SQL>, part: SQL)
    requires !part.Nil?
    ensures !Present(sqls) ==> Text(Literals(join, sqls)) == ""
    ensures Text(Literals(join, [part])) == Text(part)
  {
    TextsPresent(sqls);
    TextsOfOne(part);
  }

  lemma TextsOfOne(part: SQL)
    ensures Texts([part]) == if part.Nil? then [] else [Text(part)]
  {
    hide Text;
    assert [part][..0] == [];
    assert Texts([]) == [];
  }

  /** Absent parts leave no trace. */
  lemma NilVanishes(join: string, sqls: seq<SQL>, i: nat)
    requires i <= |sqls|
    ensures Text(Literals(join, sqls[..i] + [Nil] + sqls[i..])) == Text(Literals(join, sqls))
  {
    hide Texts, JoinBy;
    TextsOfOne(Nil);
    TextsAppend(sqls[..i] + [Nil], sqls[i..]);
    TextsAppend(sqls[..i], [Nil]);
    TextsAppend(sqls[..i], sqls[i..]);
    assert sqls[..i] + sqls[i..] == sqls;
    assert Texts(sqls[..i]) + [] == Texts(sqls[..i]);
  }

  /******* Holes *******/

  /** Every hole replaced by what fills it; an unfilled one renders as nothing, but still counts as a part. */
  function Fill(sql: SQL): SQL {
    match sql
    case Nil => Nil
    case Literal(text) => Literal(text)
    case Literals(join, sqls) => Literals(join, FillAll(sqls))
    case Condition(_, _, _, _) => sql
    case Hole(inner) => if inner.Nil? then Literal("") else Fill(inner)
  }

  function FillAll(sqls: seq<SQL>): seq<SQL> {
    if sqls == [] then []
    else
      var n := |sqls| - 1;
      FillAll(sqls[..n]) + [Fill(sqls[n])]
  }

  predicate NoHoles(sql: SQL) {
    match sql
    case Literals(_, sqls) => forall i :: 0 <= i < |sqls| ==> NoHoles(sqls[i])
    case Hole(_) => false
    case _ => true
  }

  /** A hole anywhere in a statement can be replaced by its content. */
  lemma {:induction false} HolesFilled(sql: SQL)
    ensures NoHoles(Fill(sql)) && Text(Fill(sql)) == Text(sql) && (Fill(sql).Nil? <==> sql.Nil?)
    decreases sql
  {
    match sql
    case Nil =>
    case Literal(_) =>
    case Literals(join, sqls) => AllHolesFilled(sqls);
    case Condition(_, _, _, _) =>
    case Hole(inner) => HolesFilled(inner);
  }

  lemma {:induction false} AllHolesFilled(sqls: seq<SQL>)
    ensures forall i :: 0 <= i < |FillAll(sqls)| ==> NoHoles(FillAll(sqls)[i])
    ensures Texts(FillAll(sqls)) == Texts(sqls)
    decreases sqls
  {
    if sqls == [] {
    } else {
      var n := |sqls| - 1;
      AllHolesFilled(sqls[..n]);
      HolesFilled(sqls[n]);
      assert FillAll(sqls)[..|FillAll(sqls)| - 1] == FillAll(sqls[..n]);
    }
  }

  lemma PartTexts(text: string, inner: SQL)
    ensures Text(Literal(text)) == text && Text(Hole(inner)) == Text(inner)
  {}

  /** A hole between two literals. */
  lemma HoleBetween(a: string, inner: SQL, b: string)
    ensures Text(Literals("", [Literal(a), Hole(inner), Literal(b)])) == a + Text(inner) + b
  {
    hide Text, Texts, JoinBy;
    var one, two, three := Literal(a), Hole(inner), Literal(b);
    PartTexts(a, inner);
    PartTexts(b, inner);
    assert [one][0] == one && [two][0] == two && [three][0] == three && [one, two][0] == one;
    ListsAppend("", [one], [two]);
    ListsAppend("", [one, two], [three]);
    ListsOfFew("", [], one);
    ListsOfFew("", [], two);
    ListsOfFew("", [], three);
    assert [one] + [two] == [one, two] && [one, two] + [three] == [one, two, three];
  }

  /******* Conditions *******/

  /** A comparison with null needs its own words, and leaves the right-hand side out. */
  lemma ConditionTexts(left: string, right: string)
    ensures Text(Condition(left, true, right, true)) == left + " is null"
    ensures Text(Condition(left, false, right, true)) == left + " is not null"
    ensures Text(Condition(left, true, right, false)) == left + " = " + right
    ensures Text(Condition(left, false, right, false)) == left + " != " + right
  {}

  /******* Arguments *******/

  /** Text with neither quotation marks nor dashes. */
  predicate IsQuiet(x: string) {
    forall i :: 0 <= i < |x| ==> x[i] != '\'' && x[i] != '"' && x[i] != '-'
  }

  lemma QuietIsPlain(x: string)
    requires IsQuiet(x)
    ensures IsPlain(x) && CommentsLast(x, Start)
  {
    hide CommentsLast, NoPlaceholder;
    PlainNoPlaceholder(x, "");
    assert x + "" == x;
    CommentsLastCons('x', "", Start);
  }

  /** The statement of a quiet text binds one argument for each of its question marks. */
  lemma QuietArguments(sql: SQL)
    requires IsQuiet(Text(sql))
    ensures var y := Flatten(Text(sql)) + ";"; Placeholders(y, |y|) == Marks(Text(sql))
  {
    hide Text, IsQuiet, CommentsLast, Placeholders, Flatten, Marks;
    QuietIsPlain(Text(sql));
    PlainText(Text(sql));
    StatementArguments(sql);
  }

  function LiteralsOf(texts: seq<string>): seq<SQL> {
    if texts == [] then []
    else
      var n := |texts| - 1;
      LiteralsOf(texts[..n]) + [Literal(texts[n])]
  }

  lemma {:induction false} LiteralTexts(texts: seq<string>)
    ensures Texts(LiteralsOf(texts)) == texts
  {
    if texts == [] {
      assert Texts([]) == [];
    } else {
      var n := |texts| - 1;
      LiteralTexts(texts[..n]);
      hide Texts;
      TextsAppend(LiteralsOf(texts[..n]), [Literal(texts[n])]);
      TextsOfOne(Literal(texts[n]));
      assert texts == texts[..n] + [texts[n]];
    }
  }

  lemma {:induction false} QuietJoin(sep: string, texts: seq<string>)
    requires IsQuiet(sep) && Marks(sep) == 0
    requires forall i :: 0 <= i < |texts| ==> IsQuiet(texts[i]) && Marks(texts[i]) == 1
    ensures IsQuiet(JoinBy(sep, texts)) && Marks(JoinBy(sep, texts)) == |texts|
  {
    hide Marks;
    if texts == [] {
      assert Marks("") == 0 by { NoMarks(""); }
    } else {
      var n := |texts| - 1;
      QuietJoin(sep, texts[..n]);
      if n > 0 {
        MarksAppend(JoinBy(sep, texts[..n]) + sep, texts[n]);
        MarksAppend(JoinBy(sep, texts[..n]), sep);
      }
    }
  }

  /** UPDATE a table: the assignments chosen at run time fill the hole between two fixed texts. */
  function Update(head: string, sets: seq<string>, tail: string): SQL {
    Literals("", [Literal(head), Hole(Literals(", ", LiteralsOf(sets))), Literal(tail)])
  }

  /** An update binds one argument for each of its assignments, and one for its condition. */
  lemma UpdateArguments(head: string, sets: seq<string>, tail: string)
    requires IsQuiet(head) && IsQuiet(tail) && Marks(head) == 0 && Marks(tail) == 1
    requires forall i :: 0 <= i < |sets| ==> IsQuiet(sets[i]) && Marks(sets[i]) == 1
    ensures var y := Flatten(Text(Update(head, sets, tail))) + ";"; Placeholders(y, |y|) == |sets| + 1
    ensures Text(Update(head, sets, tail)) == head + JoinBy(", ", sets) + tail
  {
    hide Marks, JoinBy, Flatten, Placeholders, Texts;
    var inner := Literals(", ", LiteralsOf(sets));
    HoleBetween(head, inner, tail);
    LiteralTexts(sets);
    assert Marks(", ") == 0 by { NoMarks(", "); }
    QuietJoin(", ", sets);
    MarksAppend(head + JoinBy(", ", sets), tail);
    MarksAppend(head, JoinBy(", ", sets));
    QuietArguments(Update(head, sets, tail));
  }

  /** The update of a claim. */
  lemma ClaimStatement()
    ensures Text(Update("UPDATE wallets SET ", ["claimed = ?"], " WHERE wallets.id = ?"))
         == "UPDATE wallets SET " + "claimed = ?" + " WHERE wallets.id = ?"
  {
    hide *;
    var inner := Literals(", ", LiteralsOf(["claimed = ?"]));
    HoleBetween("UPDATE wallets SET ", inner, " WHERE wallets.id = ?");
    UpdateIs("UPDATE wallets SET ", ["claimed = ?"], " WHERE wallets.id = ?");
    OneSet("claimed = ?");
  }

  lemma UpdateIs(head: string, sets: seq<string>, tail: string)
    ensures Update(head, sets, tail)
         == Literals("", [Literal(head), Hole(Literals(", ", LiteralsOf(sets))), Literal(tail)])
  {}

  lemma OneSet(text: string)
    ensures Text(Literals(", ", LiteralsOf([text]))) == text
  {
    assert LiteralsOf([text]) == [Literal(text)] by { assert [text][..0] == []; }
    ListsOfFew(", ", [], Literal(text));
  }

  /** The values of an insert. */
  lemma InsertParameters()
    ensures Rebound("VALUES (?,?,?)") == "VALUES ($1,$2,$3)"
  {
    hide *;
    var x := "VALUES (?,?,?)";
    ValuesAreQuiet();
    QuietIsPlain(x);
    PlainText(x);
    NumberedMark("VALUES (", ",?,?)", 1);
    NumberedMark(",", ",?)", 2);
    NumberedMark(",", ")", 3);
    NumberedSkip(")", "", 4);
    NumberedNothing(4);
    SmallNumbers();
    assert x == "VALUES (" + "?" + ",?,?)" && ",?,?)" == "," + "?" + ",?)";
    assert ",?)" == "," + "?" + ")" && ")" == ")" + "";
  }

  lemma ValuesAreQuiet()
    ensures IsQuiet("VALUES (?,?,?)")
    ensures '?' !in "VALUES (" && '?' !in "," && '?' !in ")"
  {}

  lemma SmallNumbers()
    ensures Itoa(1) == "1" && Itoa(2) == "2" && Itoa(3) == "3"
  {}

  lemma NumberedNothing(j: nat)
    ensures Numbered("", j) == ""
  {}

  lemma NumberedMark(x: string, y: string, j: nat)
    requires '?' !in x
    ensures Numbered(x + "?" + y, j) == x + ("$" + Itoa(j)) + Numbered(y, j + 1)
  {
    hide Itoa;
    NumberedSkip(x, "?" + y, j);
    assert x + "?" + y == x + ("?" + y) && ("?" + y)[1..] == y;
  }

  lemma {:induction false} NumberedSkip(x: string, y: string, j: nat)
    requires '?' !in x
    ensures Numbered(x + y, j) == x + Numbered(y, j)
  {
    hide Itoa;
    if x == [] {
      assert x + y == y;
    } else {
      assert (x + y)[1..] == x[1..] + y;
      assert x[0] in x && forall c :: c in x[1..] ==> c in x;
      NumberedSkip(x[1..], y, j);
    }
  }
}
