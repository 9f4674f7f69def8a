/** Building SQL statements from parts (`__sqlbundle_SQL`) and rendering them for the database. */
module SqlRender {
  import opened SqlFlatten
  import opened SqlRebind

  /** `Nil` is the nil interface: a part left out of a list, or a hole left unfilled. */
  datatype SQL =
    | Nil
    | Literal(text: string)
    | Literals(join: string, sqls: seq<SQL>)
    | Condition(left: string, equal: bool, right: string, isNull: bool)
    | Hole(sql: SQL)

  datatype RenderOp = NoFlatten | NoTerminate

  /******* What a statement says *******/

  function JoinBy(sep: string, parts: seq<string>): string {
    if parts == [] then ""
    else if |parts| == 1 then parts[0]
    else JoinBy(sep, parts[..|parts| - 1]) + sep + parts[|parts| - 1]
  }

  lemma JoinOneMore(sep: string, parts: seq<string>, part: string)
    ensures JoinBy(sep, parts + [part]) == (if parts == [] then "" else JoinBy(sep, parts) + sep) + part
  {
    assert (parts + [part])[..|parts|] == parts;
    assert "" + part == part;
  }

  function Text(sql: SQL): string {
    match sql
    case Nil => ""
    case Literal(text) => text
    case Literals(join, sqls) => JoinBy(join, Texts(sqls))
    case Condition(left, equal, right, isNull) =>
      left + if isNull then (if equal then " is null" else " is not null")
             else (if equal then " = " else " != ") + right
    case Hole(inner) => Text(inner)
  }

  /** The texts of the parts that are present, in order. */
  function Texts(sqls: seq<SQL>): seq<string> {
    if sqls == [] then []
    else
      var n := |sqls| - 1;
      Texts(sqls[..n]) + if sqls[n].Nil? then [] else [Text(sqls[n])]
  }

  method RenderText(sql: SQL) returns (out: string)
    requires !sql.Nil?
    ensures out == Text(sql)
    decreases sql
  {
    match sql {
      case Literal(text) =>
        return text;
      case Literals(join, sqls) =>
        out := "";
        var first := true;
        for i := 0 to |sqls|
          invariant first <==> Texts(sqls[..i]) == []
          invariant out == JoinBy(join, Texts(sqls[..i]))
        {
          ghost var texts := Texts(sqls[..i]);
          TextsOneMore(sqls, i);
          if sqls[i].Nil? {
            continue;
          }
          if !first {
            out := out + join;
          }
          first := false;
          var part := RenderText(sqls[i]);
          JoinOneMore(join, texts, part);
          out := out + part;
        }
        assert sqls[..|sqls|] == sqls;
      case Condition(left, equal, right, isNull) =>
        if equal && isNull {
          return left + " is null";
        } else if equal {
          return left + (" = " + right);
        } else if isNull {
          return left + " is not null";
        } else {
          return left + (" != " + right);
        }
      case Hole(inner) =>
        if inner.Nil? {
          return "";
        }
        out := RenderText(inner);
    }
  }

  lemma TextsOneMore(sqls: seq<SQL>, i: nat)
    requires i < |sqls|
    ensures Texts(sqls[..i + 1]) == if sqls[i].Nil? then Texts(sqls[..i]) else Texts(sqls[..i]) + [Text(sqls[i])]
  {
    assert sqls[..i + 1][..i] == sqls[..i];
  }

  method Render(sql: SQL, ops: seq<RenderOp>) returns (stmt: string)
    requires !sql.Nil?
    ensures stmt == Rebound((if NoFlatten in ops then Text(sql) else Flatten(Text(sql)))
                            + (if NoTerminate in ops then "" else ";"))
    ensures ops == [] ==> stmt == Statement(sql)
  {
    var out := RenderText(sql);
    var flatten, terminate := true, true;
    for i := 0 to |ops|
      invariant flatten <==> NoFlatten !in ops[..i]
      invariant terminate <==> NoTerminate !in ops[..i]
    {
      match ops[i]
      case NoFlatten => flatten := false;
      case NoTerminate => terminate := false;
    }
    assert ops[..|ops|] == ops;
    if flatten {
      out := FlattenSQL(out);
    }
    assert out + "" == out;
    if terminate {
      out := out + ";";
    }
    stmt := Rebind(out);
  }

  /******* The statement that is sent *******/

  function Statement(sql: SQL): string {
    Rebound(Flatten(Text(sql)) + ";")
  }

  lemma {:induction false} TerminatorPasses(x: string, st: LexState, j: nat)
    ensures RebindFrom(x + ";", st, j) == RebindFrom(x, st, j) + ";"
  {
    hide Itoa;
    if x == [] {
      RebindNothing(st, j);
      RebindCons(';', "", st, j);
      RebindNothing(Step(st, ';', false), j);
      assert x + ";" == [';'] + "";
    } else {
      assert (x + ";")[1..] == x[1..] + ";";
      assert DashAt(x + ";", 1) == DashAt(x, 1);
      if st == Start && x[0] == '?' {
        TerminatorPasses(x[1..], Start, j + 1);
      } else {
        TerminatorPasses(x[1..], Step(st, x[0], DashAt(x, 1)), j);
      }
    }
  }

  lemma SameBeforePrefix(a: string, b: string, p: string)
    ensures a + p == b + p <==> a == b
  {
    if a + p == b + p {
      assert |a + p| == |b + p|;
      assert (a + p)[..|a|] == a && (b + p)[..|b|] == b;
    }
  }

  /**
   * A statement is the source text with its placeholders numbered and its whitespace then normalised,
   * exactly when no placeholder follows the first comment.
   */
  lemma StatementMeaning(sql: SQL)
    ensures Statement(sql) == Flatten(Rebound(Text(sql))) + ";" <==> CommentsLast(Text(sql), Start)
  {
    hide Itoa, Flatten, Text, CommentsLast, RebindFrom;
    TerminatorPasses(Flatten(Text(sql)), Start, 1);
    FlattenRebindCommute(Text(sql));
    SameBeforePrefix(Rebound(Flatten(Text(sql))), Flatten(Rebound(Text(sql))), ";");
  }

  /******* As many placeholders as arguments *******/

  function Count(x: string, st: LexState): nat {
    if x == [] then 0
    else if st == Start && x[0] == '?' then 1 + Count(x[1..], Start)
    else Count(x[1..], Step(st, x[0], DashAt(x, 1)))
  }

  lemma CountRound(x: string, i: nat, st: LexState)
    requires i < |x|
    ensures Count(x[i..], st) == (if st == Start && x[i] == '?' then 1 else 0)
                                 + Count(x[i + 1..], Step(st, x[i], DashAt(x, i + 1)))
  {
    assert x[i..][1..] == x[i + 1..] && DashAt(x[i..], 1) == DashAt(x, i + 1);
  }

  lemma {:induction false} CountFromPosition(x: string, i: nat)
    requires i <= |x|
    ensures Count(x, Start) == Placeholders(x, i) + Count(x[i..], StateAt(x, i))
  {
    hide Count;
    if i == 0 {
      assert x[0..] == x;
    } else {
      CountFromPosition(x, i - 1);
      CountRound(x, i - 1, StateAt(x, i - 1));
    }
  }

  lemma CountNothing(st: LexState)
    ensures Count("", st) == 0
  {}

  lemma CountIsPlaceholders(x: string)
    ensures Count(x, Start) == Placeholders(x, |x|)
  {
    hide Count, Placeholders, StateAt;
    CountFromPosition(x, |x|);
    CountNothing(StateAt(x, |x|));
    assert x[|x|..] == "";
  }

  lemma {:induction false} NoneCounted(x: string, st: LexState)
    ensures Count(x, st) == 0 <==> NoPlaceholder(x, st)
  {
    if x == [] || (st == Start && x[0] == '?') {
    } else {
      NoneCounted(x[1..], Step(st, x[0], DashAt(x, 1)));
    }
  }

  lemma CountCons(c: char, y: string, st: LexState)
    ensures Count([c] + y, st) == (if st == Start && c == '?' then 1 else 0)
                                  + Count(y, Step(st, c, DashAt(y, 0)))
  {
    assert ([c] + y)[1..] == y && DashAt([c] + y, 1) == DashAt(y, 0);
  }

  lemma SeparatorCount(z: string, st: LexState, g: Gap)
    requires st != InComment
    ensures Count(Separator(g) + z, st) == Count(z, st)
  {
    hide Count;
    if g == Pending {
      CountCons(' ', z, st);
    } else {
      assert "" + z == z;
    }
  }

  /** Flattening never invents a placeholder, and keeps them all exactly when none follows a comment. */
  lemma {:induction false} FlattenKeepsCount(x: string, st: LexState, g: Gap)
    ensures Count(Norm(x, g), st) <= Count(x, st)
    ensures Count(Norm(x, g), st) == Count(x, st) <==> CommentsLast(x, st)
  {
    hide Count, NoPlaceholder, Norm, RebindFrom;
    if st == InComment {
      NormHasNoNewline(x, g);
      CommentSwallows(Norm(x, g), 1);
      NoneCounted(Norm(x, g), InComment);
      NoneCounted(x, InComment);
    } else if x == [] {
      NormNothing(g);
    } else {
      var st', g' := Step(st, x[0], DashAt(x, 1)), After(g, x[0]);
      FlattenKeepsCount(x[1..], st', g');
      CountStep(x, st, g);
    }
  }

  lemma CountStep(x: string, st: LexState, g: Gap)
    requires x != [] && st != InComment
    ensures var st', g' := Step(st, x[0], DashAt(x, 1)), After(g, x[0]);
            Count(x, st) - Count(Norm(x, g), st) == Count(x[1..], st') - Count(Norm(x[1..], g'), st')
  {
    hide Count, Norm;
    var n := Norm(x[1..], After(g, x[0]));
    assert x == [x[0]] + x[1..];
    CountCons(x[0], x[1..], st);
    NormCons(x[0], x[1..], g);
    if IsSpace(x[0]) {
      assert "" + n == n;
    } else {
      assert Norm(x, g) == Separator(g) + ([x[0]] + n);
      SeparatorCount([x[0]] + n, st, g);
      NormHead(x[1..]);
      CountCons(x[0], n, st);
    }
  }

  lemma {:induction false} TerminatorCount(x: string, st: LexState)
    ensures Count(x + ";", st) == Count(x, st)
  {
    hide Count;
    if x == [] {
      CountCons(';', "", st);
      CountNothing(st);
      CountNothing(Step(st, ';', false));
      assert x + ";" == [';'] + "";
    } else {
      var st' := Step(st, x[0], DashAt(x, 1));
      assert x == [x[0]] + x[1..] && x + ";" == [x[0]] + (x[1..] + ";");
      CountCons(x[0], x[1..], st);
      CountCons(x[0], x[1..] + ";", st);
      assert DashAt(x[1..] + ";", 0) == DashAt(x[1..], 0) == DashAt(x, 1);
      TerminatorCount(x[1..], st');
    }
  }

  /** The statement binds one argument for each placeholder of its parts, with the same exception. */
  lemma StatementArguments(sql: SQL)
    ensures var x, y := Text(sql), Flatten(Text(sql)) + ";";
            Placeholders(y, |y|) == Placeholders(x, |x|) <==> CommentsLast(x, Start)
  {
    hide Count, Placeholders, CommentsLast, Flatten, Norm, Text;
    var x := Text(sql);
    NormIsJoin(x);
    FlattenKeepsCount(x, Start, Fresh);
    TerminatorCount(Flatten(x), Start);
    CountIsPlaceholders(x);
    CountIsPlaceholders(Flatten(x) + ";");
  }
}
