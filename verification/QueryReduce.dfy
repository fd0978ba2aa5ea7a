/** A select over a list of key values, rewritten as a union of selects over one value
    each, and the law that a reducing condition needs for that. */
module QueryReduce {

  /** A row of the table: the column that the values are compared with, the column that
      orders the rows, and the rest. */
  datatype SqlRow = SqlRow(key: string, order: int, rest: string)

  /** A reducing condition ("order by ... limit ..."): what it makes of a set of rows. */
  type Reducer = set<SqlRow> -> seq<SqlRow>

  function Rows(s: seq<SqlRow>): set<SqlRow> {
    set r | r in s
  }

  /** The reducing condition keeps some of the rows, and reducing two parts first makes no
      difference. */
  ghost predicate Lawful(f: Reducer, table: set<SqlRow>) {
    && (forall a | a <= table :: Rows(f(a)) <= a)
    && forall a, b | a <= table && b <= table && a !! b :: f(a + b) == f(Rows(f(a)) + Rows(f(b)))
  }

  // ----- queries -------------------------------------------------------------------

  /** The two shapes of query that are built, over values as they are written. */
  datatype Query = Single(value: string) | Union(values: seq<string>)

  /** `keyColumn=value`, where `eval` is what the text of a value stands for. */
  function Select(table: set<SqlRow>, eval: string -> string, value: string): set<SqlRow> {
    set r | r in table && r.key == eval(value)
  }

  /** `keyColumn in (values)`. */
  function SelectIn(table: set<SqlRow>, eval: string -> string, values: seq<string>): set<SqlRow> {
    set r, i | r in table && 0 <= i < |values| && r.key == eval(values[i]) :: r
  }

  /** "union" removes duplicate rows. */
  function UnionOf(table: set<SqlRow>, eval: string -> string, f: Reducer, values: seq<string>): set<SqlRow> {
    if values == [] then {}
    else UnionOf(table, eval, f, values[..|values| - 1]) + Rows(f(Select(table, eval, values[|values| - 1])))
  }

  function Run(q: Query, table: set<SqlRow>, eval: string -> string, f: Reducer): seq<SqlRow> {
    match q
    case Single(value) => f(Select(table, eval, value))
    case Union(values) => f(UnionOf(table, eval, f, values))
  }

  // ----- the rewriting keeps the meaning -------------------------------------------

  lemma {:induction false} Law(f: Reducer, table: set<SqlRow>, a: set<SqlRow>, b: set<SqlRow>)
    requires Lawful(f, table) && a <= table && b <= table && a !! b
    ensures Rows(f(a)) <= a && f(a + b) == f(Rows(f(a)) + Rows(f(b)))
  {
  }

  /** Reducing what was reduced changes nothing. */
  lemma {:induction false} ReduceTwice(f: Reducer, table: set<SqlRow>, a: set<SqlRow>)
    requires Lawful(f, table) && a <= table
    ensures f(Rows(f(a))) == f(a)
  {
    Law(f, table, a, {});
    Law(f, table, {}, {});
    hide Lawful;
    assert a + {} == a && Rows(f({})) == {};
    assert Rows(f(a)) + {} == Rows(f(a));
  }

  /** Only one of two parts reduced first. */
  lemma {:induction false} ReducePart(f: Reducer, table: set<SqlRow>, u: set<SqlRow>, b: set<SqlRow>)
    requires Lawful(f, table) && u <= table && b <= table && u !! b
    ensures f(u + Rows(f(b))) == f(u + b)
  {
    hide Lawful;
    ReduceTwice(f, table, b);
    var c := Rows(f(b));
    Law(f, table, b, {});
    Law(f, table, u, b);
    Law(f, table, u, c);
  }

  /** The rows of a union come from the rows of the list, hold what each value gives, and
      reduce to the same. */
  ghost predicate Reduces(table: set<SqlRow>, eval: string -> string, f: Reducer, values: seq<string>) {
    var u, a := UnionOf(table, eval, f, values), SelectIn(table, eval, values);
    u <= a && f(u) == f(a) && forall v | v in values :: Rows(f(Select(table, eval, v))) <= u
  }

  lemma {:induction false} UnionReduces(table: set<SqlRow>, eval: string -> string, f: Reducer, values: seq<string>)
    requires Lawful(f, table)
    ensures Reduces(table, eval, f, values)
  {
    if values == [] {
      assert UnionOf(table, eval, f, values) == SelectIn(table, eval, values);
    } else {
      hide Lawful, Reduces;
      var front, last := values[..|values| - 1], values[|values| - 1];
      assert values == front + [last];
      UnionReduces(table, eval, f, front);
      if last' :| last' in front && eval(last') == eval(last) {
        RepeatedValue(table, eval, f, front, last, last');
      } else {
        NewValue(table, eval, f, front, last);
      }
    }
  }

  lemma {:induction false} UnionSnoc(table: set<SqlRow>, eval: string -> string, f: Reducer, front: seq<string>, last: string)
    ensures UnionOf(table, eval, f, front + [last]) == UnionOf(table, eval, f, front) + Rows(f(Select(table, eval, last)))
    ensures SelectIn(table, eval, front + [last]) == SelectIn(table, eval, front) + Select(table, eval, last)
  {
    assert (front + [last])[..|front|] == front;
    SelectInSnoc(table, eval, front, last);
  }

  lemma {:induction false} RepeatedValue(table: set<SqlRow>, eval: string -> string, f: Reducer, front: seq<string>, last: string, before: string)
    requires Reduces(table, eval, f, front) && before in front && eval(before) == eval(last)
    ensures Reduces(table, eval, f, front + [last])
  {
    UnionSnoc(table, eval, f, front, last);
    hide UnionOf;
    var u, a, b := UnionOf(table, eval, f, front), SelectIn(table, eval, front), Select(table, eval, last);
    assert Select(table, eval, before) == b && b <= a;
    assert a + b == a && u + Rows(f(b)) == u;
    hide SelectIn, Select;
  }

  lemma {:induction false} NewValue(table: set<SqlRow>, eval: string -> string, f: Reducer, front: seq<string>, last: string)
    requires Lawful(f, table) && Reduces(table, eval, f, front) && forall v | v in front :: eval(v) != eval(last)
    ensures Reduces(table, eval, f, front + [last])
  {
    hide Lawful, UnionOf, SelectIn, Select;
    UnionSnoc(table, eval, f, front, last);
    var u, a, b := UnionOf(table, eval, f, front), SelectIn(table, eval, front), Select(table, eval, last);
    Apart(table, eval, front, last);
    Law(f, table, b, {});
    ReducePart(f, table, u, b);
    ReduceBoth(f, table, u, a, b);
  }

  lemma {:induction false} Apart(table: set<SqlRow>, eval: string -> string, front: seq<string>, last: string)
    requires forall v | v in front :: eval(v) != eval(last)
    ensures var a, b := SelectIn(table, eval, front), Select(table, eval, last); a !! b && a <= table && b <= table
  {
  }

  lemma {:induction false} ReduceBoth(f: Reducer, table: set<SqlRow>, u: set<SqlRow>, a: set<SqlRow>, b: set<SqlRow>)
    requires Lawful(f, table) && u <= a <= table && b <= table && a !! b && f(u) == f(a)
    ensures f(u + b) == f(a + b)
  {
    Law(f, table, u, b);
    Law(f, table, a, b);
    hide Lawful;
  }

  lemma {:induction false} SelectInSnoc(table: set<SqlRow>, eval: string -> string, front: seq<string>, last: string)
    ensures SelectIn(table, eval, front + [last]) == SelectIn(table, eval, front) + Select(table, eval, last)
  {
    var values := front + [last];
    forall r | r in table
      ensures r in SelectIn(table, eval, values) <==> r in SelectIn(table, eval, front) || r.key == eval(last)
    {
      if i :| 0 <= i < |front| && r.key == eval(front[i]) {
        assert values[i] == front[i];
      }
      if r.key == eval(last) {
        assert values[|front|] == last;
      }
    }
  }

  /** The query that is built. */
  function Plan(values: seq<string>): Query
    requires values != []
  {
    if |values| == 1 then Single(values[0]) else Union(values)
  }

  /** For every list of values, repeated ones included, and every lawful reducing condition,
      the query gives what the reduced select over the list gives, in the same order. */
  lemma {:induction false} RewriteKeepsMeaning(table: set<SqlRow>, eval: string -> string, f: Reducer, values: seq<string>)
    requires Lawful(f, table) && values != []
    ensures Run(Plan(values), table, eval, f) == f(SelectIn(table, eval, values))
  {
    if |values| == 1 {
      assert SelectIn(table, eval, values) == Select(table, eval, values[0]) by {
        assert values == [] + [values[0]];
        SelectInSnoc(table, eval, [], values[0]);
      }
    } else {
      UnionReduces(table, eval, f, values);
    }
  }

  // ----- "order by order desc limit n" is lawful -------------------------------------

  ghost predicate DistinctOrder(rows: set<SqlRow>) {
    forall a, b | a in rows && b in rows && a.order == b.order :: a == b
  }

  ghost predicate IsGreatest(m: SqlRow, rows: set<SqlRow>) {
    m in rows && forall r | r in rows :: r.order <= m.order
  }

  lemma {:induction false} HasGreatest(rows: set<SqlRow>)
    requires rows != {}
    ensures exists m :: IsGreatest(m, rows)
  {
    var x :| x in rows;
    if rows == {x} {
      assert IsGreatest(x, rows);
    } else {
      HasGreatest(rows - {x});
      var n :| IsGreatest(n, rows - {x});
      assert IsGreatest(if x.order < n.order then n else x, rows);
    }
  }

  ghost function Greatest(rows: set<SqlRow>): (m: SqlRow)
    requires rows != {}
    ensures IsGreatest(m, rows)
  {
    HasGreatest(rows);
    var m :| IsGreatest(m, rows);
    m
  }

  ghost function TopN(rows: set<SqlRow>, n: nat): (s: seq<SqlRow>)
    ensures forall r | r in s :: r in rows
    decreases n
  {
    if n == 0 || rows == {} then []
    else var m := Greatest(rows); [m] + TopN(rows - {m}, n - 1)
  }

  /** Every row taken comes after the ones taken before, and before the ones left out. */
  ghost predicate Descending(s: seq<SqlRow>, rows: set<SqlRow>) {
    && (forall i, j | 0 <= i < j < |s| :: s[i].order > s[j].order)
    && forall i, r | 0 <= i < |s| && r in rows && r !in s :: s[i].order > r.order
  }

  lemma {:induction false} TopNSize(rows: set<SqlRow>, n: nat)
    ensures |TopN(rows, n)| == if n < |rows| then n else |rows|
    decreases n
  {
    if n > 0 && rows != {} {
      TopNSize(rows - {Greatest(rows)}, n - 1);
    }
  }

  /** `n` rows if there are as many, in descending order, and the ones left out come after them. */
  lemma {:induction false} TopNSorts(rows: set<SqlRow>, n: nat)
    requires DistinctOrder(rows)
    ensures Descending(TopN(rows, n), rows)
    ensures |TopN(rows, n)| == if n < |rows| then n else |rows|
    decreases n
  {
    TopNSize(rows, n);
    if n > 0 && rows != {} {
      var m := Greatest(rows);
      TopNSorts(rows - {m}, n - 1);
      DescendingCons(m, TopN(rows - {m}, n - 1), rows);
    }
  }

  lemma {:induction false} DescendingCons(m: SqlRow, t: seq<SqlRow>, rows: set<SqlRow>)
    requires DistinctOrder(rows) && IsGreatest(m, rows) && Descending(t, rows - {m}) && forall r | r in t :: r in rows - {m}
    ensures Descending([m] + t, rows)
  {
    var s := [m] + t;
    forall i, j | 0 <= i < j < |s| ensures s[i].order > s[j].order {
      assert s[j] == t[j - 1] && t[j - 1] in t;
    }
    forall i, r | 0 <= i < |s| && r in rows && r !in s ensures s[i].order > r.order {
      assert s[0] == m && r != m && r !in t;
    }
  }

  /** What is at the top of all rows is at the top of any part that it belongs to. */
  lemma {:induction false} TopOfPart(part: set<SqlRow>, rows: set<SqlRow>, n: nat, r: SqlRow)
    requires DistinctOrder(rows) && part <= rows && r in TopN(rows, n) && r in part
    ensures r in TopN(part, n)
    decreases n
  {
    var m := Greatest(rows);
    if m in part {
      assert Greatest(part) == m;
      if r != m {
        TopOfPart(part - {m}, rows - {m}, n - 1, r);
      }
    } else {
      TopOfPart(part, rows - {m}, n - 1, r);
      TopGrows(part, n - 1, r);
    }
  }

  lemma {:induction false} TopGrows(rows: set<SqlRow>, n: nat, r: SqlRow)
    requires r in TopN(rows, n)
    ensures r in TopN(rows, n + 1)
    decreases n
  {
    var m := Greatest(rows);
    if r != m {
      TopGrows(rows - {m}, n - 1, r);
    }
  }

  /** Rows below the top do not matter. */
  lemma {:induction false} TopIsEnough(part: set<SqlRow>, rows: set<SqlRow>, n: nat)
    requires DistinctOrder(rows) && part <= rows && Rows(TopN(rows, n)) <= part
    ensures TopN(part, n) == TopN(rows, n)
    decreases n
  {
    if n > 0 && rows != {} {
      var m := Greatest(rows);
      var t := TopN(rows - {m}, n - 1);
      assert TopN(rows, n) == [m] + t && m in Rows(TopN(rows, n));
      assert Greatest(part) == m;
      forall x | x in Rows(t) ensures x in part - {m} {
        assert x in Rows(TopN(rows, n));
      }
      TopIsEnough(part - {m}, rows - {m}, n - 1);
    }
  }

  /** The example of the documentation: "order by id desc limit n". */
  lemma {:induction false} TopNIsLawful(f: Reducer, table: set<SqlRow>, n: nat)
    requires DistinctOrder(table) && forall rows | rows <= table :: f(rows) == TopN(rows, n)
    ensures Lawful(f, table)
  {
    forall a, b | a <= table && b <= table && a !! b ensures f(a + b) == f(Rows(f(a)) + Rows(f(b))) {
      var part := Rows(TopN(a, n)) + Rows(TopN(b, n));
      assert part <= a + b <= table;
      forall r | r in Rows(TopN(a + b, n)) ensures r in part {
        if r in a {
          TopOfPart(a, a + b, n, r);
        } else {
          TopOfPart(b, a + b, n, r);
        }
      }
      TopIsEnough(part, a + b, n);
    }
    assert forall a | a <= table :: Rows(TopN(a, n)) <= a;
  }
}
