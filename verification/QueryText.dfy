/** The text side of the rewriting: the list of values is taken apart, and the query is
    put together. */
module QueryText {
  import opened Common
  import opened QueryReduce

  datatype Failure = NotInBrackets | BlankValue | NoValues

  datatype Result<+T> = Ok(value: T) | Error(failure: Failure)

  predicate Blank(s: string) {
    forall i | 0 <= i < |s| :: IsSpace(s[i])
  }

  function TrimLeft(s: string): string {
    if s != "" && IsSpace(s[0]) then TrimLeft(s[1..]) else s
  }

  function TrimRight(s: string): string {
    if s != "" && IsSpace(s[|s| - 1]) then TrimRight(s[..|s| - 1]) else s
  }

  function Trim(s: string): string {
    TrimRight(TrimLeft(s))
  }

  function RemoveFramingBrackets(s: string): Result<string> {
    if |s| < 2 || s[0] != '(' || s[|s| - 1] != ')' then Error(NotInBrackets) else Ok(s[1..|s| - 1])
  }

  /** The length of the first segment. */
  function FirstComma(s: string): (k: nat)
    ensures k <= |s| && (forall i | 0 <= i < k :: s[i] != ',') && (k < |s| ==> s[k] == ',')
  {
    if s == "" || s[0] == ',' then 0 else 1 + FirstComma(s[1..])
  }

  /** The segments between commas that are not empty. */
  function Pieces(s: string): seq<string>
    decreases |s|
  {
    if s == "" then []
    else
      var k := FirstComma(s);
      (if k == 0 then [] else [s[..k]]) + Pieces(if k == |s| then "" else s[k + 1..])
  }

  method SplitAny(src: string) returns (result: seq<string>)
    ensures result == Pieces(src)
  {
    hide Pieces;
    result := [];
    var it := 0;
    assert src[0..] == src;
    while it != |src|
      invariant 0 <= it <= |src|
      invariant result + Pieces(src[it..]) == Pieces(src)
      decreases |src| - it
    {
      var first, last := it, it;
      while last != |src|
        invariant first <= last <= |src| && forall i | first <= i < last :: src[i] != ','
        decreases |src| - last
      {
        if src[last] == ',' {
          break;
        }
        last := last + 1;
      }
      FirstPiece(src, first, last);
      it := if last == |src| then |src| else last + 1;
      if first == last {
        continue;
      }
      result := result + [src[first..last]];
    }
    assert src[it..] == "";
    PiecesOfNothing();
  }

  lemma {:induction false} PiecesOfNothing()
    ensures Pieces("") == []
  {
  }

  lemma {:induction false} FirstPiece(src: string, first: nat, last: nat)
    requires first <= last <= |src| && first < |src|
    requires (forall i | first <= i < last :: src[i] != ',') && (last < |src| ==> src[last] == ',')
    ensures Pieces(src[first..]) == (if first == last then [] else [src[first..last]])
                                    + Pieces(src[if last == |src| then |src| else last + 1..])
  {
    var s, k := src[first..], last - first;
    FirstCommaIs(s, k);
    assert s[..k] == src[first..last];
    if last < |src| {
      assert s[k + 1..] == src[last + 1..];
    }
  }

  lemma {:induction false} FirstCommaIs(s: string, k: nat)
    requires k <= |s| && (forall i | 0 <= i < k :: s[i] != ',') && (k < |s| ==> s[k] == ',')
    ensures FirstComma(s) == k
  {
  }

  function TrimAll(pieces: seq<string>): seq<string> {
    seq(|pieces|, i requires 0 <= i < |pieces| => Trim(pieces[i]))
  }

  /** What the text of a list of values stands for. */
  function ValuesOf(s: string): Result<seq<string>> {
    var pieces := Pieces(s);
    if exists i :: 0 <= i < |pieces| && Trim(pieces[i]) == "" then Error(BlankValue) else Ok(TrimAll(pieces))
  }

  method SplitValues(text: string) returns (r: Result<seq<string>>)
    ensures r == ValuesOf(text)
  {
    hide Trim, Pieces;
    var values := SplitAny(text);
    ghost var pieces := values;
    for i := 0 to |values|
      invariant |values| == |pieces|
      invariant forall k | 0 <= k < i :: values[k] == Trim(pieces[k]) && values[k] != ""
      invariant forall k | i <= k < |pieces| :: values[k] == pieces[k]
    {
      values := values[i := Trim(values[i])];
      if values[i] == "" {
        assert Trim(pieces[i]) == "";
        return Error(BlankValue);
      }
    }
    assert values == TrimAll(pieces);
    r := Ok(values);
  }

  function KeyValues(text: string): Result<seq<string>> {
    match RemoveFramingBrackets(Trim(text))
    case Error(f) => Error(f)
    case Ok(inner) =>
      match ValuesOf(inner)
      case Error(f) => Error(f)
      case Ok(values) => if values == [] then Error(NoValues) else Ok(values)
  }

  // ----- the query --------------------------------------------------------------------

  datatype Parts = Parts(columns: string, table: string, keyColumn: string, reducing: string)

  function SelectText(p: Parts, value: string): string {
    "select " + p.columns + " from " + p.table + " where " + p.keyColumn + "=" + value + " " + p.reducing
  }

  function UnionText(p: Parts, values: seq<string>): string {
    if values == [] then ""
    else
      var n := |values| - 1;
      UnionText(p, values[..n]) + (if n > 0 then "union" else "") + "(" + SelectText(p, values[n]) + ")"
  }

  function Render(q: Query, p: Parts): string {
    match q
    case Single(value) => SelectText(p, value)
    case Union(values) => "(" + UnionText(p, values) + ")" + p.reducing
  }

  method QueryReduceSelect(p: Parts, keyValues: string) returns (r: Result<string>)
    ensures r == match KeyValues(keyValues)
                 case Error(f) => Error(f)
                 case Ok(values) => Ok(Render(Plan(values), p))
  {
    hide SelectText, ValuesOf, Trim, UnionText;
    var inner := RemoveFramingBrackets(Trim(keyValues));
    if inner.Error? {
      return Error(inner.failure);
    }
    var split := SplitValues(inner.value);
    if split.Error? {
      return Error(split.failure);
    }
    var values := split.value;
    if values == [] {
      return Error(NoValues);
    }
    var squery := "";
    if |values| == 1 {
      squery := SelectText(p, values[0]);
    } else {
      squery := squery + "(";
      UnionTextNone(p);
      for i := 0 to |values|
        invariant squery == "(" + UnionText(p, values[..i])
      {
        if i > 0 {
          squery := squery + "union";
        }
        squery := squery + "(";
        squery := squery + SelectText(p, values[i]);
        squery := squery + ")";
        UnionTextStep(p, values, i);
      }
      assert values[..|values|] == values;
      squery := squery + ")";
      squery := squery + p.reducing;
    }
    r := Ok(squery);
  }

  lemma {:induction false} UnionTextStep(p: Parts, values: seq<string>, i: nat)
    requires i < |values|
    ensures UnionText(p, values[..i + 1])
            == UnionText(p, values[..i]) + (if i > 0 then "union" else "") + "(" + SelectText(p, values[i]) + ")"
  {
    hide SelectText;
    assert values[..i + 1][..i] == values[..i];
  }

  lemma {:induction false} UnionTextNone(p: Parts)
    ensures UnionText(p, []) == ""
  {
  }

  // ----- reading a list back ------------------------------------------------------------

  function Join(items: seq<string>): string {
    if items == [] then ""
    else if |items| == 1 then items[0]
    else items[0] + "," + Join(items[1..])
  }

  predicate Item(s: string) {
    !Blank(s) && forall i | 0 <= i < |s| :: s[i] != ','
  }

  lemma {:induction false} PiecesOfJoin(items: seq<string>)
    requires forall i | 0 <= i < |items| :: Item(items[i])
    ensures Pieces(Join(items)) == items
  {
    if |items| == 1 {
      FirstCommaIs(items[0], |items[0]|);
      assert items[0] != "" && items[0][..|items[0]|] == items[0] && Pieces("") == [];
    } else if |items| > 1 {
      var s, k := Join(items), |items[0]|;
      assert s == items[0] + ("," + Join(items[1..]));
      FirstCommaIs(s, k);
      assert s[..k] == items[0] && s[k + 1..] == Join(items[1..]);
      PiecesOfJoin(items[1..]);
    }
  }

  lemma {:induction false} TrimLeftBlank(s: string)
    ensures TrimLeft(s) == "" <==> Blank(s)
  {
    if s != "" && IsSpace(s[0]) {
      TrimLeftBlank(s[1..]);
      assert s == [s[0]] + s[1..];
    }
  }

  lemma {:induction false} TrimRightKeeps(s: string)
    requires s != "" && !IsSpace(s[0])
    ensures TrimRight(s) != ""
  {
    if |s| > 1 && IsSpace(s[|s| - 1]) {
      TrimRightKeeps(s[..|s| - 1]);
    }
  }

  lemma {:induction false} TrimLeftStops(s: string)
    ensures TrimLeft(s) != "" ==> !IsSpace(TrimLeft(s)[0])
  {
    if s != "" && IsSpace(s[0]) {
      TrimLeftStops(s[1..]);
    }
  }

  lemma {:induction false} TrimBlank(s: string)
    ensures Trim(s) == "" <==> Blank(s)
  {
    TrimLeftBlank(s);
    TrimLeftStops(s);
    if TrimLeft(s) != "" {
      TrimRightKeeps(TrimLeft(s));
    }
  }

  lemma {:induction false} TrimFramed(left: string, s: string, right: string)
    requires Blank(left) && Blank(right) && s != "" && !IsSpace(s[0]) && !IsSpace(s[|s| - 1])
    ensures Trim(left + s + right) == s
  {
    TrimLeftFramed(left, s + right);
    TrimRightFramed(s, right);
    assert left + s + right == left + (s + right);
  }

  lemma {:induction false} TrimLeftFramed(left: string, s: string)
    requires Blank(left) && s != "" && !IsSpace(s[0])
    ensures TrimLeft(left + s) == s
  {
    if left == "" {
      assert left + s == s;
    } else {
      assert (left + s)[1..] == left[1..] + s;
      TrimLeftFramed(left[1..], s);
    }
  }

  lemma {:induction false} TrimRightFramed(s: string, right: string)
    requires Blank(right) && s != "" && !IsSpace(s[|s| - 1])
    ensures TrimRight(s + right) == s
  {
    if right == "" {
      assert s + right == s;
    } else {
      var n := |right| - 1;
      assert (s + right)[..|s| + n] == s + right[..n];
      TrimRightFramed(s, right[..n]);
    }
  }

  /** A list in brackets, with space around it and around its values, is read as the
      values without that space. */
  lemma {:induction false} ListIsRead(left: string, items: seq<string>, right: string)
    requires Blank(left) && Blank(right) && items != [] && forall i | 0 <= i < |items| :: Item(items[i])
    ensures KeyValues(left + ("(" + Join(items) + ")") + right) == Ok(TrimAll(items))
  {
    hide Blank;
    var s := "(" + Join(items) + ")";
    TrimFramed(left, s, right);
    assert s[1..|s| - 1] == Join(items);
    PiecesOfJoin(items);
    forall i | 0 <= i < |items| ensures Trim(items[i]) != "" {
      TrimBlank(items[i]);
    }
  }

  /** Exactly the lists that cannot be read: no brackets, a value that is all space, or
      nothing but commas. Empty values between commas are passed over. */
  lemma {:induction false} ListIsRefused(text: string)
    ensures var s := Trim(text); KeyValues(text) == Error(NotInBrackets) <==> !Framed(s)
    ensures var s := Trim(text); KeyValues(text) == Error(BlankValue) <==> Framed(s) && exists p :: p in Pieces(Inner(s)) && Blank(p)
    ensures var s := Trim(text); KeyValues(text) == Error(NoValues) <==> Framed(s) && forall i | 0 <= i < |Inner(s)| :: Inner(s)[i] == ','
  {
    hide Blank, Trim;
    var s := Trim(text);
    if Framed(s) {
      NoPieces(Inner(s));
      forall p | p in Pieces(Inner(s)) ensures Trim(p) == "" <==> Blank(p) {
        TrimBlank(p);
      }
    }
  }

  predicate Framed(s: string) {
    |s| >= 2 && s[0] == '(' && s[|s| - 1] == ')'
  }

  function Inner(s: string): string
    requires Framed(s)
  {
    s[1..|s| - 1]
  }

  lemma {:induction false} NoPieces(s: string)
    ensures Pieces(s) == [] <==> forall i | 0 <= i < |s| :: s[i] == ','
    decreases |s|
  {
    if s != "" && s[0] == ',' {
      NoPieces(s[1..]);
      assert FirstComma(s) == 0;
      assert s == [s[0]] + s[1..];
    }
  }

  // ----- what the text asks for -----------------------------------------------------------

  /** The few shapes of a query that occur: a select for one value, a query with the reducing
      condition behind it (after a gap or not), a query in brackets, and two joined by "union". */
  datatype Sql = Where(value: string) | Reduced(of: Sql, gap: string) | Brackets(inner: Sql) | Both(left: Sql, right: Sql)

  /** A condition belongs to the select or the bracket before it, and "union" stands between
      brackets, so that a text can be read in one way only. */
  predicate Formed(q: Sql) {
    match q
    case Where(_) => true
    case Reduced(of, _) => (of.Where? || of.Brackets?) && Formed(of)
    case Brackets(inner) => Formed(inner)
    case Both(left, right) => (left.Brackets? || left.Both?) && right.Brackets? && Formed(left) && Formed(right)
  }

  function Text(q: Sql, p: Parts): string {
    match q
    case Where(value) => "select " + p.columns + " from " + p.table + " where " + p.keyColumn + "=" + value
    case Reduced(of, gap) => Text(of, p) + gap + p.reducing
    case Brackets(inner) => "(" + Text(inner, p) + ")"
    case Both(left, right) => Text(left, p) + "union" + Text(right, p)
  }

  /** The rows that a query gives. */
  function Answer(q: Sql, table: set<SqlRow>, eval: string -> string, f: Reducer): set<SqlRow> {
    match q
    case Where(value) => set r | r in table && r.key == eval(value)
    case Reduced(of, _) => set r | r in f(Answer(of, table, eval, f))
    case Brackets(inner) => Answer(inner, table, eval, f)
    case Both(left, right) => Answer(left, table, eval, f) + Answer(right, table, eval, f)
  }

  function OneSelect(value: string): (q: Sql)
    ensures Formed(q)
  {
    Brackets(Reduced(Where(value), " "))
  }

  function Unions(values: seq<string>): (q: Sql)
    requires values != []
    ensures Formed(q) && (q.Brackets? || q.Both?)
  {
    var n := |values| - 1;
    if n == 0 then OneSelect(values[0]) else Both(Unions(values[..n]), OneSelect(values[n]))
  }

  lemma {:induction false} OneSelectText(p: Parts, value: string)
    ensures Text(OneSelect(value), p) == "(" + SelectText(p, value) + ")"
  {
    var head := "select " + p.columns + " from " + p.table + " where " + p.keyColumn + "=" + value;
    assert Text(Where(value), p) == head && Text(Reduced(Where(value), " "), p) == head + " " + p.reducing;
    assert SelectText(p, value) == head + " " + p.reducing;
  }

  lemma {:induction false} UnionsText(p: Parts, values: seq<string>)
    requires values != []
    ensures Text(Unions(values), p) == UnionText(p, values)
  {
    hide SelectText, OneSelect;
    var n := |values| - 1;
    OneSelectText(p, values[n]);
    if n > 0 {
      UnionsText(p, values[..n]);
    } else {
      UnionTextNone(p);
    }
  }

  lemma {:induction false} OneSelectAnswer(table: set<SqlRow>, eval: string -> string, f: Reducer, value: string)
    ensures Answer(OneSelect(value), table, eval, f) == Rows(f(Select(table, eval, value)))
  {
    assert Answer(Where(value), table, eval, f) == Select(table, eval, value);
    assert Answer(Reduced(Where(value), " "), table, eval, f) == Rows(f(Select(table, eval, value)));
  }

  lemma {:induction false} UnionsAnswer(table: set<SqlRow>, eval: string -> string, f: Reducer, values: seq<string>)
    requires values != []
    ensures Answer(Unions(values), table, eval, f) == UnionOf(table, eval, f, values)
  {
    var n := |values| - 1;
    OneSelectAnswer(table, eval, f, values[n]);
    if n > 0 {
      UnionsAnswer(table, eval, f, values[..n]);
    } else {
      assert UnionOf(table, eval, f, values[..0]) == {};
    }
  }

  /** The text that is built for a list of values reads as a query which, reduced by a lawful
      condition, gives what the reduced select over the list gives. */
  lemma {:induction false} TextAsksForList(p: Parts, values: seq<string>, table: set<SqlRow>, eval: string -> string, f: Reducer)
    returns (q: Sql)
    requires values != [] && Lawful(f, table)
    ensures q.Reduced? && Formed(q) && Text(q, p) == Render(Plan(values), p)
    ensures f(Answer(q.of, table, eval, f)) == f(SelectIn(table, eval, values))
  {
    hide Lawful, SelectText;
    RewriteKeepsMeaning(table, eval, f, values);
    if |values| == 1 {
      q := Reduced(Where(values[0]), " ");
      SingleText(p, values[0]);
    } else {
      q := Reduced(Brackets(Unions(values)), "");
      UnionsText(p, values);
      UnionsAnswer(table, eval, f, values);
      assert "(" + UnionText(p, values) + ")" + "" + p.reducing == "(" + UnionText(p, values) + ")" + p.reducing;
    }
  }

  lemma {:induction false} SingleText(p: Parts, value: string)
    ensures Text(Reduced(Where(value), " "), p) == SelectText(p, value)
  {
  }
}
