/** What becomes of an emitted record before it is reported: its main leg, the legs that
    others are linked to, and the order of legs and links. */
module PostProcess {
  import opened Common
  import opened Rows
  import opened MergeContainers

  // ----- the order of a map's keys -----------------------------------------------------

  /** The order of strings. */
  predicate Less(a: string, b: string) {
    b != "" && (a == "" || a[0] < b[0] || (a[0] == b[0] && Less(a[1..], b[1..])))
  }

  lemma {:induction false} LessIsTotal(a: string, b: string)
    ensures a == b || Less(a, b) || Less(b, a)
  {
    if a != "" && b != "" && a[0] == b[0] {
      LessIsTotal(a[1..], b[1..]);
      assert a == [a[0]] + a[1..] && b == [b[0]] + b[1..];
    }
  }

  lemma {:induction false} LessIsStrict(a: string, b: string)
    ensures !(Less(a, b) && Less(b, a)) && !Less(a, a)
  {
    if a != "" {
      LessIsStrict(a[1..], if b == "" then "" else b[1..]);
    }
  }

  lemma {:induction false} LessIsTransitive(a: string, b: string, c: string)
    requires Less(a, b) && Less(b, c)
    ensures Less(a, c)
  {
    if a != "" && a[0] == b[0] == c[0] {
      LessIsTransitive(a[1..], b[1..], c[1..]);
    }
  }

  /** The lexicographic order: after a common prefix the shorter text ends, or has the smaller
      character. */
  ghost predicate Precedes(a: string, b: string) {
    exists n :: 0 <= n <= |a| && n < |b| && a[..n] == b[..n] && (n == |a| || a[n] < b[n])
  }

  lemma {:induction false} SamePrefix(a: string, b: string, n: nat)
    requires n <= |a| && n <= |b| && a[..n] == b[..n]
    ensures n > 0 ==> a[0] == b[0] && a[1..][..n - 1] == b[1..][..n - 1]
  {
    if n > 0 {
      assert a[0] == a[..n][0] && b[0] == b[..n][0];
      assert a[1..][..n - 1] == a[..n][1..] && b[1..][..n - 1] == b[..n][1..];
    }
  }

  lemma {:induction false} PrecedesBehind(a: string, b: string)
    requires a != "" && b != "" && a[0] == b[0]
    ensures Precedes(a, b) <==> Precedes(a[1..], b[1..])
  {
    if Precedes(a, b) {
      var n :| 0 <= n <= |a| && n < |b| && a[..n] == b[..n] && (n == |a| || a[n] < b[n]);
      SamePrefix(a, b, n);
    }
    if Precedes(a[1..], b[1..]) {
      var n :| 0 <= n <= |a[1..]| && n < |b[1..]| && a[1..][..n] == b[1..][..n] && (n == |a[1..]| || a[1..][n] < b[1..][n]);
      assert a[..n + 1] == [a[0]] + a[1..][..n] && b[..n + 1] == [b[0]] + b[1..][..n];
    }
  }

  lemma {:induction false} PrecedesAtOnce(a: string, b: string)
    requires a == "" || b == "" || a[0] != b[0]
    ensures Precedes(a, b) <==> b != "" && (a == "" || a[0] < b[0])
  {
    assert a[..0] == b[..0];
    if Precedes(a, b) {
      var n :| 0 <= n <= |a| && n < |b| && a[..n] == b[..n] && (n == |a| || a[n] < b[n]);
      SamePrefix(a, b, n);
    }
  }

  lemma {:induction false} LessIsPrecedes(a: string, b: string)
    ensures Less(a, b) <==> Precedes(a, b)
  {
    hide Precedes;
    if a != "" && b != "" && a[0] == b[0] {
      LessIsPrecedes(a[1..], b[1..]);
      PrecedesBehind(a, b);
    } else {
      PrecedesAtOnce(a, b);
    }
  }

  predicate IsLeast(k: string, keys: set<string>) {
    k in keys && forall j | j in keys :: j == k || Less(k, j)
  }

  lemma {:induction false} HasLeast(keys: set<string>)
    requires keys != {}
    ensures exists k :: IsLeast(k, keys)
  {
    var x :| x in keys;
    if keys == {x} {
      assert IsLeast(x, keys);
    } else {
      HasLeast(keys - {x});
      var m :| IsLeast(m, keys - {x});
      LessIsTotal(x, m);
      if Less(x, m) {
        forall j | j in keys ensures j == x || Less(x, j) {
          if j != x && j != m {
            LessIsTransitive(x, m, j);
          }
        }
        assert IsLeast(x, keys);
      } else {
        assert IsLeast(m, keys);
      }
    }
  }

  // ----- sorting -----------------------------------------------------------------------

  /** A strict order up to ties. */
  ghost predicate Weak<T(!new)>(less: (T, T) -> bool) {
    && (forall a, b :: !(less(a, b) && less(b, a)))
    && forall a, b, c :: !less(b, a) && !less(c, b) ==> !less(c, a)
  }

  ghost predicate Sorted<T>(s: seq<T>, less: (T, T) -> bool) {
    forall i, j | 0 <= i < j < |s| :: !less(s[j], s[i])
  }

  /** Any sorting will do; the library's is not part of this model. */
  function Insert<T>(s: seq<T>, x: T, less: (T, T) -> bool): (r: seq<T>)
    ensures multiset(r) == multiset(s) + multiset{x}
  {
    if s == [] || !less(x, s[|s| - 1]) then s + [x]
    else
      var n := |s| - 1;
      assert s == s[..n] + [s[n]];
      Insert(s[..n], x, less) + [s[n]]
  }

  function Sort<T>(s: seq<T>, less: (T, T) -> bool): (r: seq<T>)
    ensures multiset(r) == multiset(s)
  {
    if s == [] then []
    else
      assert s == s[..|s| - 1] + [s[|s| - 1]];
      Insert(Sort(s[..|s| - 1], less), s[|s| - 1], less)
  }

  lemma {:induction false} InsertSorts<T(!new)>(s: seq<T>, x: T, less: (T, T) -> bool)
    requires Weak(less) && Sorted(s, less)
    ensures Sorted(Insert(s, x, less), less)
  {
    if s != [] {
      var n := |s| - 1;
      var last := s[n];
      if less(x, last) {
        InsertSorts(s[..n], x, less);
        var front := Insert(s[..n], x, less);
        forall y | y in front ensures !less(last, y) {
          assert y in multiset(front);
          assert y == x || y in s[..n];
        }
      } else {
        forall i | 0 <= i < |s| ensures !less(x, s[i]) {
          assert !less(last, s[i]);
        }
      }
    }
  }

  lemma {:induction false} SortSorts<T(!new)>(s: seq<T>, less: (T, T) -> bool)
    requires Weak(less)
    ensures Sorted(Sort(s, less), less)
  {
    if s != [] {
      SortSorts(s[..|s| - 1], less);
      InsertSorts(Sort(s[..|s| - 1], less), s[|s| - 1], less);
    }
  }

  /** The two comparators. */
  function LegByStartTime(): (CallLeg, CallLeg) -> bool {
    (a: CallLeg, b: CallLeg) => Less(a.body.startText, b.body.startText)
  }

  function LinkById(): (CallLegLink, CallLegLink) -> bool {
    (a: CallLegLink, b: CallLegLink) => a.id < b.id
  }

  lemma {:induction false} ComparatorsAreWeak()
    ensures Weak(LegByStartTime()) && Weak(LinkById())
  {
    forall a: CallLeg, b: CallLeg ensures !(LegByStartTime()(a, b) && LegByStartTime()(b, a)) {
      LessIsStrict(a.body.startText, b.body.startText);
    }
    forall a: CallLeg, b: CallLeg, c: CallLeg | !LegByStartTime()(b, a) && !LegByStartTime()(c, b) ensures !LegByStartTime()(c, a) {
      NotLessIsTransitive(a.body.startText, b.body.startText, c.body.startText);
    }
  }

  lemma {:induction false} NotLessIsTransitive(a: string, b: string, c: string)
    requires !Less(b, a) && !Less(c, b)
    ensures !Less(c, a)
  {
    LessIsTotal(a, b);
    LessIsTotal(b, c);
    LessIsStrict(a, c);
    if a != b && b != c {
      LessIsTransitive(a, b, c);
    }
  }

  // ----- one record --------------------------------------------------------------------

  type Legs = map<string, CallLeg>

  /** A leg that a map makes up for a missing key. */
  function DefaultLeg(): CallLeg {
    Row(0, 0, 0, Leg("", false, "", ""))
  }

  function Lookup(legs: Legs, k: string): CallLeg {
    if k in legs then legs[k] else DefaultLeg()
  }

  /** The keys in the order in which a map is walked through. */
  ghost function KeyOrder(keys: set<string>): (order: seq<string>)
    ensures forall k :: k in order <==> k in keys
  {
    if keys == {} then []
    else
      HasLeast(keys);
      var k :| IsLeast(k, keys);
      [k] + KeyOrder(keys - {k})
  }

  /** The legs that the legs at `keys` are linked to. */
  function Linked(legs: Legs, keys: seq<string>): seq<CallLeg>
    requires forall k | k in keys :: k in legs
  {
    if keys == [] then []
    else
      var x := legs[keys[0]].body.lastLinkedId;
      (if x == "" then [] else [Lookup(legs, x)]) + Linked(legs, keys[1..])
  }

  /** The last originating leg, or `a`. */
  function MainLeg(legs: Legs, keys: seq<string>, a: Option<CallLeg>): Option<CallLeg>
    requires forall k | k in keys :: k in legs
  {
    if keys == [] then a
    else MainLeg(legs, keys[1..], if legs[keys[0]].body.orig then Some(legs[keys[0]]) else a)
  }

  function Targets(legs: Legs, keys: set<string>): set<string>
    requires keys <= legs.Keys
  {
    set k | k in keys && legs[k].body.lastLinkedId != "" :: legs[k].body.lastLinkedId
  }

  lemma {:induction false} KeyOrderIsOnce(keys: set<string>)
    ensures |KeyOrder(keys)| == |keys| && NoDup(KeyOrder(keys))
  {
    if keys != {} {
      HasLeast(keys);
      var order, k := KeyOrder(keys), KeyOrder(keys)[0];
      var rest := order[1..];
      assert rest == KeyOrder(keys - {k});
      KeyOrderIsOnce(keys - {k});
      hide KeyOrder;
      forall i, j | 0 <= i < j < |order| ensures order[i] != order[j] {
        assert order[j] == rest[j - 1] && rest[j - 1] in rest;
      }
    }
  }

  lemma {:induction false} LeastFirst(k: string, keys: set<string>)
    requires IsLeast(k, keys)
    ensures KeyOrder(keys) == [k] + KeyOrder(keys - {k})
  {
    var j := KeyOrder(keys)[0];
    HasLeast(keys);
    assert IsLeast(j, keys);
    LessIsStrict(j, k);
  }

  /** The keys that a walk that has come to `cur` has still to visit. */
  function Later(keys: set<string>, cur: Option<string>): set<string> {
    if cur.None? then keys else set k | k in keys && Less(cur.value, k)
  }

  lemma {:induction false} LaterThan(keys: set<string>, cur: Option<string>, k: string, among: set<string>)
    requires IsLeast(k, Later(keys, cur)) && among <= keys
    ensures Later(among, Some(k)) == Later(among, cur) - {k}
    ensures k in among ==> IsLeast(k, Later(among, cur))
  {
    LessIsStrict(k, k);
    forall j | j in among ensures j in Later(among, Some(k)) <==> j in Later(among, cur) && j != k {
      LessIsStrict(j, k);
      if Less(k, j) && cur.Some? {
        LessIsTransitive(cur.value, k, j);
      }
    }
  }

  datatype Report = Report(a: Option<CallLeg>, b: seq<CallLeg>, legs: Legs, links: seq<CallLegLink>)

  /** The legs that were there are as they were, and made-up ones were added for the
      targets of all legs that were visited. */
  ghost predicate Grown(was: Legs, legs: Legs, left: set<string>) {
    && left <= was.Keys <= legs.Keys
    && (forall k | k in legs :: legs[k] == Lookup(was, k))
    && legs.Keys + Targets(was, left) == was.Keys + Targets(was, was.Keys)
  }

  /** The report lists the linked legs by their start texts, and the links by their ids. */
  ghost predicate InOrder(r: Report) {
    && (forall i, j | 0 <= i < j < |r.b| ::
          r.b[i].body.startText == r.b[j].body.startText || Precedes(r.b[i].body.startText, r.b[j].body.startText))
    && forall i, j | 0 <= i < j < |r.links| :: r.links[i].id <= r.links[j].id
  }

  /** The originating leg with the greatest key, if there is one. */
  ghost predicate IsMain(legs: Legs, a: Option<CallLeg>) {
    match a
    case None => forall k | k in legs :: !legs[k].body.orig
    case Some(leg) =>
      exists k :: k in legs && legs[k] == leg && leg.body.orig && forall j | j in legs && legs[j].body.orig :: j == k || Precedes(j, k)
  }

  /** The legs are those that were there, and an empty one for every other id that one of
      them is linked to. */
  ghost predicate Completed(was: Legs, legs: Legs) {
    && (forall k :: k in legs <==> k in was || (k != "" && exists j :: j in was && was[j].body.lastLinkedId == k))
    && forall k | k in legs :: legs[k] == if k in was then was[k] else Row(0, 0, 0, Leg("", false, "", ""))
  }

  /** Each of the legs is listed as often as others are linked to it. */
  ghost predicate Listed(was: Legs, legs: Legs, b: seq<CallLeg>) {
    forall x :: multiset(b)[x] == |set k | k in was && was[k].body.lastLinkedId in legs
                                           && was[k].body.lastLinkedId != "" && legs[was[k].body.lastLinkedId] == x|
  }

  /** How far a walk over the legs has come, compared with the whole walk. */
  ghost predicate Walked(was: Legs, legs: Legs, left: set<string>, a: Option<CallLeg>, b: seq<CallLeg>) {
    && Grown(was, legs, left)
    && MainLeg(was, KeyOrder(left), a) == MainLeg(was, KeyOrder(was.Keys), None)
    && b + Linked(was, KeyOrder(left)) == Linked(was, KeyOrder(was.Keys))
  }

  lemma {:induction false} WalkBegins(was: Legs)
    ensures Walked(was, was, was.Keys, None, [])
  {
  }

  /** A made-up leg changes nothing. */
  lemma {:induction false} VisitDefault(was: Legs, legs: Legs, left: set<string>, a: Option<CallLeg>, b: seq<CallLeg>, k: string)
    requires Walked(was, legs, left, a, b) && k in legs && k !in was
    ensures !legs[k].body.orig && legs[k].body.lastLinkedId == "" && left - {k} == left
  {
  }

  lemma {:induction false} VisitGrows(was: Legs, legs: Legs, left: set<string>, k: string)
    requires Grown(was, legs, left) && k in left
    ensures var x := was[k].body.lastLinkedId;
            && Grown(was, if x == "" || x in legs then legs else legs[x := DefaultLeg()], left - {k})
            && (if x in legs then legs[x] == Lookup(was, x) else Lookup(was, x) == DefaultLeg())
  {
    var x := was[k].body.lastLinkedId;
    var made := if x == "" then {} else {x};
    TargetsWithout(was, left, k);
    assert x == "" || x in Targets(was, was.Keys);
    hide Targets;
    assert legs.Keys + made + Targets(was, left - {k}) == legs.Keys + Targets(was, left);
  }

  lemma {:induction false} TargetsWithout(was: Legs, left: set<string>, k: string)
    requires left <= was.Keys && k in left
    ensures Targets(was, left) == Targets(was, left - {k}) + (if was[k].body.lastLinkedId == "" then {} else {was[k].body.lastLinkedId})
  {
  }

  lemma {:induction false} VisitLeg(was: Legs, legs: Legs, left: set<string>, a: Option<CallLeg>, b: seq<CallLeg>, k: string)
    requires Walked(was, legs, left, a, b) && IsLeast(k, left)
    ensures k in legs && legs[k] == was[k]
    ensures var leg := was[k];
            var x := leg.body.lastLinkedId;
            && (if x in legs then legs[x] == Lookup(was, x) else Lookup(was, x) == DefaultLeg())
            && Walked(was, if x == "" || x in legs then legs else legs[x := DefaultLeg()], left - {k},
                      if leg.body.orig then Some(leg) else a, if x == "" then b else b + [Lookup(was, x)])
  {
    assert k in legs && legs[k] == was[k];
    VisitGrows(was, legs, left, k);
    LeastFirst(k, left);
    hide Grown, Lookup, IsLeast;
    var keys := KeyOrder(left);
    assert keys[0] == k && keys[1..] == KeyOrder(left - {k});
    var x := was[k].body.lastLinkedId;
    assert b + ((if x == "" then [] else [Lookup(was, x)]) + Linked(was, keys[1..]))
           == (if x == "" then b else b + [Lookup(was, x)]) + Linked(was, keys[1..]);
  }

  method PostProcess(record: CallRecord) returns (r: Report)
    ensures var keys := record.legs.Keys;
            && r.a == MainLeg(record.legs, KeyOrder(keys), None)
            && multiset(r.b) == multiset(Linked(record.legs, KeyOrder(keys))) && Sorted(r.b, LegByStartTime())
            && r.legs.Keys == keys + Targets(record.legs, keys) && (forall k | k in r.legs :: r.legs[k] == Lookup(record.legs, k))
            && multiset(r.links) == multiset(record.links) && Sorted(r.links, LinkById())
    ensures InOrder(r) && IsMain(record.legs, r.a) && Completed(record.legs, r.legs) && Listed(record.legs, r.legs, r.b)
  {
    hide InOrder, IsMain, Completed, Listed, MainLeg, Linked, Targets;
    hide Walked;
    var legs, a, b := record.legs, None, [];
    var cur: Option<string> := None;
    ghost var was := record.legs;
    WalkBegins(was);
    while Later(legs.Keys, cur) != {}
      invariant was.Keys <= legs.Keys && Walked(was, legs, Later(was.Keys, cur), a, b)
      decreases Later(was.Keys, cur), Later(legs.Keys, cur)
    {
      HasLeast(Later(legs.Keys, cur));
      var k :| IsLeast(k, Later(legs.Keys, cur));
      LaterThan(legs.Keys, cur, k, was.Keys);
      LaterThan(legs.Keys, cur, k, legs.Keys);
      if k in was {
        VisitLeg(was, legs, Later(was.Keys, cur), a, b, k);
      } else {
        VisitDefault(was, legs, Later(was.Keys, cur), a, b, k);
      }
      var leg := legs[k];
      if leg.body.orig {
        a := Some(leg);
      }
      if leg.body.lastLinkedId != "" {
        var x := leg.body.lastLinkedId;
        if x !in legs {
          legs := legs[x := DefaultLeg()];
        }
        b := b + [legs[x]];
      }
      cur := Some(k);
    }
    WalkEnds(was, legs, Later(was.Keys, cur), a, b);
    ComparatorsAreWeak();
    SortSorts(b, LegByStartTime());
    SortSorts(record.links, LinkById());
    r := Report(a, Sort(b, LegByStartTime()), legs, Sort(record.links, LinkById()));
    OrderIs(r);
    MainIs(was);
    CompletedIs(was, legs);
    ListedIs(was, legs, KeyOrder(was.Keys), was.Keys, r.b);
  }

  lemma {:induction false} WalkEnds(was: Legs, legs: Legs, left: set<string>, a: Option<CallLeg>, b: seq<CallLeg>)
    requires Walked(was, legs, left, a, b) && left == {}
    ensures a == MainLeg(was, KeyOrder(was.Keys), None) && b == Linked(was, KeyOrder(was.Keys))
    ensures legs.Keys == was.Keys + Targets(was, was.Keys) && forall k | k in legs :: legs[k] == Lookup(was, k)
  {
  }

  // ----- what the report says ----------------------------------------------------------------

  lemma {:induction false} OrderIs(r: Report)
    requires Sorted(r.b, LegByStartTime()) && Sorted(r.links, LinkById())
    ensures InOrder(r)
  {
    hide Less, Precedes;
    forall i, j | 0 <= i < j < |r.b|
      ensures r.b[i].body.startText == r.b[j].body.startText || Precedes(r.b[i].body.startText, r.b[j].body.startText)
    {
      assert !LegByStartTime()(r.b[j], r.b[i]);
      LessIsTotal(r.b[i].body.startText, r.b[j].body.startText);
      LessIsPrecedes(r.b[i].body.startText, r.b[j].body.startText);
    }
    forall i, j | 0 <= i < j < |r.links| ensures r.links[i].id <= r.links[j].id {
      assert !LinkById()(r.links[j], r.links[i]);
    }
  }

  lemma {:induction false} MainIs(legs: Legs)
    ensures IsMain(legs, MainLeg(legs, KeyOrder(legs.Keys), None))
  {
    hide MainLeg, KeyOrder, Less, Precedes;
    LastIsMain(legs, legs.Keys, None);
    var a := MainLeg(legs, KeyOrder(legs.Keys), None);
    if a.Some? {
      var k :| IsLast(legs, legs.Keys, k, a);
      forall j | j in legs && legs[j].body.orig ensures j == k || Precedes(j, k) {
        LessIsPrecedes(j, k);
      }
    }
  }

  ghost predicate IsLast(legs: Legs, keys: set<string>, k: string, a: Option<CallLeg>)
    requires keys <= legs.Keys
  {
    k in keys && a == Some(legs[k]) && legs[k].body.orig && forall j | j in keys && legs[j].body.orig :: j == k || Less(j, k)
  }

  ghost predicate NoMain(legs: Legs, keys: set<string>)
    requires keys <= legs.Keys
  {
    forall k | k in keys :: !legs[k].body.orig
  }

  lemma {:induction false} LastIsMain(legs: Legs, keys: set<string>, a: Option<CallLeg>)
    requires keys <= legs.Keys
    ensures LastOf(legs, keys, a, MainLeg(legs, KeyOrder(keys), a))
  {
    hide Less, LastOf;
    if keys == {} {
      NoneIsLast(legs, a);
    } else {
      HasLeast(keys);
      var k :| IsLeast(k, keys);
      LeastFirst(k, keys);
      var order := KeyOrder(keys);
      assert order[0] == k && order[1..] == KeyOrder(keys - {k});
      var b := if legs[k].body.orig then Some(legs[k]) else a;
      LastIsMain(legs, keys - {k}, b);
      LastStep(legs, keys, k, a, MainLeg(legs, order, a));
    }
  }

  /** `r` is the originating leg with the greatest of the keys, or else `a`. */
  ghost predicate LastOf(legs: Legs, keys: set<string>, a: Option<CallLeg>, r: Option<CallLeg>)
    requires keys <= legs.Keys
  {
    if NoMain(legs, keys) then r == a else exists k :: IsLast(legs, keys, k, r)
  }

  lemma {:induction false} NoneIsLast(legs: Legs, a: Option<CallLeg>)
    ensures LastOf(legs, {}, a, a)
  {
  }

  lemma {:induction false} LastStep(legs: Legs, keys: set<string>, k: string, a: Option<CallLeg>, r: Option<CallLeg>)
    requires keys <= legs.Keys && IsLeast(k, keys)
    requires LastOf(legs, keys - {k}, if legs[k].body.orig then Some(legs[k]) else a, r)
    ensures LastOf(legs, keys, a, r)
  {
    hide Less;
    if NoMain(legs, keys - {k}) {
      if legs[k].body.orig {
        assert IsLast(legs, keys, k, r);
      }
    } else {
      var j :| IsLast(legs, keys - {k}, j, r);
      assert IsLast(legs, keys, j, r);
    }
  }

  lemma {:induction false} CompletedIs(was: Legs, legs: Legs)
    requires legs.Keys == was.Keys + Targets(was, was.Keys) && forall k | k in legs :: legs[k] == Lookup(was, k)
    ensures Completed(was, legs)
  {
  }

  /** The keys of the legs that are linked to `x`. */
  ghost function LinkedTo(was: Legs, legs: Legs, keys: set<string>, x: CallLeg): set<string>
    requires keys <= was.Keys
  {
    set k | k in keys && was[k].body.lastLinkedId in legs && was[k].body.lastLinkedId != "" && legs[was[k].body.lastLinkedId] == x
  }

  lemma {:induction false} LinkedOften(was: Legs, legs: Legs, keys: set<string>, x: CallLeg)
    requires keys <= was.Keys && legs.Keys == was.Keys + Targets(was, was.Keys) && forall k | k in legs :: legs[k] == Lookup(was, k)
    ensures multiset(Linked(was, KeyOrder(keys)))[x] == |LinkedTo(was, legs, keys, x)|
  {
    if keys == {} {
      assert LinkedTo(was, legs, keys, x) == {};
    } else {
      HasLeast(keys);
      var order := KeyOrder(keys);
      var k := order[0];
      var id := was[k].body.lastLinkedId;
      assert order[1..] == KeyOrder(keys - {k});
      var rest := Linked(was, order[1..]);
      assert Linked(was, order) == (if id == "" then [] else [Lookup(was, id)]) + rest;
      assert id == "" || id in legs by {
        assert id == "" || id in Targets(was, was.Keys);
      }
      hide KeyOrder, Lookup, Linked, Targets, LinkedTo;
      LinkedOften(was, legs, keys - {k}, x);
      LinkedToOneMore(was, legs, keys, x, k);
    }
  }

  lemma {:induction false} LinkedToOneMore(was: Legs, legs: Legs, keys: set<string>, x: CallLeg, k: string)
    requires keys <= was.Keys && k in keys
    ensures var id := was[k].body.lastLinkedId;
            |LinkedTo(was, legs, keys, x)| == |LinkedTo(was, legs, keys - {k}, x)| + if id in legs && id != "" && legs[id] == x then 1 else 0
  {
    var id := was[k].body.lastLinkedId;
    var rest := LinkedTo(was, legs, keys - {k}, x);
    if id in legs && id != "" && legs[id] == x {
      assert LinkedTo(was, legs, keys, x) == rest + {k};
    } else {
      assert LinkedTo(was, legs, keys, x) == rest;
    }
  }

  lemma {:induction false} ListedIs(was: Legs, legs: Legs, order: seq<string>, keys: set<string>, b: seq<CallLeg>)
    requires keys == was.Keys && order == KeyOrder(keys) && multiset(b) == multiset(Linked(was, order))
    requires legs.Keys == was.Keys + Targets(was, was.Keys) && forall k | k in legs :: legs[k] == Lookup(was, k)
    ensures Listed(was, legs, b)
  {
    hide Linked, Lookup, Targets;
    forall x ensures multiset(b)[x] == |LinkedTo(was, legs, keys, x)| {
      LinkedOften(was, legs, keys, x);
    }
    forall x ensures multiset(b)[x] == |set k | k in was && was[k].body.lastLinkedId in legs
                                                && was[k].body.lastLinkedId != "" && legs[was[k].body.lastLinkedId] == x|
    {
      assert LinkedTo(was, legs, keys, x) == set k | k in was && was[k].body.lastLinkedId in legs
                                                     && was[k].body.lastLinkedId != "" && legs[was[k].body.lastLinkedId] == x;
    }
  }
}
