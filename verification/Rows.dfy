/** The rows that travel through the merge pipeline, and the few facts about
    sequences of rows that every part of the pipeline shares. */
module Rows {

  /** What `call_leg` and `call_leg_link` rows have in common. `time` is the start
      stamp of the row in seconds (start_time, link_start_time); `startText` below is
      the same column as the text that was read. */
  datatype Row<+T> = Row(id: int, serverId: int, time: int, body: T)

  datatype Leg = Leg(uniqueid: string, orig: bool, startText: string, lastLinkedId: string)
  datatype Link = Link(uniqueidOrig: string, uniqueidTerm: string)

  type CallLeg = Row<Leg>
  type CallLegLink = Row<Link>

  function Elems<T>(s: seq<T>): set<T> {
    set x | x in s
  }

  ghost predicate NoDup<T>(s: seq<T>) {
    forall i, j | 0 <= i < j < |s| :: s[i] != s[j]
  }

  ghost predicate Disjoint<T>(a: seq<T>, b: seq<T>) {
    forall x | x in a :: x !in b
  }

  lemma {:induction false} NoDupConcat<T>(a: seq<T>, b: seq<T>)
    ensures NoDup(a + b) <==> NoDup(a) && NoDup(b) && Disjoint(a, b)
  {
    var c := a + b;
    assert forall i | 0 <= i < |a| :: c[i] == a[i];
    assert forall i | 0 <= i < |b| :: c[|a| + i] == b[i];
    if NoDup(c) {
      forall x, y | x in a && y in b ensures x != y {
        var i :| 0 <= i < |a| && a[i] == x;
        var j :| 0 <= j < |b| && b[j] == y;
        assert c[i] != c[|a| + j];
      }
      forall i, j | 0 <= i < j < |b| ensures b[i] != b[j] {
        assert c[|a| + i] != c[|a| + j];
      }
    } else {
      var i, j :| 0 <= i < j < |c| && c[i] == c[j];
      assert c[i] in c && (j < |a| || c[j] in b) && (|a| <= i || c[i] in a);
    }
  }

  /** The links of one call, in the order in which they appear in `links`. */
  function LinksOf(links: seq<CallLegLink>, orig: string): (r: seq<CallLegLink>)
    ensures forall l :: l in r <==> l in links && l.body.uniqueidOrig == orig
  {
    if links == [] then []
    else
      var front := LinksOf(links[..|links| - 1], orig);
      var last := links[|links| - 1];
      assert links == links[..|links| - 1] + [last];
      if last.body.uniqueidOrig == orig then front + [last] else front
  }

  lemma {:induction false} LinksOfConcat(a: seq<CallLegLink>, b: seq<CallLegLink>, orig: string)
    ensures LinksOf(a + b, orig) == LinksOf(a, orig) + LinksOf(b, orig)
  {
    if b == [] {
      assert a + b == a;
    } else {
      var n := |b| - 1;
      assert (a + b)[..|a| + n] == a + b[..n];
      LinksOfConcat(a, b[..n], orig);
    }
  }

  lemma {:induction false} LinksOfNoDup(links: seq<CallLegLink>, orig: string)
    requires NoDup(links)
    ensures NoDup(LinksOf(links, orig))
  {
    if links != [] {
      var n := |links| - 1;
      LinksOfNoDup(links[..n], orig);
      assert forall i | 0 <= i < n :: links[i] != links[n];
    }
  }

  lemma {:induction false} LinksOfNone(links: seq<CallLegLink>, orig: string)
    requires forall l | l in links :: l.body.uniqueidOrig != orig
    ensures LinksOf(links, orig) == []
  {
    if links != [] {
      var n := |links| - 1;
      assert links[n] in links && forall l | l in links[..n] :: l in links;
      LinksOfNone(links[..n], orig);
    }
  }
}
