/** What every pass of the container keeps, whatever rows it is fed, and what it
    does to calls whose originating ids are distinct. */
module ContainerLaws {
  import opened Rows
  import opened MergeContainers

  // ----- conservation of links, for any input ------------------------------

  /** How often the records hold `l`. */
  function CountIn(recs: seq<CallRecord>, l: CallLegLink): nat {
    if recs == [] then 0
    else CountIn(recs[..|recs| - 1], l) + multiset(recs[|recs| - 1].links)[l]
  }

  /** How often `l` waits in `links`. */
  function InGroup(links: LinkGroups, l: CallLegLink): nat {
    multiset(Group(links, l.body.uniqueidOrig))[l]
  }

  lemma {:induction false} CountInSnoc(recs: seq<CallRecord>, r: CallRecord, l: CallLegLink)
    ensures CountIn(recs + [r], l) == CountIn(recs, l) + multiset(r.links)[l]
  {
    assert (recs + [r])[..|recs|] == recs;
  }

  lemma {:induction false} CountInConcat(a: seq<CallRecord>, b: seq<CallRecord>, l: CallLegLink)
    ensures CountIn(a + b, l) == CountIn(a, l) + CountIn(b, l)
  {
    if b == [] {
      assert a + b == a;
    } else {
      var n := |b| - 1;
      assert a + b == (a + b[..n]) + [b[n]];
      CountInSnoc(a + b[..n], b[n], l);
      CountInConcat(a, b[..n], l);
    }
  }

  lemma {:induction false} AbsorbLegsOpensNoLinks(c: Container, legs: seq<CallLeg>, l: CallLegLink)
    requires c.Valid()
    ensures CountIn(AbsorbLegs(c, legs).data, l) == CountIn(c.data, l)
  {
    if legs != [] {
      var n := |legs| - 1;
      AbsorbLegsOpensNoLinks(c, legs[..n], l);
      CountInSnoc(AbsorbLegs(c, legs[..n]).data, Open(legs[n]), l);
    }
  }

  lemma {:induction false} AbsorbLinksGroups(c: Container, links: seq<CallLegLink>, orig: string)
    requires c.Valid()
    ensures Group(AbsorbLinks(c, links).links, orig) == Group(c.links, orig) + LinksOf(links, orig)
  {
    if links != [] {
      var n := |links| - 1;
      AbsorbLinksGroups(c, links[..n], orig);
    }
  }

  lemma {:induction false} LinksOfCounts(links: seq<CallLegLink>, l: CallLegLink)
    ensures multiset(LinksOf(links, l.body.uniqueidOrig))[l] == multiset(links)[l]
  {
    if links != [] {
      var n := |links| - 1;
      LinksOfCounts(links[..n], l);
      assert links == links[..n] + [links[n]];
    }
  }

  lemma {:induction false} GroupMoves(links: LinkGroups, rec: CallRecord, l: CallLegLink)
    requires Grouped(links)
    ensures multiset(rec.links + Group(links, rec.orig))[l] + InGroup(links - {rec.orig}, l)
            == multiset(rec.links)[l] + InGroup(links, l)
  {
    var group := Group(links, rec.orig);
    assert multiset(rec.links + group)[l] == multiset(rec.links)[l] + multiset(group)[l];
    if l.body.uniqueidOrig != rec.orig {
      assert l !in group;
    }
  }

  lemma {:induction false} SweepConserves(recs: seq<CallRecord>, legs: map<string, CallLeg>, links: LinkGroups, l: CallLegLink)
    requires Grouped(links) && Keyed(legs)
    ensures var s := SweepAll(recs, legs, links);
            CountIn(s.swept, l) + InGroup(s.links, l) == CountIn(recs, l) + InGroup(links, l)
  {
    if recs != [] {
      var n := |recs| - 1;
      var p := SweepAll(recs[..n], legs, links);
      SweepConserves(recs[..n], legs, links, l);
      SweepValid(recs[..n], legs, links);
      GroupMoves(p.links, recs[n], l);
      CountInSnoc(p.swept, SweepOne(p, recs[n]).swept[n], l);
    }
  }

  lemma {:induction false} SelectCounts(recs: seq<CallRecord>, saveTime: int, looks: Looks, maxCall: int, l: CallLegLink)
    ensures CountIn(recs, l) == CountIn(Select(recs, false, saveTime, looks, maxCall), l)
                              + CountIn(Select(recs, true, saveTime, looks, maxCall), l)
  {
    if recs != [] {
      var n := |recs| - 1;
      SelectCounts(recs[..n], saveTime, looks, maxCall, l);
      hide CountIn;
      assert recs == recs[..n] + [recs[n]];
      CountInSnoc(recs[..n], recs[n], l);
      CountInSnoc(Select(recs[..n], false, saveTime, looks, maxCall), recs[n], l);
      CountInSnoc(Select(recs[..n], true, saveTime, looks, maxCall), recs[n], l);
    }
  }

  /** The places where `l` can be inside a container. */
  function Held(c: Container, l: CallLegLink): nat {
    InGroup(c.links, l) + CountIn(c.data, l)
  }

  lemma {:induction false} AbsorbedCounts(c: Container, legsIn: seq<CallLeg>, linksIn: seq<CallLegLink>, l: CallLegLink)
    requires c.Valid()
    ensures Held(Absorbed(c, legsIn, linksIn), l) == Held(c, l) + multiset(linksIn)[l]
  {
    var o := l.body.uniqueidOrig;
    AbsorbLegsOpensNoLinks(c, legsIn, l);
    AbsorbLinksGroups(AbsorbLegs(c, legsIn), linksIn, o);
    LinksOfCounts(linksIn, l);
    var a, b := Group(c.links, o), LinksOf(linksIn, o);
    assert multiset(a + b)[l] == multiset(a)[l] + multiset(b)[l];
  }

  lemma {:induction false} SettleConserves(d: Container, looks: Looks, maxCall: int, l: CallLegLink)
    requires d.Valid()
    ensures var p := Settle(d, looks, maxCall);
            Held(d, l) == Held(p.container, l) + CountIn(p.emitted, l) + InGroup(p.dropped, l)
  {
    hide SweepAll, Select, CountIn;
    var saveTime := d.maxLegTime - maxCall;
    var s := SweepAll(d.data, d.legs, d.links);
    SweepValid(d.data, d.legs, d.links);
    SweepConserves(d.data, d.legs, d.links, l);
    SelectCounts(s.swept, saveTime, looks, maxCall, l);
    FreshOrStale(s.links, saveTime, l);
  }

  /** After a pass every dequeued link is in exactly one place: still waiting, in a
      live record, in an emitted record, or dropped with its stale group. */
  lemma {:induction false} Conservation(c: Container, legsIn: seq<CallLeg>, linksIn: seq<CallLegLink>, looks: Looks, maxCall: int, l: CallLegLink)
    requires c.Valid()
    ensures var p := RunPass(c, legsIn, linksIn, looks, maxCall);
            Held(c, l) + multiset(linksIn)[l]
            == Held(p.container, l) + CountIn(p.emitted, l) + InGroup(p.dropped, l)
  {
    AbsorbedCounts(c, legsIn, linksIn, l);
    SettleConserves(Absorbed(c, legsIn, linksIn), looks, maxCall, l);
  }

  lemma {:induction false} FreshOrStale(links: LinkGroups, saveTime: int, l: CallLegLink)
    requires Grouped(links)
    ensures InGroup(links, l) == InGroup(FreshLinks(links, saveTime), l) + InGroup(StaleLinks(links, saveTime), l)
  {
  }

  /** A record only ever holds links of its own call. */
  ghost predicate OwnLinks(recs: seq<CallRecord>) {
    forall r | r in recs :: forall l | l in r.links :: l.body.uniqueidOrig == r.orig
  }

  lemma {:induction false} AbsorbLegsOwnLinks(c: Container, legs: seq<CallLeg>)
    requires c.Valid() && OwnLinks(c.data)
    ensures OwnLinks(AbsorbLegs(c, legs).data)
  {
    if legs != [] {
      AbsorbLegsOwnLinks(c, legs[..|legs| - 1]);
    }
  }

  lemma {:induction false} SweepOwnLinks(recs: seq<CallRecord>, legs: map<string, CallLeg>, links: LinkGroups)
    requires Grouped(links) && OwnLinks(recs)
    ensures var s := SweepAll(recs, legs, links); Grouped(s.links) && OwnLinks(s.swept)
  {
    if recs != [] {
      SweepOwnLinks(recs[..|recs| - 1], legs, links);
    }
  }

  lemma {:induction false} PassOwnLinks(c: Container, legsIn: seq<CallLeg>, linksIn: seq<CallLegLink>, looks: Looks, maxCall: int)
    requires c.Valid() && OwnLinks(c.data)
    ensures var p := RunPass(c, legsIn, linksIn, looks, maxCall);
            OwnLinks(p.container.data) && OwnLinks(p.emitted)
  {
    hide SweepAll, Select, Finished, AbsorbLegs, AbsorbLinks;
    var d := Absorbed(c, legsIn, linksIn);
    AbsorbLegsOwnLinks(c, legsIn);
    SweepOwnLinks(d.data, d.legs, d.links);
    var saveTime := d.maxLegTime - maxCall;
    SelectMembers(SweepAll(d.data, d.legs, d.links).swept, false, saveTime, looks, maxCall);
    SelectMembers(SweepAll(d.data, d.legs, d.links).swept, true, saveTime, looks, maxCall);
  }

  // ----- what leaves and what stays ----------------------------------------

  /** A pass emits exactly the swept records that both watermarks have passed and keeps
      the others; it keeps exactly the waiting legs that are not stale; and each waiting
      group stays or is dropped whole, by the age of its first link. */
  lemma {:induction false} PassIsSharp(c: Container, legsIn: seq<CallLeg>, linksIn: seq<CallLegLink>, looks: Looks, maxCall: int)
    requires c.Valid()
    ensures var d, p := Absorbed(c, legsIn, linksIn), RunPass(c, legsIn, linksIn, looks, maxCall);
            var s, saveTime := SweepAll(d.data, d.legs, d.links), p.container.maxLegTime - maxCall;
            && (forall r :: r in p.emitted <==> r in s.swept && Finished(r.startTime, saveTime, looks.AtRecord(r), maxCall))
            && (forall r :: r in p.container.data <==> r in s.swept && !Finished(r.startTime, saveTime, looks.AtRecord(r), maxCall))
            && (forall k :: k in p.container.legs <==> k in s.legs && !Finished(s.legs[k].time, saveTime, looks.AtLeg(k), maxCall))
            && (forall k | k in p.container.legs :: p.container.legs[k] == s.legs[k])
            && (forall k | k in s.links :: s.links[k] != []
                 && (if s.links[k][0].time < saveTime then k in p.dropped && k !in p.container.links && p.dropped[k] == s.links[k]
                     else k in p.container.links && k !in p.dropped && p.container.links[k] == s.links[k]))
            && p.container.links.Keys + p.dropped.Keys == s.links.Keys
  {
    hide SweepAll, Select, Absorbed, Finished;
    var d := Absorbed(c, legsIn, linksIn);
    var saveTime := d.maxLegTime - maxCall;
    SweepValid(d.data, d.legs, d.links);
    SelectMembers(SweepAll(d.data, d.legs, d.links).swept, false, saveTime, looks, maxCall);
    SelectMembers(SweepAll(d.data, d.legs, d.links).swept, true, saveTime, looks, maxCall);
  }

  /** What the pass saw of the clock when it came to the record. */
  ghost predicate SawAtRecord(looks: Looks, r: CallRecord, clock: int) {
    if r in looks.records then clock == looks.records[r] else clock == looks.clock
  }

  ghost predicate SawAtLeg(looks: Looks, k: string, clock: int) {
    if k in looks.legs then clock == looks.legs[k] else clock == looks.clock
  }

  /** The same in stamps. A record leaves, a leg is evicted, if and only if both the newest leg
      less `maxCall` and the clock less `maxCall` are later than its start; a group is dropped
      if and only if its first link starts before the newest leg less `maxCall`. */
  lemma {:induction false} PassIsDue(c: Container, legsIn: seq<CallLeg>, linksIn: seq<CallLegLink>, looks: Looks, maxCall: int)
    requires c.Valid()
    ensures var d, p := Absorbed(c, legsIn, linksIn), RunPass(c, legsIn, linksIn, looks, maxCall);
            var s, newest := SweepAll(d.data, d.legs, d.links), p.container.maxLegTime;
            && (forall r, t | r in p.emitted && SawAtRecord(looks, r, t) :: r.startTime + maxCall < newest && r.startTime + maxCall < t)
            && (forall r, t | r in p.container.data && SawAtRecord(looks, r, t) :: r.startTime + maxCall >= newest || r.startTime + maxCall >= t)
            && (forall r :: r in s.swept <==> r in p.emitted || r in p.container.data)
            && (forall k, t | k in s.legs && SawAtLeg(looks, k, t) ::
                  k in p.container.legs <==> s.legs[k].time + maxCall >= newest || s.legs[k].time + maxCall >= t)
            && (forall k | k in p.container.legs :: k in s.legs && p.container.legs[k] == s.legs[k])
            && (forall k | k in p.container.links :: p.container.links[k][0].time + maxCall >= newest)
            && (forall k | k in p.dropped :: p.dropped[k] != [] && p.dropped[k][0].time + maxCall < newest)
  {
    hide SweepAll, Select, Absorbed;
    var d := Absorbed(c, legsIn, linksIn);
    var saveTime := d.maxLegTime - maxCall;
    SweepValid(d.data, d.legs, d.links);
    SelectMembers(SweepAll(d.data, d.legs, d.links).swept, false, saveTime, looks, maxCall);
    SelectMembers(SweepAll(d.data, d.legs, d.links).swept, true, saveTime, looks, maxCall);
  }

  // ----- watermarks ---------------------------------------------------------

  lemma {:induction false} AbsorbLegsMax(c: Container, legs: seq<CallLeg>)
    requires c.Valid()
    ensures var m := AbsorbLegs(c, legs).maxLegTime;
            && c.maxLegTime <= m
            && (forall g | g in legs :: g.time <= m)
            && (m == c.maxLegTime || exists g :: g in legs && g.time == m)
  {
    if legs != [] {
      var n := |legs| - 1;
      AbsorbLegsMax(c, legs[..n]);
      assert legs == legs[..n] + [legs[n]];
    }
  }

  lemma {:induction false} AbsorbLinksMax(c: Container, links: seq<CallLegLink>)
    requires c.Valid()
    ensures var m := AbsorbLinks(c, links).maxLinkTime;
            && c.maxLinkTime <= m
            && (forall l | l in links :: l.time <= m)
            && (m == c.maxLinkTime || exists l :: l in links && l.time == m)
  {
    if links != [] {
      var n := |links| - 1;
      AbsorbLinksMax(c, links[..n]);
      assert links == links[..n] + [links[n]];
    }
  }

  /** The two maxima after a pass are the maxima over everything dequeued so far. */
  lemma {:induction false} PassMaxima(c: Container, legsIn: seq<CallLeg>, linksIn: seq<CallLegLink>, looks: Looks, maxCall: int)
    requires c.Valid()
    ensures var q := RunPass(c, legsIn, linksIn, looks, maxCall).container;
            && c.maxLegTime <= q.maxLegTime && c.maxLinkTime <= q.maxLinkTime
            && (forall g | g in legsIn :: g.time <= q.maxLegTime)
            && (q.maxLegTime == c.maxLegTime || exists g :: g in legsIn && g.time == q.maxLegTime)
            && (forall l | l in linksIn :: l.time <= q.maxLinkTime)
            && (q.maxLinkTime == c.maxLinkTime || exists l :: l in linksIn && l.time == q.maxLinkTime)
  {
    AbsorbLegsMax(c, legsIn);
    AbsorbLinksMax(AbsorbLegs(c, legsIn), linksIn);
  }

  // ----- calls with distinct originating ids --------------------------------

  ghost predicate DistinctOrigs(recs: seq<CallRecord>) {
    forall i, j | 0 <= i < j < |recs| :: recs[i].orig != recs[j].orig
  }

  function Origs(recs: seq<CallRecord>): set<string> {
    set r | r in recs :: r.orig
  }

  /** Every swept record has the whole group that waited for it, and the groups of
      all other calls still wait. */
  ghost predicate Collected(s: Sweep, recs: seq<CallRecord>, links: LinkGroups) {
    && |s.swept| == |recs|
    && s.links == links - Origs(recs)
    && forall i | 0 <= i < |recs| ::
         s.swept[i] == recs[i].(links := Attached(recs[i], links), legs := s.swept[i].legs)
  }

  lemma {:induction false} CollectOne(p: Sweep, front: seq<CallRecord>, rec: CallRecord, links: LinkGroups)
    requires Collected(p, front, links) && rec.orig !in Origs(front)
    ensures Collected(SweepOne(p, rec), front + [rec], links)
  {
    hide AttachLegs;
    var recs := front + [rec];
    assert Origs(recs) == Origs(front) + {rec.orig};
    assert Group(p.links, rec.orig) == Group(links, rec.orig);
  }

  lemma {:induction false} SweepCollects(recs: seq<CallRecord>, legs: map<string, CallLeg>, links: LinkGroups)
    requires DistinctOrigs(recs)
    ensures Collected(SweepAll(recs, legs, links), recs, links)
  {
    if recs != [] {
      var n := |recs| - 1;
      SweepCollects(recs[..n], legs, links);
      assert recs == recs[..n] + [recs[n]];
      hide Collected, SweepOne;
      CollectOne(SweepAll(recs[..n], legs, links), recs[..n], recs[n], links);
    }
  }

  lemma {:induction false} SelectDistinct(recs: seq<CallRecord>, done: bool, saveTime: int, looks: Looks, maxCall: int)
    requires DistinctOrigs(recs)
    ensures DistinctOrigs(Select(recs, done, saveTime, looks, maxCall))
  {
    if recs != [] {
      var n := |recs| - 1;
      SelectDistinct(recs[..n], done, saveTime, looks, maxCall);
      SelectMembers(recs[..n], done, saveTime, looks, maxCall);
      assert forall i | 0 <= i < n :: recs[i].orig != recs[n].orig;
    }
  }

  // ----- terminating legs ----------------------------------------------------

  /** The legs in `waiting` that `links` name. */
  function Named(links: seq<CallLegLink>, waiting: map<string, CallLeg>): map<string, CallLeg> {
    map k | k in waiting && k in Terms(links) :: waiting[k]
  }

  lemma {:induction false} NamedNone(waiting: map<string, CallLeg>)
    ensures Named([], waiting) == map[]
  {
  }

  lemma {:induction false} NamedSnoc(front: seq<CallLegLink>, last: CallLegLink, waiting: map<string, CallLeg>)
    ensures var term := last.body.uniqueidTerm;
            Named(front + [last], waiting)
            == if term in waiting && term !in Terms(front)
               then Named(front, waiting)[term := waiting[term]] else Named(front, waiting)
  {
    assert forall l :: l in front + [last] <==> l in front || l == last;
    assert Terms(front + [last]) == Terms(front) + {last.body.uniqueidTerm};
  }

  lemma {:induction false} AttachLegsTakes(links: seq<CallLegLink>, own: map<string, CallLeg>, waiting: map<string, CallLeg>)
    requires Keyed(waiting)
    ensures AttachLegs(links, own, waiting).0 == own + Named(links, waiting)
  {
    hide Named, Terms;
    if links == [] {
      NamedNone(waiting);
    } else {
      var n := |links| - 1;
      AttachLegsTakes(links[..n], own, waiting);
      AttachLegsWaiting(links[..n], own, waiting);
      assert links == links[..n] + [links[n]];
      NamedSnoc(links[..n], links[n], waiting);
      var pair := AttachLegs(links[..n], own, waiting);
      assert AttachLegs(links, own, waiting) == AttachLeg(links[n], pair.0, pair.1);
      hide AttachLegs;
      var term, taken, left := links[n].body.uniqueidTerm, Named(links[..n], waiting), waiting - Terms(links[..n]);
      assert term in left <==> term in waiting && term !in Terms(links[..n]);
      if term in left {
        assert (own + taken)[term := waiting[term]] == own + taken[term := waiting[term]];
      }
    }
  }

  /** The ids that the links of some record name. */
  function Claimed(recs: seq<CallRecord>, links: LinkGroups): set<string> {
    if recs == [] then {}
    else Claimed(recs[..|recs| - 1], links) + Terms(Attached(recs[|recs| - 1], links))
  }

  lemma {:induction false} ClaimedMember(recs: seq<CallRecord>, links: LinkGroups, k: string)
    ensures k in Claimed(recs, links) <==> exists i :: 0 <= i < |recs| && k in Terms(Attached(recs[i], links))
  {
    if recs != [] {
      ClaimedMember(recs[..|recs| - 1], links, k);
    }
  }

  /** What the sweep leaves waiting: the legs that no record's links name. */
  lemma {:induction false} SweepLeaves(recs: seq<CallRecord>, legs: map<string, CallLeg>, links: LinkGroups)
    requires DistinctOrigs(recs)
    ensures SweepAll(recs, legs, links).legs == legs - Claimed(recs, links)
  {
    if recs != [] {
      var n := |recs| - 1;
      var front, rec := recs[..n], recs[n];
      assert recs == front + [rec] && rec.orig !in Origs(front);
      SweepLeaves(front, legs, links);
      SweepCollects(front, legs, links);
      var p := SweepAll(front, legs, links);
      AttachLegsWaiting(Attached(rec, p.links), rec.legs, p.legs);
      assert Group(p.links, rec.orig) == Group(links, rec.orig);
    }
  }

  /** Sweeping on leaves the records alone that have been swept. */
  lemma {:induction false} SweepGoesOn(recs: seq<CallRecord>, n: nat, legs: map<string, CallLeg>, links: LinkGroups)
    requires n <= |recs|
    ensures SweepAll(recs[..n], legs, links).swept == SweepAll(recs, legs, links).swept[..n]
  {
    if n < |recs| {
      var front := recs[..|recs| - 1];
      SweepGoesOn(front, n, legs, links);
      assert front[..n] == recs[..n];
    } else {
      assert recs[..n] == recs;
    }
  }

  /** No leg that waits is named by the `i`-th record and by another one. */
  ghost predicate OnlyClaim(recs: seq<CallRecord>, i: nat, legs: map<string, CallLeg>, links: LinkGroups)
    requires i < |recs|
  {
    forall j | 0 <= j < |recs| && j != i ::
      forall k | k in Terms(Attached(recs[i], links)) && k in Terms(Attached(recs[j], links)) :: k !in legs
  }

  lemma {:induction false} Unclaimed(recs: seq<CallRecord>, i: nat, legs: map<string, CallLeg>, links: LinkGroups)
    requires i < |recs| && OnlyClaim(recs, i, legs, links)
    ensures Named(Attached(recs[i], links), legs - Claimed(recs[..i], links)) == Named(Attached(recs[i], links), legs)
  {
    forall k | k in Claimed(recs[..i], links) && k in Terms(Attached(recs[i], links)) ensures k !in legs {
      ClaimedMember(recs[..i], links, k);
      var j :| 0 <= j < i && k in Terms(Attached(recs[..i][j], links));
      assert recs[..i][j] == recs[j];
    }
  }

  /** Records are served in order: each takes the waiting legs that its links name, but for those
      that an earlier record's links name. */
  lemma {:induction false} FirstClaimTakes(recs: seq<CallRecord>, i: nat, legs: map<string, CallLeg>, links: LinkGroups)
    requires Keyed(legs) && DistinctOrigs(recs) && i < |recs|
    ensures SweepAll(recs, legs, links).swept[i].legs
            == recs[i].legs + Named(Attached(recs[i], links), legs - Claimed(recs[..i], links))
  {
    hide Claimed, Named, Collected;
    var front, rec := recs[..i], recs[i];
    var p := SweepAll(front, legs, links);
    assert recs[..i + 1][..i] == front;
    FrontIsDistinct(recs, i);
    SweepLeaves(front, legs, links);
    assert Group(p.links, rec.orig) == Group(links, rec.orig) by {
      GroupIsLeft(recs, i, legs, links);
    }
    AttachLegsTakes(Attached(rec, links), rec.legs, p.legs);
    SweepGoesOn(recs, i + 1, legs, links);
    assert SweepAll(recs, legs, links).swept[i] == SweepOne(p, rec).swept[i];
  }

  /** The first record takes all waiting legs that its links name. */
  lemma {:induction false} FirstTakesAll(recs: seq<CallRecord>, legs: map<string, CallLeg>, links: LinkGroups)
    requires Keyed(legs) && DistinctOrigs(recs) && recs != []
    ensures var attached := Attached(recs[0], links);
            SweepAll(recs, legs, links).swept[0] == recs[0].(links := attached, legs := recs[0].legs + Named(attached, legs))
  {
    hide SweepAll, Named, DistinctOrigs, Attached;
    FirstClaimTakes(recs, 0, legs, links);
    SweepCollects(recs, legs, links);
    assert recs[..0] == [] && legs - Claimed([], links) == legs;
  }

  /** A record whose legs no other record claims takes all waiting legs that its links name. */
  lemma {:induction false} OnlyClaimTakes(recs: seq<CallRecord>, i: nat, legs: map<string, CallLeg>, links: LinkGroups)
    requires Keyed(legs) && DistinctOrigs(recs) && i < |recs| && OnlyClaim(recs, i, legs, links)
    ensures SweepAll(recs, legs, links).swept[i].legs == recs[i].legs + Named(Attached(recs[i], links), legs)
  {
    hide OnlyClaim, Claimed, Named, SweepAll, DistinctOrigs, Attached;
    FirstClaimTakes(recs, i, legs, links);
    Unclaimed(recs, i, legs, links);
  }

  lemma {:induction false} FrontIsDistinct(recs: seq<CallRecord>, i: nat)
    requires DistinctOrigs(recs) && i < |recs|
    ensures DistinctOrigs(recs[..i]) && recs[i].orig !in Origs(recs[..i])
  {
  }

  lemma {:induction false} GroupIsLeft(recs: seq<CallRecord>, i: nat, legs: map<string, CallLeg>, links: LinkGroups)
    requires DistinctOrigs(recs) && i < |recs|
    ensures Group(SweepAll(recs[..i], legs, links).links, recs[i].orig) == Group(links, recs[i].orig)
  {
    FrontIsDistinct(recs, i);
    SweepCollects(recs[..i], legs, links);
    hide DistinctOrigs;
  }

  /** Every swept record has taken the waiting legs that its links name and that no earlier
      one's do; what no record's links name still waits. */
  ghost predicate Took(s: Sweep, recs: seq<CallRecord>, legs: map<string, CallLeg>, links: LinkGroups) {
    && |s.swept| == |recs|
    && s.legs == legs - Claimed(recs, links)
    && forall i | 0 <= i < |recs| ::
         s.swept[i].legs == recs[i].legs + Named(Attached(recs[i], links), legs - Claimed(recs[..i], links))
  }

  lemma {:induction false} SweepTakes(recs: seq<CallRecord>, legs: map<string, CallLeg>, links: LinkGroups)
    requires Keyed(legs) && DistinctOrigs(recs)
    ensures Took(SweepAll(recs, legs, links), recs, legs, links)
  {
    hide SweepAll, Named, Claimed, DistinctOrigs, Attached;
    SweepLeaves(recs, legs, links);
    forall i | 0 <= i < |recs|
      ensures SweepAll(recs, legs, links).swept[i].legs == recs[i].legs + Named(Attached(recs[i], links), legs - Claimed(recs[..i], links))
    {
      FirstClaimTakes(recs, i, legs, links);
    }
  }
}
