/** Legs that an emitted record lacks: for each assumption of leg completeness a reachable
    state that shows what happens without it. */
module LostLegs {
  import opened Common
  import opened Rows
  import opened Readers
  import opened MergeContainers
  import opened ContainerLaws
  import opened Pipeline
  import opened Records
  import opened LinkCompleteness
  import opened LegInvariant
  import opened LegCompleteness
  import opened Scenarios
  import opened PostProcess
  import opened MainLegs

  /** A timely call of a reachable state is timely throughout a run that leads there. */
  lemma {:induction false} ReachedInTime(cfg: Config, s: State, c: string) returns (run: seq<State>, steps: seq<Step>)
    requires cfg.Valid() && Reachable(cfg, s) && LegsTimely(cfg, s, c)
    ensures LegsTimelyRun(cfg, run, steps, c) && run[|steps|] == s
  {
    hide Init, Next, UniqueLegs;
    run, steps :| IsRun(cfg, run, steps) && run[|steps|] == s && Still(run, s);
    forall j | 0 <= j < |run| ensures LegsTimely(cfg, run[j], c) {
      SameRows(cfg, s, run[j], c);
    }
  }

  lemma {:induction false} SameRows(cfg: Config, s: State, t: State, c: string)
    requires LegsTimely(cfg, s, c) && t.legTable == s.legTable && t.linkTable == s.linkTable
    ensures LegsTimely(cfg, t, c)
  {
    hide UniqueLegs;
    assert forall l, x :: NamesLeg(t, l, x) <==> NamesLeg(s, l, x);
    assert forall g, l, x :: Names(t, g, l, x) <==> Names(s, g, l, x);
  }

  // ----- legs that are not in order -----------------------------------------------------

  /** A terminating leg whose id is above that of a newer originating leg. */
  function LateLeg(): CallLeg {
    Row(3, 0, 3, Leg("b", false, "", ""))
  }

  function NamingLink(): CallLegLink {
    LinkTo(1, 2, "a", "b")
  }

  function DisorderStart(): State {
    Fresh(TwoSeconds(), {OrigLeg(1, 1, "a"), OrigLeg(2, 4, "c"), LateLeg(), OrigLeg(4, 5, "d")}, {NamingLink(), LinkTo(2, 7, "z", "")})
  }

  lemma {:induction false} DisorderBegins() returns (s: State)
    ensures Reachable(TwoSeconds(), s) && s.container == NoCalls(0) && s.outbox == [] && s.emitted == []
    ensures s.legQueue == [OrigLeg(1, 1, "a"), OrigLeg(2, 4, "c")] && s.linkQueue == [NamingLink()] && s.linkReader.startTime == 4
    ensures s.legTable == DisorderStart().legTable && s.linkTable == DisorderStart().linkTable
  {
    hide Reachable, Reads;
    var cfg, a, c := TwoSeconds(), OrigLeg(1, 1, "a"), OrigLeg(2, 4, "c");
    s := DisorderStart();
    InitReachable(cfg, s);
    assert OrigLeg(4, 5, "d") in s.legTable && LinkTo(2, 7, "z", "") in s.linkTable;
    s := LegRow(cfg, s, a);
    var r := s.legReader;
    HalfWindow(cfg, s.legTable, s.now, r, [a], c, LateLeg());
    var r' := r.(phase := Pushing([c, LateLeg()], 1, 0), sent := r.sent + [c]);
    assert s.legQueue == [a];
    LegReads(cfg, s, 3, r', [a] + [c]);
    s := s.(legReader := r', legQueue := [a] + [c]);
    s := LinkRow(cfg, s, NamingLink());
    s := LinkEmpty(cfg, s);
  }

  /** A pass over two originating legs and a link of the first. */
  lemma {:induction false} TwoLegsPass(l: CallLegLink)
    requires l.body.uniqueidOrig == "a" && l.time == 2
    ensures var g, c := OrigLeg(1, 1, "a"), OrigLeg(2, 4, "c");
            CallRecord("a", 1, map["a" := g], [l]) in RunPass(NoCalls(0), [g, c], [l], Steady(4), 2).emitted
  {
    hide AbsorbLegs, SweepAll, Select, FreshLegs, FreshLinks, StaleLinks;
    var g, c := OrigLeg(1, 1, "a"), OrigLeg(2, 4, "c");
    AbsorbTwo(g, c, 0);
    var d := Absorbed(NoCalls(0), [g, c], [l]);
    var e := AbsorbLegs(NoCalls(0), [g, c]);
    assert AbsorbLinks(e, [l]) == AbsorbLink(AbsorbLinks(e, []), l) by {
      assert [l][..0] == [];
    }
    assert Group(e.links, "a") + [l] == [l] && map[]["a" := [l]] == map["a" := [l]];
    assert d.links == map["a" := [l]];
    assert d == Container([Open(g), Open(c)], map[], map["a" := [l]], 4, 2);
    hide Absorbed, AbsorbLinks, Named;
    FourNames();
    FirstTakesAll(d.data, d.legs, d.links);
    NothingLeft(map[], {}, [l]);
    var s := SweepAll(d.data, d.legs, d.links);
    SelectMembers(s.swept, true, 2, Steady(4), 2);
    assert Attached(d.data[0], d.links) == [l] && d.data[0].legs + map[] == d.data[0].legs;
    assert s.swept[0] == CallRecord("a", 1, map["a" := g], [l]) && s.swept[0] in s.swept;
  }

  lemma {:induction false} DisorderIsUnique()
    ensures UniqueLegs(DisorderStart().legTable)
  {
    assert "a"[0] != "b"[0] && "b"[0] != "c"[0] && "c"[0] != "d"[0];
    assert "a" != "b" && "a" != "c" && "a" != "d" && "b" != "c" && "b" != "d" && "c" != "d";
  }

  /** The only link of a call, and the only leg that it names. */
  lemma {:induction false} DisorderPairs(m: CallLegLink, x: CallLeg)
    requires m in DisorderStart().linkTable && x in DisorderStart().legTable
    ensures x.body.orig && m.body.uniqueidOrig == x.body.uniqueid ==> m == NamingLink() && x == OrigLeg(1, 1, "a")
    ensures !x.body.orig && m.body.uniqueidTerm == x.body.uniqueid ==> m == NamingLink() && x == LateLeg()
  {
    assert "b" != "" && "z" != "a" && "z" != "c" && "z" != "d" && "a" != "c" && "a" != "d";
  }

  lemma {:induction false} DisorderIsTimely(s: State)
    requires s.legTable == DisorderStart().legTable && s.linkTable == DisorderStart().linkTable
    ensures forall c :: LegsTimely(TwoSeconds(), s, c) && LegsSoon(TwoSeconds(), s, c)
  {
    DisorderIsUnique();
    hide UniqueLegs, DisorderStart;
    forall m, x | m in s.linkTable && x in s.legTable
      ensures x.body.orig && m.body.uniqueidOrig == x.body.uniqueid ==> m == NamingLink() && x == OrigLeg(1, 1, "a")
      ensures !x.body.orig && m.body.uniqueidTerm == x.body.uniqueid ==> m == NamingLink() && x == LateLeg()
    {
      DisorderPairs(m, x);
    }
  }

  lemma {:induction false} DisorderIsSeen(s: State, rec: CallRecord)
    requires s.legTable == DisorderStart().legTable && s.linkTable == DisorderStart().linkTable
    requires rec == CallRecord("a", 1, map["a" := OrigLeg(1, 1, "a")], [NamingLink()])
    ensures !HoldsAllLegs(s, rec)
  {
    assert Names(s, rec.legs["a"], NamingLink(), LateLeg());
  }

  /** A reachable state in which an emitted record lacks a leg that its link names: all
      calls are timely in every way, but the ids of the legs do not follow their start times, so
      that the named leg is dequeued after the record has left. */
  lemma {:induction false} DisorderLosesLeg() returns (s: State, rec: CallRecord)
    ensures Reachable(TwoSeconds(), s) && forall c :: LegsTimely(TwoSeconds(), s, c) && LegsSoon(TwoSeconds(), s, c)
    ensures rec in s.emitted && !HoldsAllLegs(s, rec)
  {
    hide Reachable, RunPass, HoldsAllLegs, LegsTimely, LegsSoon;
    var cfg := TwoSeconds();
    var b := DisorderBegins();
    assert b.legQueue[..2] == b.legQueue && b.linkQueue[..1] == b.linkQueue;
    s := Merge(cfg, b);
    StepReachable(cfg, b, s, MergeStep);
    TwoLegsPass(NamingLink());
    rec := CallRecord("a", 1, map["a" := OrigLeg(1, 1, "a")], [NamingLink()]);
    assert rec in s.emitted;
    hide Merge;
    DisorderIsTimely(s);
    DisorderIsSeen(s, rec);
  }

  // ----- links that name originating legs ----------------------------------------------------

  function CrossLink(): CallLegLink {
    LinkTo(1, 2, "a", "c")
  }

  function CrossStart(): State {
    Fresh(TwoSeconds(), {OrigLeg(1, 1, "a"), OrigLeg(2, 4, "c"), OrigLeg(4, 5, "d")}, {CrossLink(), LinkTo(2, 7, "z", "")})
  }

  lemma {:induction false} CrossBegins() returns (s: State)
    ensures Reachable(TwoSeconds(), s) && s.container == NoCalls(0) && s.outbox == [] && s.emitted == []
    ensures s.legQueue == [OrigLeg(1, 1, "a"), OrigLeg(2, 4, "c")] && s.linkQueue == [CrossLink()] && s.linkReader.startTime == 4
    ensures s.legTable == CrossStart().legTable && s.linkTable == CrossStart().linkTable
  {
    hide Reachable;
    var cfg := TwoSeconds();
    s := CrossStart();
    InitReachable(cfg, s);
    assert OrigLeg(4, 5, "d") in s.legTable && LinkTo(2, 7, "z", "") in s.linkTable;
    s := LegRow(cfg, s, OrigLeg(1, 1, "a"));
    s := LegRow(cfg, s, OrigLeg(2, 4, "c"));
    s := LinkRow(cfg, s, CrossLink());
    s := LinkEmpty(cfg, s);
  }

  /** A reachable state in which a link of an emitted record names a leg that the record
      does not hold, because that leg is itself an originating one. */
  lemma {:induction false} OrigLegIsNotHeld() returns (s: State, rec: CallRecord, l: CallLegLink, x: CallLeg)
    ensures Reachable(TwoSeconds(), s) && rec in s.emitted && l in rec.links && l in s.linkTable && x in s.legTable && x in s.legSeen
    ensures l.body.uniqueidTerm == x.body.uniqueid && x.body.uniqueid !in rec.legs && x.body.orig
  {
    hide Reachable, RunPass;
    var cfg := TwoSeconds();
    var b := CrossBegins();
    assert b.legQueue[..2] == b.legQueue && b.linkQueue[..1] == b.linkQueue;
    s := Merge(cfg, b);
    StepReachable(cfg, b, s, MergeStep);
    l, x := CrossLink(), OrigLeg(2, 4, "c");
    TwoLegsPass(l);
    rec := CallRecord("a", 1, map["a" := OrigLeg(1, 1, "a")], [l]);
    assert rec in s.emitted;
    assert "a"[0] != "c"[0];
  }

  // ----- two legs with one id ---------------------------------------------------------------

  /** A terminating leg with the id of the originating leg of a call. */
  function DoubleLeg(): CallLeg {
    Row(2, 0, 3, Leg("a", false, "", ""))
  }

  function SelfLink(): CallLegLink {
    LinkTo(1, 2, "a", "a")
  }

  function DoubleStart(): State {
    Fresh(TwoSeconds(), {OrigLeg(1, 1, "a"), DoubleLeg(), OrigLeg(3, 5, "c"), OrigLeg(4, 7, "d")}, {SelfLink(), LinkTo(2, 7, "z", "")})
  }

  lemma {:induction false} DoubleBegins() returns (s: State)
    ensures Reachable(TwoSeconds(), s) && s.container == NoCalls(0) && s.outbox == [] && s.emitted == []
    ensures s.legQueue == [OrigLeg(1, 1, "a"), DoubleLeg(), OrigLeg(3, 5, "c")] && s.linkQueue == [SelfLink()] && s.linkReader.startTime == 4
  {
    hide Reachable;
    var cfg := TwoSeconds();
    s := DoubleStart();
    InitReachable(cfg, s);
    assert OrigLeg(4, 7, "d") in s.legTable && LinkTo(2, 7, "z", "") in s.linkTable;
    s := LegRow(cfg, s, OrigLeg(1, 1, "a"));
    s := LegRow(cfg, s, DoubleLeg());
    s := LegRow(cfg, s, OrigLeg(3, 5, "c"));
    s := LinkRow(cfg, s, SelfLink());
    s := LinkEmpty(cfg, s);
  }

  lemma {:induction false} DoubleAbsorbed()
    ensures var g, x, c := OrigLeg(1, 1, "a"), DoubleLeg(), OrigLeg(3, 5, "c");
            AbsorbLegs(NoCalls(0), [g, x, c]) == Container([Open(g), Open(c)], map["a" := x], map[], 5, 0)
  {
    var g, x, c := OrigLeg(1, 1, "a"), DoubleLeg(), OrigLeg(3, 5, "c");
    AbsorbOne(g, 0);
    assert [g, x, c][..2] == [g, x] && [g, x][..1] == [g];
    assert AbsorbLegs(NoCalls(0), [g, x]) == AbsorbLeg(AbsorbLegs(NoCalls(0), [g]), x);
  }

  lemma {:induction false} DoubleSwept(recs: seq<CallRecord>)
    requires recs == [Open(OrigLeg(1, 1, "a")), Open(OrigLeg(3, 5, "c"))]
    ensures SweepAll(recs, map["a" := DoubleLeg()], map["a" := [SelfLink()]]).swept[0] == CallRecord("a", 1, map["a" := DoubleLeg()], [SelfLink()])
  {
    hide SweepAll, Named;
    var legs, links := map["a" := DoubleLeg()], map["a" := [SelfLink()]];
    assert "a" != "c" by { FourNames(); }
    FirstTakesAll(recs, legs, links);
    assert Attached(recs[0], links) == [SelfLink()];
    assert Named([SelfLink()], legs) == legs by { SelfNames(legs); }
    assert recs[0].legs + legs == legs;
  }

  lemma {:induction false} SelfNames(legs: map<string, CallLeg>)
    requires legs.Keys == {"a"}
    ensures Named([SelfLink()], legs) == legs
  {
    assert SelfLink() in [SelfLink()];
  }

  lemma {:induction false} DoublePass()
    ensures var g, x, c, l := OrigLeg(1, 1, "a"), DoubleLeg(), OrigLeg(3, 5, "c"), SelfLink();
            CallRecord("a", 1, map["a" := x], [l]) in RunPass(NoCalls(0), [g, x, c], [l], Steady(4), 2).emitted
  {
    hide AbsorbLegs, SweepAll, Select, FreshLegs, FreshLinks, StaleLinks;
    var g, x, c, l := OrigLeg(1, 1, "a"), DoubleLeg(), OrigLeg(3, 5, "c"), SelfLink();
    DoubleAbsorbed();
    var e := AbsorbLegs(NoCalls(0), [g, x, c]);
    assert AbsorbLinks(e, [l]) == AbsorbLink(AbsorbLinks(e, []), l) by {
      assert [l][..0] == [];
    }
    var d := Absorbed(NoCalls(0), [g, x, c], [l]);
    assert Group(e.links, "a") + [l] == [l] && d.links == map["a" := [l]];
    DoubleSwept(d.data);
    var s := SweepAll(d.data, d.legs, d.links);
    SelectMembers(s.swept, true, 3, Steady(4), 2);
    assert s.swept[0] in s.swept;
  }

  /** A reachable state in which an emitted record has lost its originating leg to another
      leg with the same id, so that its report is left without a main leg. */
  lemma {:induction false} OrigLegIsOverwritten() returns (s: State, rec: CallRecord)
    ensures Reachable(TwoSeconds(), s) && rec in s.emitted
    ensures rec.orig in rec.legs && !rec.legs[rec.orig].body.orig && MainLeg(rec.legs, KeyOrder(rec.legs.Keys), None) == None
  {
    hide Reachable, RunPass, MainLeg;
    var cfg := TwoSeconds();
    var b := DoubleBegins();
    assert b.legQueue[..3] == b.legQueue && b.linkQueue[..1] == b.linkQueue;
    s := Merge(cfg, b);
    StepReachable(cfg, b, s, MergeStep);
    DoublePass();
    rec := CallRecord("a", 1, map["a" := DoubleLeg()], [SelfLink()]);
    assert rec in s.emitted && OnlyOrig(rec);
    MainLegOf(rec);
  }

  // ----- a leg that two calls name ----------------------------------------------------------

  /** A terminating leg that links of two calls name. */
  function SharedLeg(): CallLeg {
    Row(3, 0, 4, Leg("c", false, "", ""))
  }

  function SharedStart(): State {
    Fresh(TwoSeconds(), {OrigLeg(1, 2, "a"), OrigLeg(2, 3, "b"), SharedLeg(), OrigLeg(4, 6, "d"), OrigLeg(5, 8, "z")},
          {LinkTo(1, 2, "a", "c"), LinkTo(2, 3, "b", "c"), LinkTo(3, 8, "z", "")})
  }

  lemma {:induction false} SharedBegins() returns (s: State)
    ensures Reachable(TwoSeconds(), s) && s.container == NoCalls(0) && s.outbox == [] && s.emitted == []
    ensures s.legQueue == [OrigLeg(1, 2, "a"), OrigLeg(2, 3, "b"), SharedLeg(), OrigLeg(4, 6, "d")]
    ensures s.linkQueue == [LinkTo(1, 2, "a", "c"), LinkTo(2, 3, "b", "c")] && s.linkReader.startTime == 6
    ensures s.legTable == SharedStart().legTable && s.linkTable == SharedStart().linkTable
  {
    hide Reachable, Reads;
    var cfg, b, x := TwoSeconds(), OrigLeg(2, 3, "b"), SharedLeg();
    s := SharedStart();
    InitReachable(cfg, s);
    assert OrigLeg(5, 8, "z") in s.legTable && LinkTo(3, 8, "z", "") in s.linkTable;
    s := LegRow(cfg, s, OrigLeg(1, 2, "a"));
    s := LegRows(cfg, s, b, x);
    s := LegRow(cfg, s, OrigLeg(4, 6, "d"));
    s := LinkRow(cfg, s, LinkTo(1, 2, "a", "c"));
    s := LinkRow(cfg, s, LinkTo(2, 3, "b", "c"));
    s := LinkEmpty(cfg, s);
  }

  lemma {:induction false} SharedAbsorbed()
    ensures var a, b, x, e := OrigLeg(1, 2, "a"), OrigLeg(2, 3, "b"), SharedLeg(), OrigLeg(4, 6, "d");
            var l, m := LinkTo(1, 2, "a", "c"), LinkTo(2, 3, "b", "c");
            Absorbed(NoCalls(0), [a, b, x, e], [l, m])
            == Container([Open(a), Open(b), Open(e)], map["c" := x], map["a" := [l], "b" := [m]], 6, 3)
  {
    hide AbsorbLegs, AbsorbLinks;
    var a, b, x, e := OrigLeg(1, 2, "a"), OrigLeg(2, 3, "b"), SharedLeg(), OrigLeg(4, 6, "d");
    var l, m := LinkTo(1, 2, "a", "c"), LinkTo(2, 3, "b", "c");
    AbsorbTwo(a, b, 0);
    LegSnoc(NoCalls(0), [a, b], x);
    LegSnoc(NoCalls(0), [a, b, x], e);
    assert [a, b] + [x] == [a, b, x] && [a, b, x] + [e] == [a, b, x, e];
    assert [Open(a), Open(b)] + [Open(e)] == [Open(a), Open(b), Open(e)];
    var c := AbsorbLegs(NoCalls(0), [a, b, x, e]);
    assert c == Container([Open(a), Open(b), Open(e)], map["c" := x], map[], 6, 0);
    FourNames();
    LinkSnoc(c, [], l);
    LinkSnoc(c, [l], m);
    assert [] + [l] == [l] && [l] + [m] == [l, m];
    assert Group(c.links, "a") + [l] == [l] && c.links["a" := [l]] == map["a" := [l]];
    assert Group(map["a" := [l]], "b") + [m] == [m];
    assert map["a" := [l]]["b" := [m]] == map["a" := [l], "b" := [m]];
  }

  lemma {:induction false} LegSnoc(c: Container, legs: seq<CallLeg>, x: CallLeg)
    requires c.Valid()
    ensures AbsorbLegs(c, legs + [x]) == AbsorbLeg(AbsorbLegs(c, legs), x)
  {
    assert (legs + [x])[..|legs|] == legs;
  }

  lemma {:induction false} LinkSnoc(c: Container, links: seq<CallLegLink>, l: CallLegLink)
    requires c.Valid()
    ensures AbsorbLinks(c, links + [l]) == AbsorbLink(AbsorbLinks(c, links), l) && AbsorbLinks(c, []) == c
  {
    assert (links + [l])[..|links|] == links;
  }

  /** The record of the first call takes the leg, so that the second goes without. */
  lemma {:induction false} SharedSwept(recs: seq<CallRecord>, links: LinkGroups)
    requires recs == [Open(OrigLeg(1, 2, "a")), Open(OrigLeg(2, 3, "b")), Open(OrigLeg(4, 6, "d"))]
    requires links == map["a" := [LinkTo(1, 2, "a", "c")], "b" := [LinkTo(2, 3, "b", "c")]]
    ensures SweepAll(recs, map["c" := SharedLeg()], links).swept[1]
            == CallRecord("b", 3, map["b" := OrigLeg(2, 3, "b")], [LinkTo(2, 3, "b", "c")])
  {
    hide SweepAll, Claimed, Named;
    var legs, m := map["c" := SharedLeg()], LinkTo(2, 3, "b", "c");
    FourNames();
    SweepCollects(recs, legs, links);
    FirstClaimTakes(recs, 1, legs, links);
    FirstIsClaimed(recs, links);
    NothingLeft(legs, Claimed(recs[..1], links), [m]);
    assert Attached(recs[1], links) == [m] && recs[1].legs + map[] == recs[1].legs;
  }

  lemma {:induction false} FirstIsClaimed(recs: seq<CallRecord>, links: LinkGroups)
    requires |recs| > 0 && recs[0] == Open(OrigLeg(1, 2, "a")) && "a" in links && links["a"] == [LinkTo(1, 2, "a", "c")]
    ensures "c" in Claimed(recs[..1], links)
  {
    var l := LinkTo(1, 2, "a", "c");
    ClaimedMember(recs[..1], links, "c");
    assert recs[..1][0] == recs[0] && Attached(recs[0], links) == [l];
    assert l in [l];
  }

  lemma {:induction false} NothingLeft(legs: map<string, CallLeg>, claimed: set<string>, links: seq<CallLegLink>)
    requires legs.Keys <= claimed
    ensures legs - claimed == map[] && Named(links, map[]) == map[]
  {
  }

  lemma {:induction false} SharedPass()
    ensures var a, b, x, e := OrigLeg(1, 2, "a"), OrigLeg(2, 3, "b"), SharedLeg(), OrigLeg(4, 6, "d");
            var l, m := LinkTo(1, 2, "a", "c"), LinkTo(2, 3, "b", "c");
            CallRecord("b", 3, map["b" := b], [m]) in RunPass(NoCalls(0), [a, b, x, e], [l, m], Steady(6), 2).emitted
  {
    hide Absorbed, SweepAll, Select, FreshLegs, FreshLinks, StaleLinks;
    SharedAbsorbed();
    var d := Absorbed(NoCalls(0), [OrigLeg(1, 2, "a"), OrigLeg(2, 3, "b"), SharedLeg(), OrigLeg(4, 6, "d")],
                      [LinkTo(1, 2, "a", "c"), LinkTo(2, 3, "b", "c")]);
    SharedSwept(d.data, d.links);
    var w := SweepAll(d.data, d.legs, d.links);
    SelectMembers(w.swept, true, 4, Steady(6), 2);
    assert w.swept[1] in w.swept;
  }

  /** A reachable state in which a record lacks a leg that its link names because a link of
      another call names it too, and that call's record is older. All calls are timely, and
      the legs are in order. */
  lemma {:induction false} SharedLegIsLost() returns (s: State, rec: CallRecord)
    ensures Reachable(TwoSeconds(), s) && TimeFollowsId(s.legTable)
    ensures forall c :: CallTimely(TwoSeconds(), s, c) && LegsFollow(s, c) && LegsSoon(TwoSeconds(), s, c)
    ensures rec in s.emitted && !HoldsAllLegs(s, rec)
  {
    hide Reachable, RunPass, CallTimely, LegsFollow, LegsSoon, TimeFollowsId, HoldsAllLegs;
    var cfg := TwoSeconds();
    var b := SharedBegins();
    assert b.legQueue[..4] == b.legQueue && b.linkQueue[..2] == b.linkQueue;
    s := Merge(cfg, b);
    StepReachable(cfg, b, s, MergeStep);
    SharedPass();
    rec := CallRecord("b", 3, map["b" := OrigLeg(2, 3, "b")], [LinkTo(2, 3, "b", "c")]);
    assert rec in s.emitted;
    hide Merge;
    SharedIsTimely(s);
    SharedIsSeen(s, rec);
  }

  lemma {:induction false} SharedIsSeen(s: State, rec: CallRecord)
    requires s.legTable == SharedStart().legTable && s.linkTable == SharedStart().linkTable
    requires rec == CallRecord("b", 3, map["b" := OrigLeg(2, 3, "b")], [LinkTo(2, 3, "b", "c")])
    ensures !HoldsAllLegs(s, rec)
  {
    FourNames();
    assert Names(s, rec.legs["b"], LinkTo(2, 3, "b", "c"), SharedLeg());
  }

  lemma {:induction false} SharedIsTimely(s: State)
    requires s.legTable == SharedStart().legTable && s.linkTable == SharedStart().linkTable
    ensures TimeFollowsId(s.legTable)
    ensures forall c :: CallTimely(TwoSeconds(), s, c) && LegsFollow(s, c) && LegsSoon(TwoSeconds(), s, c)
  {
    SharedIsUnique();
    SharedIsOrdered();
    hide UniqueLegs, TimeFollowsId, SharedStart;
    forall m, x | m in s.linkTable && x in s.legTable
      ensures x.body.orig && m.body.uniqueidOrig == x.body.uniqueid ==> x.time == m.time
      ensures !x.body.orig && m.body.uniqueidTerm == x.body.uniqueid ==> x.time == 4 && 2 <= m.time <= 3
    {
      SharedPairs(m, x);
    }
  }

  lemma {:induction false} SharedIsUnique()
    ensures UniqueLegs(SharedStart().legTable)
  {
    FourNames();
    assert "z"[0] != "a"[0] && "z"[0] != "b"[0] && "z"[0] != "c"[0] && "z"[0] != "d"[0];
  }

  lemma {:induction false} SharedIsOrdered()
    ensures TimeFollowsId(SharedStart().legTable)
  {
  }

  lemma {:induction false} SharedPairs(m: CallLegLink, x: CallLeg)
    requires m in SharedStart().linkTable && x in SharedStart().legTable
    ensures x.body.orig && m.body.uniqueidOrig == x.body.uniqueid ==> x.time == m.time
    ensures !x.body.orig && m.body.uniqueidTerm == x.body.uniqueid ==> x.time == 4 && 2 <= m.time <= 3
  {
    FourNames();
    assert "c" != "" && "z"[0] != "a"[0] && "z"[0] != "b"[0] && "z"[0] != "d"[0];
  }

  // ----- a leg that starts before its call ----------------------------------------------------

  function EarlyLeg(): CallLeg {
    Row(1, 0, 1, Leg("c", false, "", ""))
  }

  function EarlyLegStart(): State {
    Fresh(TwoSeconds(), {EarlyLeg(), OrigLeg(2, 2, "a"), OrigLeg(3, 4, "b"), OrigLeg(4, 6, "d"), OrigLeg(5, 8, "z")},
          {LinkTo(1, 5, "a", "c"), LinkTo(2, 8, "z", "")})
  }

  lemma {:induction false} EarlyLegBegins() returns (s: State)
    ensures Reachable(TwoSeconds(), s) && s.container == NoCalls(0) && s.outbox == [] && s.emitted == []
    ensures s.legQueue == [EarlyLeg(), OrigLeg(2, 2, "a"), OrigLeg(3, 4, "b")] && s.linkQueue == []
    ensures s.legTable == EarlyLegStart().legTable && s.linkTable == EarlyLegStart().linkTable && s.now == 100 && s.online == {}
    ensures s.legReader.phase == Waiting && s.legReader.startTime == 4 && s.legReader.stopTime == 6 && !s.legReader.paused
    ensures s.linkReader.phase == Waiting && s.linkReader.startTime == 4 && s.linkReader.stopTime == 6 && !s.linkReader.paused
  {
    hide Reachable, Reads;
    var cfg, x, g := TwoSeconds(), EarlyLeg(), OrigLeg(2, 2, "a");
    s := EarlyLegStart();
    InitReachable(cfg, s);
    assert OrigLeg(5, 8, "z") in s.legTable && LinkTo(2, 8, "z", "") in s.linkTable;
    s := LegRows(cfg, s, x, g);
    s := LegRow(cfg, s, OrigLeg(3, 4, "b"));
    s := LinkEmpty(cfg, s);
    s := LinkEmpty(cfg, s);
  }

  lemma {:induction false} EarlyLegAbsorbed()
    ensures var x, g, h := EarlyLeg(), OrigLeg(2, 2, "a"), OrigLeg(3, 4, "b");
            Absorbed(NoCalls(0), [x, g, h], []) == Container([Open(g), Open(h)], map["c" := x], map[], 4, 0)
  {
    var x, g, h := EarlyLeg(), OrigLeg(2, 2, "a"), OrigLeg(3, 4, "b");
    hide AbsorbLegs;
    LegSnoc(NoCalls(0), [], x);
    LegSnoc(NoCalls(0), [x], g);
    LegSnoc(NoCalls(0), [x, g], h);
    assert [] + [x] == [x] && [x] + [g] == [x, g] && [x, g] + [h] == [x, g, h];
    assert AbsorbLegs(NoCalls(0), []) == NoCalls(0) by { NoLegs(NoCalls(0)); }
    assert [Open(g)] + [Open(h)] == [Open(g), Open(h)] && [] + [Open(g)] == [Open(g)];
  }

  lemma {:induction false} NoLegs(c: Container)
    requires c.Valid()
    ensures AbsorbLegs(c, []) == c
  {
  }

  /** The first pass evicts the leg, whose link is still to come. */
  lemma {:induction false} EarlyLegPass()
    ensures var x, g, h := EarlyLeg(), OrigLeg(2, 2, "a"), OrigLeg(3, 4, "b");
            var p := RunPass(NoCalls(0), [x, g, h], [], Steady(4), 2);
            p.container == Container([Open(g), Open(h)], map[], map[], 4, 0) && p.emitted == []
  {
    hide Absorbed, SweepAll, Select, StaleLinks;
    var x, g, h := EarlyLeg(), OrigLeg(2, 2, "a"), OrigLeg(3, 4, "b");
    var legs := map["c" := x];
    EarlyLegAbsorbed();
    SweepNone([Open(g), Open(h)], legs);
    NoneFinished([Open(g), Open(h)], 2, Steady(4), 2);
    assert FreshLegs(legs, 2, Steady(4), 2) == map[] && FreshLinks(map[], 2) == map[];
  }

  lemma {:induction false} NoneFinished(recs: seq<CallRecord>, saveTime: int, looks: Looks, maxCall: int)
    requires forall r | r in recs :: saveTime <= r.startTime
    ensures Select(recs, true, saveTime, looks, maxCall) == [] && Select(recs, false, saveTime, looks, maxCall) == recs
  {
    if recs != [] {
      var n := |recs| - 1;
      NoneFinished(recs[..n], saveTime, looks, maxCall);
      assert recs[n] in recs && recs == recs[..n] + [recs[n]];
    }
  }

  /** The pass that evicts the leg, and what the readers bring after it. */
  lemma {:induction false} EarlyLegGoesOn() returns (s: State)
    ensures Reachable(TwoSeconds(), s) && s.outbox == []
    ensures s.container == Container([Open(OrigLeg(2, 2, "a")), Open(OrigLeg(3, 4, "b"))], map[], map[], 4, 0)
    ensures s.legQueue == [OrigLeg(4, 6, "d")] && s.linkQueue == [LinkTo(1, 5, "a", "c")] && s.linkReader.startTime == 6
    ensures s.legTable == EarlyLegStart().legTable && s.linkTable == EarlyLegStart().linkTable
  {
    hide Reachable, RunPass, HasRow;
    var cfg := TwoSeconds();
    var b := EarlyLegBegins();
    assert b.legQueue[..3] == b.legQueue && b.linkQueue[..0] == [];
    EarlyLegPass();
    s := Merge(cfg, b);
    StepReachable(cfg, b, s, MergeStep);
    assert s.legReader == b.legReader && s.linkReader == b.linkReader && s.legQueue == [] && s.linkQueue == [];
    hide Merge, MergeAt, PassAt;
    s := EarlyLegReads(s);
  }

  lemma {:induction false} EarlyLegReads(b: State) returns (s: State)
    requires Reachable(TwoSeconds(), b) && b.legQueue == [] && b.linkQueue == [] && b.now == 100 && b.online == {}
    requires b.legTable == EarlyLegStart().legTable && b.linkTable == EarlyLegStart().linkTable
    requires b.legReader.phase == Waiting && b.legReader.startTime == 4 && b.legReader.stopTime == 6 && !b.legReader.paused
    requires b.linkReader.phase == Waiting && b.linkReader.startTime == 4 && b.linkReader.stopTime == 6 && !b.linkReader.paused
    ensures Reachable(TwoSeconds(), s) && s.outbox == b.outbox && s.container == b.container
    ensures s.legQueue == [OrigLeg(4, 6, "d")] && s.linkQueue == [LinkTo(1, 5, "a", "c")] && s.linkReader.startTime == 6
    ensures s.legTable == b.legTable && s.linkTable == b.linkTable
  {
    hide Reachable;
    var cfg := TwoSeconds();
    assert OrigLeg(5, 8, "z") in b.legTable && LinkTo(2, 8, "z", "") in b.linkTable;
    s := LegRow(cfg, b, OrigLeg(4, 6, "d"));
    s := LinkRow(cfg, s, LinkTo(1, 5, "a", "c"));
    assert [] + [OrigLeg(4, 6, "d")] == [OrigLeg(4, 6, "d")] && [] + [LinkTo(1, 5, "a", "c")] == [LinkTo(1, 5, "a", "c")];
  }

  /** The second pass emits the record with the link, but without the leg. */
  lemma {:induction false} EarlyLegEmits(c: Container)
    requires c == Container([Open(OrigLeg(2, 2, "a")), Open(OrigLeg(3, 4, "b"))], map[], map[], 4, 0)
    ensures CallRecord("a", 2, map["a" := OrigLeg(2, 2, "a")], [LinkTo(1, 5, "a", "c")])
            in RunPass(c, [OrigLeg(4, 6, "d")], [LinkTo(1, 5, "a", "c")], Steady(6), 2).emitted
  {
    hide AbsorbLegs, AbsorbLinks, SweepAll, Select, FreshLegs, FreshLinks, StaleLinks, Named;
    var g, e, l := OrigLeg(2, 2, "a"), OrigLeg(4, 6, "d"), LinkTo(1, 5, "a", "c");
    FourNames();
    LegSnoc(c, [], e);
    NoLegs(c);
    assert [] + [e] == [e] && [] + [l] == [l];
    var f := AbsorbLegs(c, [e]);
    LinkSnoc(f, [], l);
    assert Group(f.links, "a") + [l] == [l] && f.links["a" := [l]] == map["a" := [l]];
    var d := Absorbed(c, [e], [l]);
    assert d == Container(c.data + [Open(e)], map[], map["a" := [l]], 6, 5);
    hide Absorbed;
    FirstTakesAll(d.data, d.legs, d.links);
    NothingLeft(map[], {}, [l]);
    assert Attached(d.data[0], d.links) == [l];
    assert d.data[0].legs + map[] == map["a" := g];
    var w := SweepAll(d.data, d.legs, d.links);
    SelectMembers(w.swept, true, 4, Steady(6), 2);
    assert w.swept[0] == CallRecord("a", 2, map["a" := g], [l]) && w.swept[0] in w.swept;
  }

  /** A reachable state in which a record lacks a leg that its link names because the leg starts
      a second before the originating one: it was evicted before the link came. Everything else
      is as it should be. */
  lemma {:induction false} EarlyLegIsLost() returns (s: State, rec: CallRecord, l: CallLegLink, x: CallLeg)
    ensures Reachable(TwoSeconds(), s) && TimeFollowsId(s.legTable)
    ensures forall c :: CallTimely(TwoSeconds(), s, c) && OneCall(s, c) && LegsSoon(TwoSeconds(), s, c)
    ensures rec in s.emitted && !HoldsAllLegs(s, rec)
    ensures rec.orig in rec.legs && Names(s, rec.legs[rec.orig], l, x) && x.time == rec.startTime - 1
  {
    hide Reachable, RunPass, CallTimely, OneCall, LegsSoon, TimeFollowsId, HoldsAllLegs, NamesLeg;
    var cfg := TwoSeconds();
    var b := EarlyLegGoesOn();
    assert b.legQueue[..1] == b.legQueue && b.linkQueue[..1] == b.linkQueue;
    s := Merge(cfg, b);
    StepReachable(cfg, b, s, MergeStep);
    EarlyLegEmits(b.container);
    rec := CallRecord("a", 2, map["a" := OrigLeg(2, 2, "a")], [LinkTo(1, 5, "a", "c")]);
    l, x := LinkTo(1, 5, "a", "c"), EarlyLeg();
    assert rec in s.emitted;
    hide Merge;
    EarlyLegIsTimely(s);
    EarlyLegIsSeen(s, rec);
  }

  lemma {:induction false} EarlyLegIsSeen(s: State, rec: CallRecord)
    requires s.legTable == EarlyLegStart().legTable && s.linkTable == EarlyLegStart().linkTable
    requires rec == CallRecord("a", 2, map["a" := OrigLeg(2, 2, "a")], [LinkTo(1, 5, "a", "c")])
    ensures !HoldsAllLegs(s, rec) && Names(s, rec.legs["a"], LinkTo(1, 5, "a", "c"), EarlyLeg())
  {
    FourNames();
    assert Names(s, rec.legs["a"], LinkTo(1, 5, "a", "c"), EarlyLeg());
  }

  lemma {:induction false} EarlyLegIsTimely(s: State)
    requires s.legTable == EarlyLegStart().legTable && s.linkTable == EarlyLegStart().linkTable
    ensures TimeFollowsId(s.legTable)
    ensures forall c :: CallTimely(TwoSeconds(), s, c) && OneCall(s, c) && LegsSoon(TwoSeconds(), s, c)
  {
    EarlyLegIsUnique();
    EarlyLegIsOrdered();
    hide UniqueLegs, TimeFollowsId, EarlyLegStart;
    forall m, x | m in s.linkTable && x in s.legTable
      ensures x.body.orig && m.body.uniqueidOrig == x.body.uniqueid ==> x.time <= m.time <= x.time + 3
      ensures !x.body.orig && m.body.uniqueidTerm == x.body.uniqueid ==> x.time == 1 && m == LinkTo(1, 5, "a", "c")
    {
      EarlyLegPairs(m, x);
    }
    EarlyLegIsOld(s);
  }

  lemma {:induction false} EarlyLegIsOld(s: State)
    requires s.legTable == EarlyLegStart().legTable
    ensures forall g | g in s.legTable :: 1 <= g.time
  {
  }

  lemma {:induction false} EarlyLegIsUnique()
    ensures UniqueLegs(EarlyLegStart().legTable)
  {
    FourNames();
    assert "z"[0] != "a"[0] && "z"[0] != "b"[0] && "z"[0] != "c"[0] && "z"[0] != "d"[0];
  }

  lemma {:induction false} EarlyLegIsOrdered()
    ensures TimeFollowsId(EarlyLegStart().legTable)
  {
  }

  lemma {:induction false} EarlyLegPairs(m: CallLegLink, x: CallLeg)
    requires m in EarlyLegStart().linkTable && x in EarlyLegStart().legTable
    ensures x.body.orig && m.body.uniqueidOrig == x.body.uniqueid ==> x.time <= m.time <= x.time + 3
    ensures !x.body.orig && m.body.uniqueidTerm == x.body.uniqueid ==> x.time == 1 && m == LinkTo(1, 5, "a", "c")
  {
    FourNames();
    assert "c" != "" && "z"[0] != "a"[0] && "z"[0] != "b"[0] && "z"[0] != "d"[0];
  }
}
