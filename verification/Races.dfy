/** Links that an emitted record lacks, and readers that are paused for good: for each
    assumption on links and on passes a reachable state or a run that shows what happens
    without it. */
module Races {
  import opened Rows
  import opened Readers
  import opened MergeContainers
  import opened ContainerLaws
  import opened Pipeline
  import opened SplitRuns
  import opened Records
  import opened LinkCompleteness
  import opened FlowControl
  import opened Scenarios

  // ----- longer runs ---------------------------------------------------------------------

  lemma {:induction false} SplitReachable(cfg: Config, s: State) returns (run: seq<State>, events: seq<Event>)
    requires Reachable(cfg, s)
    ensures |run| == |events| + 1 && IsSplitRun(cfg, run, events) && run[|events|] == s && Still(run, s)
  {
    hide Init, Next, Happens;
    var steps: seq<Step>;
    run, steps :| IsRun(cfg, run, steps) && run[|steps|] == s && Still(run, s);
    StepsAreEvents(cfg, run, steps);
    events := Events(run, steps);
  }

  lemma {:induction false} OneMore(cfg: Config, run: seq<State>, events: seq<Event>, s': State, e: Event)
    requires IsSplitRun(cfg, run, events) && Still(run, s') && Happens(cfg, run[|events|], s', e)
    ensures IsSplitRun(cfg, run + [s'], events + [e]) && Still(run + [s'], s') && |run| == |events| + 1
  {
    hide Init, Happens;
    forall i | 0 <= i < |events| + 1 ensures Happens(cfg, (run + [s'])[i], (run + [s'])[i + 1], (events + [e])[i]) {
      if i < |events| {
        assert Happens(cfg, run[i], run[i + 1], events[i]);
      }
    }
  }

  /** The link reader goes on, and nobody else. */
  lemma {:induction false} ReadsOn(cfg: Config, run: seq<State>, events: seq<Event>, s: State, n: nat, r: Reader<Link>, queue: seq<CallLegLink>)
    returns (run': seq<State>, events': seq<Event>)
    requires IsSplitRun(cfg, run, events) && Still(run, s) && run[|events|] == s && s.online == {}
    requires Reads(cfg, s.linkTable, s.now, 2, n, s.linkReader, s.linkQueue, r, queue)
    ensures IsSplitRun(cfg, run', events') && run <= run' && events <= events' && |run'| == |events'| + 1
    ensures run'[|events'|] == s.(linkReader := r, linkQueue := queue) && Still(run', s)
    decreases n
  {
    if n == 0 {
      run', events' := run, events;
    } else {
      hide IsSplitRun, ReaderNext;
      var m, q, step :| ReaderNext(cfg, s.linkTable, s.now, 2, true, step, s.linkReader, s.linkQueue, m, q)
                     && Reads(cfg, s.linkTable, s.now, 2, n - 1, m, q, r, queue);
      var t := s.(linkReader := m, linkQueue := q);
      assert OffLine(s);
      OneMore(cfg, run, events, t, Acts(LinkStep(step)));
      assert t.(linkReader := r, linkQueue := queue) == s.(linkReader := r, linkQueue := queue);
      run', events' := ReadsOn(cfg, run + [t], events + [Acts(LinkStep(step))], t, n - 1, r, queue);
    }
  }

  // ----- a link enqueued between the drain and the look --------------------------------------

  function LostLink(): CallLegLink {
    LinkTo(1, 2, "a", "")
  }

  function LossStart(): State {
    Fresh(OneSecond(), {OrigLeg(1, 1, "a"), OrigLeg(2, 3, "b"), OrigLeg(3, 5, "c")}, {LostLink(), LinkTo(2, 5, "z", "")})
  }

  /** Two legs are in the queue, and the link reader is past the first second. */
  lemma {:induction false} LossBegins() returns (s: State)
    ensures Reachable(OneSecond(), s) && s.legQueue == [OrigLeg(1, 1, "a"), OrigLeg(2, 3, "b")] && s.linkQueue == []
    ensures s.container == NoCalls(0) && s.outbox == [] && s.now == 100 && s.online == {} && !s.legReader.paused && !s.linkReader.paused
    ensures s.legTable == LossStart().legTable && s.linkTable == LossStart().linkTable
    ensures s.linkReader == AfterWindow(OneSecond(), Start(OneSecond()), [])
  {
    hide Reachable;
    var cfg := OneSecond();
    s := LossStart();
    InitReachable(cfg, s);
    assert OrigLeg(3, 5, "c") in s.legTable && LinkTo(2, 5, "z", "") in s.linkTable;
    s := LegRow(cfg, s, OrigLeg(1, 1, "a"));
    s := LegEmpty(cfg, s);
    s := LegRow(cfg, s, OrigLeg(2, 3, "b"));
    s := LinkEmpty(cfg, s);
  }

  /** From there the link reader fetches the link of the first call and another window. */
  lemma {:induction false} LossReads(a: Reader<Link>, table: set<CallLegLink>) returns (n: nat, r: Reader<Link>, queue: seq<CallLegLink>)
    requires a == AfterWindow(OneSecond(), Start(OneSecond()), []) && table == LossStart().linkTable
    ensures Reads(OneSecond(), table, 100, 2, n, a, [], r, queue) && r.startTime == 3
  {
    hide Reads;
    var cfg, l := OneSecond(), LostLink();
    assert LinkTo(2, 5, "z", "") in table;
    var b := AfterWindow(cfg, a, [l]);
    OneLinkWindow(cfg, table, 100, a, [], l);
    queue := [] + [l];
    r := AfterWindow(cfg, b, []);
    EmptyWindow(cfg, table, 100, 2, b, queue);
    ReadsTrans(cfg, table, 100, 2, 7, 4, a, [], b, queue, r, queue);
    n := 11;
  }

  lemma {:induction false} LossIsTimely(s: State)
    requires s.legTable == LossStart().legTable && s.linkTable == LossStart().linkTable
    ensures UniqueLegs(s.legTable) && LinksTimely(OneSecond(), s.legTable, s.linkTable, "a")
  {
    assert "a"[0] != "b"[0] && "b"[0] != "c"[0] && "c"[0] != "a"[0] && "z"[0] != "a"[0];
  }

  /** A pass that emits the first call although its link is still to come. */
  lemma {:induction false} LossWork(s: State) returns (s': State, rec: CallRecord)
    requires Reachable(OneSecond(), s) && s.legQueue == [OrigLeg(1, 1, "a"), OrigLeg(2, 3, "b")] && s.linkQueue == []
    requires s.container == NoCalls(0) && s.outbox == [] && !s.linkReader.paused && !s.legReader.paused
    ensures Happens(OneSecond(), s, s', Works(Steady(3))) && rec in PassAt(OneSecond(), s, Steady(3)).emitted && rec.orig == "a" && rec.links == []
    ensures s'.linkReader == s.linkReader && s'.linkQueue == [] && s'.online == s.online && s'.now == s.now
    ensures s'.legTable == s.legTable && s'.linkTable == s.linkTable
  {
    hide RunPass, AbsorbLegs;
    var g, x := OrigLeg(1, 1, "a"), OrigLeg(2, 3, "b");
    s' := MergeAt(OneSecond(), s, Steady(3));
    rec := Open(g);
    assert [g, x][..2] == [g, x] && s.linkQueue[..0] == [];
    AbsorbTwo(g, x, 0);
    PassMaxima(s.container, [g, x], [], Steady(3), 1);
    LegsOnlyPass(s.container, [g, x], AbsorbLegs(s.container, [g, x]), Steady(3), 1, rec);
  }

  /** A run in which a pass emits a record of a timely call without a link that is in the
      source: the link reader enqueued it after the pass had emptied the queues in state `i`,
      and was past it when the pass looked at the clock in state `k`. */
  lemma {:induction false} OverlapLosesLink() returns (run: seq<State>, events: seq<Event>, i: nat, k: nat, rec: CallRecord)
    ensures CallRun(OneSecond(), run, events, rec.orig) && EmittedIn(OneSecond(), run, events, i, rec)
    ensures i < k < |run| && events[i].looks == Steady(run[k].linkReader.startTime) && !HoldsAllLinks(run[k], rec)
  {
    hide Reachable, Reads, RunPass, AfterWindow, Happens, MergeAt, PassAt, IsSplitRun, LossStart;
    var cfg := OneSecond();
    var s := LossBegins();
    run, events := SplitReachable(cfg, s);
    i := |events|;
    var s';
    s', rec := LossWork(s);
    OneMore(cfg, run, events, s', Works(Steady(3)));
    var n, r, queue := LossReads(s.linkReader, s.linkTable);
    var first, began := run + [s'], events + [Works(Steady(3))];
    run, events := ReadsOn(cfg, first, began, s', n, r, queue);
    k := |events|;
    assert run[i] == first[i] && events[i] == began[i];
    LossIsTimely(s);
    StillTimely(cfg, run, events, s, "a");
    assert LostLink() in run[k].linkTable by { LossHasLink(); }
  }

  lemma {:induction false} LossHasLink()
    ensures LostLink() in LossStart().linkTable
  {
  }

  lemma {:induction false} StillTimely(cfg: Config, run: seq<State>, events: seq<Event>, s: State, c: string)
    requires cfg.Valid() && IsSplitRun(cfg, run, events) && Still(run, s) && UniqueLegs(s.legTable) && LinksTimely(cfg, s.legTable, s.linkTable, c)
    ensures CallRun(cfg, run, events, c)
  {
    hide IsSplitRun, UniqueLegs, LinksTimely;
  }

  // ----- links out of time ------------------------------------------------------------------

  /** The call that loses its only link. */
  ghost predicate LosesOnlyLink(cfg: Config, s: State, g: CallLeg, l: CallLegLink, rec: CallRecord) {
    && Reachable(cfg, s) && UniqueLegs(s.legTable)
    && g in s.legTable && g.body.orig && cfg.start < g.time && cfg.start < l.time
    && (forall m :: m in s.linkTable && m.body.uniqueidOrig == g.body.uniqueid <==> m == l)
    && rec in s.emitted && rec.orig == g.body.uniqueid && !HoldsAllLinks(s, rec)
  }

  function TooLateStart(): State {
    Fresh(TwoSeconds(), {OrigLeg(1, 1, "a"), OrigLeg(2, 4, "b"), OrigLeg(3, 5, "c")}, {LinkTo(1, 5, "a", "")})
  }

  lemma {:induction false} TooLateBegins() returns (s: State)
    ensures Reachable(TwoSeconds(), s) && s.container == NoCalls(0) && s.outbox == [] && s.emitted == []
    ensures s.legQueue == [OrigLeg(1, 1, "a"), OrigLeg(2, 4, "b")] && s.linkQueue == [] && s.linkReader.startTime == 4
    ensures s.legTable == TooLateStart().legTable && s.linkTable == TooLateStart().linkTable
  {
    hide Reachable;
    var cfg := TwoSeconds();
    s := TooLateStart();
    InitReachable(cfg, s);
    assert OrigLeg(3, 5, "c") in s.legTable && LinkTo(1, 5, "a", "") in s.linkTable;
    s := LegRow(cfg, s, OrigLeg(1, 1, "a"));
    s := LegRow(cfg, s, OrigLeg(2, 4, "b"));
    s := LinkEmpty(cfg, s);
    s := LinkEmpty(cfg, s);
  }

  /** A reachable state in which a link is lost that starts two seconds later than `maxCall`
      after its originating leg: the record has left before the link reader comes to it. */
  lemma {:induction false} TooLateIsLost() returns (s: State, g: CallLeg, l: CallLegLink, rec: CallRecord)
    ensures LosesOnlyLink(TwoSeconds(), s, g, l, rec) && l.time == g.time + TwoSeconds().maxCall + 2
  {
    hide Reachable, RunPass, AbsorbLegs, LosesOnlyLink;
    var cfg := TwoSeconds();
    g, l := OrigLeg(1, 1, "a"), LinkTo(1, 5, "a", "");
    var h := OrigLeg(2, 4, "b");
    var b := TooLateBegins();
    assert b.legQueue[..2] == b.legQueue && b.linkQueue[..0] == [];
    s := Merge(cfg, b);
    StepReachable(cfg, b, s, MergeStep);
    rec := Open(g);
    AbsorbTwo(g, h, 0);
    LegsOnlyPass(b.container, [g, h], AbsorbLegs(b.container, [g, h]), Steady(4), 2, rec);
    assert rec in s.emitted;
    hide Merge, Absorbed;
    TooLateRows(s, rec);
  }

  lemma {:induction false} TooLateRows(s: State, rec: CallRecord)
    requires Reachable(TwoSeconds(), s) && s.legTable == TooLateStart().legTable && s.linkTable == TooLateStart().linkTable
    requires rec == Open(OrigLeg(1, 1, "a")) && rec in s.emitted
    ensures LosesOnlyLink(TwoSeconds(), s, OrigLeg(1, 1, "a"), LinkTo(1, 5, "a", ""), rec)
  {
    hide Reachable;
    FourNames();
    assert LinkTo(1, 5, "a", "") !in rec.links;
  }

  function TooEarlyStart(): State {
    Fresh(TwoSeconds(), {OrigLeg(1, 4, "b"), OrigLeg(2, 3, "a"), OrigLeg(3, 6, "c"), OrigLeg(4, 8, "d")},
          {LinkTo(1, 1, "a", ""), LinkTo(2, 8, "z", "")})
  }

  /** The newer leg of a window comes first, and the link with it. */
  lemma {:induction false} TooEarlyBegins() returns (s: State)
    ensures Reachable(TwoSeconds(), s) && s.container == NoCalls(0) && s.outbox == [] && s.emitted == []
    ensures s.legQueue == [OrigLeg(1, 4, "b")] && s.linkQueue == [LinkTo(1, 1, "a", "")]
    ensures s.legTable == TooEarlyStart().legTable && s.linkTable == TooEarlyStart().linkTable && s.now == 100 && s.online == {}
    ensures s.legReader.phase == Pushing([OrigLeg(1, 4, "b"), OrigLeg(2, 3, "a")], 1, 0) && s.legReader.startTime == 2 && s.legReader.stopTime == 4
    ensures s.linkReader.phase == Waiting && s.linkReader.startTime == 2 && s.linkReader.stopTime == 4
    ensures !s.legReader.paused && !s.linkReader.paused
  {
    hide Reachable, Reads;
    var cfg, h, g := TwoSeconds(), OrigLeg(1, 4, "b"), OrigLeg(2, 3, "a");
    s := TooEarlyStart();
    InitReachable(cfg, s);
    assert OrigLeg(4, 8, "d") in s.legTable && LinkTo(2, 8, "z", "") in s.linkTable;
    s := LegEmpty(cfg, s);
    var r := s.legReader;
    HalfWindow(cfg, s.legTable, s.now, r, [], h, g);
    var r' := r.(phase := Pushing([h, g], 1, 0), sent := r.sent + [h]);
    LegReads(cfg, s, 3, r', [] + [h]);
    s := s.(legReader := r', legQueue := [] + [h]);
    s := LinkRow(cfg, s, LinkTo(1, 1, "a", ""));
  }

  lemma {:induction false} TooEarlyAbsorbed(h: CallLeg, l: CallLegLink)
    requires h == OrigLeg(1, 4, "b") && l == LinkTo(1, 1, "a", "")
    ensures Absorbed(NoCalls(0), [h], [l]) == Container([Open(h)], map[], map["a" := [l]], 4, 1)
  {
    hide AbsorbLegs;
    AbsorbOne(h, 0);
    var e := AbsorbLegs(NoCalls(0), [h]);
    assert AbsorbLinks(e, [l]) == AbsorbLink(AbsorbLinks(e, []), l) by {
      assert [l][..0] == [];
    }
    assert Group(e.links, "a") + [l] == [l] && map[]["a" := [l]] == map["a" := [l]];
  }

  /** The first pass drops the link. */
  lemma {:induction false} TooEarlyPass(h: CallLeg, l: CallLegLink)
    requires h == OrigLeg(1, 4, "b") && l == LinkTo(1, 1, "a", "")
    ensures RunPass(NoCalls(0), [h], [l], Steady(2), 2).container == Container([Open(h)], map[], map[], 4, 1)
    ensures RunPass(NoCalls(0), [h], [l], Steady(2), 2).emitted == []
  {
    hide Absorbed, SweepAll, Select, StaleLinks;
    var d := Absorbed(NoCalls(0), [h], [l]);
    TooEarlyAbsorbed(h, l);
    SweepOther(Open(h), d.links) by {
      FourNames();
    }
    SelectOne(Open(h), false, 2, Steady(2), 2);
    SelectOne(Open(h), true, 2, Steady(2), 2);
    assert FreshLinks(d.links, 2) == map[] && FreshLegs(map[], 2, Steady(2), 2) == map[];
  }

  /** A record to which no group belongs. */
  lemma {:induction false} SweepOther(r: CallRecord, links: LinkGroups)
    requires r.orig !in links && r.links == []
    ensures SweepAll([r], map[], links) == Sweep([r], map[], links)
  {
    assert [r][..0] == [] && SweepAll([], map[], links) == Sweep([], map[], links);
    assert Group(links, r.orig) == [] && links - {r.orig} == links;
    assert r.(links := [], legs := r.legs) == r;
  }

  /** The pass that drops the link, and what the readers bring after it. */
  lemma {:induction false} TooEarlyGoesOn() returns (s: State)
    ensures Reachable(TwoSeconds(), s) && s.outbox == [] && s.container == Container([Open(OrigLeg(1, 4, "b"))], map[], map[], 4, 1)
    ensures s.legQueue == [OrigLeg(2, 3, "a"), OrigLeg(3, 6, "c")] && s.linkQueue == [] && s.linkReader.startTime == 6
    ensures s.legTable == TooEarlyStart().legTable && s.linkTable == TooEarlyStart().linkTable
  {
    hide Reachable, Reads, RunPass, HasRow;
    var cfg, h, g := TwoSeconds(), OrigLeg(1, 4, "b"), OrigLeg(2, 3, "a");
    var b := TooEarlyBegins();
    assert b.legQueue[..1] == b.legQueue && b.linkQueue[..1] == b.linkQueue;
    TooEarlyPass(h, LinkTo(1, 1, "a", ""));
    s := Merge(cfg, b);
    StepReachable(cfg, b, s, MergeStep);
    assert s.legReader == b.legReader && s.linkReader == b.linkReader && s.legQueue == [] && s.linkQueue == [];
    hide Merge, MergeAt, PassAt;
    s := TooEarlyReads(s);
  }

  lemma {:induction false} TooEarlyReads(b: State) returns (s: State)
    requires Reachable(TwoSeconds(), b) && b.legQueue == [] && b.linkQueue == [] && b.now == 100 && b.online == {}
    requires b.legTable == TooEarlyStart().legTable && b.linkTable == TooEarlyStart().linkTable
    requires b.legReader.phase == Pushing([OrigLeg(1, 4, "b"), OrigLeg(2, 3, "a")], 1, 0) && b.legReader.startTime == 2 && b.legReader.stopTime == 4
    requires b.linkReader.phase == Waiting && b.linkReader.startTime == 2 && b.linkReader.stopTime == 4
    requires !b.legReader.paused && !b.linkReader.paused
    ensures Reachable(TwoSeconds(), s) && s.outbox == b.outbox && s.container == b.container
    ensures s.legQueue == [OrigLeg(2, 3, "a"), OrigLeg(3, 6, "c")] && s.linkQueue == [] && s.linkReader.startTime == 6
    ensures s.legTable == b.legTable && s.linkTable == b.linkTable
  {
    hide Reachable, Reads;
    var cfg, h, g, e := TwoSeconds(), OrigLeg(1, 4, "b"), OrigLeg(2, 3, "a"), OrigLeg(3, 6, "c");
    RestOfWindow(cfg, b.legTable, b.now, b.legReader, [], h, g);
    var r := AfterWindow(cfg, b.legReader, [g]);
    LegReads(cfg, b, 3, r, [] + [g]);
    s := b.(legReader := r, legQueue := [] + [g]);
    assert OrigLeg(4, 8, "d") in s.legTable && LinkTo(2, 8, "z", "") in s.linkTable;
    s := LegRow(cfg, s, e);
    s := LinkEmpty(cfg, s);
    s := LinkEmpty(cfg, s);
  }

  lemma {:induction false} TooEarlyRows(s: State, rec: CallRecord)
    requires Reachable(TwoSeconds(), s) && s.legTable == TooEarlyStart().legTable && s.linkTable == TooEarlyStart().linkTable
    requires rec == Open(OrigLeg(2, 3, "a")) && rec in s.emitted
    ensures LosesOnlyLink(TwoSeconds(), s, OrigLeg(2, 3, "a"), LinkTo(1, 1, "a", ""), rec)
  {
    hide Reachable;
    FourNames();
    assert LinkTo(1, 1, "a", "") !in rec.links;
  }

  /** A reachable state in which a link is lost that starts two seconds before its originating
      leg: it was dropped before the leg came. */
  lemma {:induction false} TooEarlyIsLost() returns (s: State, g: CallLeg, l: CallLegLink, rec: CallRecord)
    ensures LosesOnlyLink(TwoSeconds(), s, g, l, rec) && l.time == g.time - 2
  {
    hide Reachable, RunPass, AbsorbLegs;
    var cfg := TwoSeconds();
    g, l := OrigLeg(2, 3, "a"), LinkTo(1, 1, "a", "");
    var e := OrigLeg(3, 6, "c");
    var b := TooEarlyGoesOn();
    FourNames();
    assert b.legQueue[..2] == b.legQueue && b.linkQueue[..0] == [];
    s := Merge(cfg, b);
    StepReachable(cfg, b, s, MergeStep);
    rec := Open(g);
    hide LosesOnlyLink;
    AbsorbMore(b.container, g, e);
    LegsOnlyPass(b.container, [g, e], AbsorbLegs(b.container, [g, e]), Steady(6), 2, rec);
    assert rec in s.emitted;
    hide Merge, Absorbed;
    TooEarlyRows(s, rec);
  }

  // ----- the wrong reader paused -----------------------------------------------------------

  /** A reachable state in which the leg reader is paused for good although it is behind:
      it was paused for being ahead, and one pass then took in links of five call times. */
  lemma {:induction false} StallIsReachable() returns (s: State)
    ensures Reachable(OneSecond(), s) && LegStalled(OneSecond(), s)
    ensures exists g :: g in s.legTable && g !in s.legReader.sent && g.time < s.linkReader.startTime
  {
    hide Reachable, RunPass;
    var cfg := OneSecond();
    var g, y := OrigLeg(1, 3, "a"), OrigLeg(2, 5, "b");
    var l, m := LinkTo(1, 6, "z", ""), LinkTo(2, 8, "z", "");
    s := Fresh(cfg, {g, y}, {l, m});
    InitReachable(cfg, s);
    assert y in s.legTable && m in s.linkTable;
    s := LegEmpty(cfg, s);
    s := LegEmpty(cfg, s);
    s := LegRow(cfg, s, g);
    s := OneLegMerge(cfg, s, g);
    s := LinkEmpty(cfg, s);
    s := LinkEmpty(cfg, s);
    s := LinkEmpty(cfg, s);
    s := LinkEmpty(cfg, s);
    s := LinkEmpty(cfg, s);
    s := LinkRow(cfg, s, l);
    s := OneLinkMerge(cfg, s, l);
    assert y in s.legTable && y !in s.legReader.sent;
  }

  /** The first pass, over one leg that is far ahead of the links. */
  lemma {:induction false} OneLegMerge(cfg: Config, s: State, g: CallLeg) returns (s': State)
    requires cfg.Valid() && Reachable(cfg, s) && s.outbox == [] && s.container == NoCalls(cfg.start)
    requires s.legQueue == [g] && s.linkQueue == [] && g.body.orig && s.linkReader.startTime <= g.time
    requires g.time - cfg.start > cfg.maxCall * 2 && !s.legReader.paused && !s.linkReader.paused
    ensures Reachable(cfg, s') && s'.container.Valid() && s'.legQueue == [] && s'.linkQueue == [] && s'.outbox == []
    ensures s'.container.maxLegTime == g.time && s'.container.maxLinkTime == cfg.start
    ensures s'.legReader == s.legReader.(paused := true) && s'.linkReader == s.linkReader
    ensures s'.legTable == s.legTable && s'.linkTable == s.linkTable && s'.now == s.now && s'.online == s.online
  {
    hide Reachable, RunPass;
    assert s.legQueue[..1] == [g] && s.linkQueue[..0] == [];
    s' := Merge(cfg, s);
    StepReachable(cfg, s, s', MergeStep);
    PassMaxima(s.container, [g], [], Steady(s.linkReader.startTime), cfg.maxCall);
    assert g in [g];
    AbsorbOne(g, cfg.start);
    var d := AbsorbLegs(s.container, [g]);
    if s'.outbox != [] {
      LegsOnlyPass(s.container, [g], d, Steady(s.linkReader.startTime), cfg.maxCall, s'.outbox[0]);
    }
  }

  lemma {:induction false} OneLinkMerge(cfg: Config, s: State, l: CallLegLink) returns (s': State)
    requires cfg.Valid() && Reachable(cfg, s) && s.outbox == [] && s.container.Valid()
    requires s.legQueue == [] && s.linkQueue == [l] && s.container.maxLinkTime < l.time
    requires l.time - s.container.maxLegTime > cfg.maxCall * 2 && s.legReader.paused && !s.linkReader.paused && s.legReader.phase.Waiting?
    ensures Reachable(cfg, s') && LegStalled(cfg, s')
    ensures s'.legReader == s.legReader && s'.linkReader == s.linkReader && s'.legTable == s.legTable
  {
    hide Reachable, RunPass;
    assert s.linkQueue[..1] == [l] && s.legQueue[..0] == [];
    s' := Merge(cfg, s);
    StepReachable(cfg, s, s', MergeStep);
    PassMaxima(s.container, [], [l], Steady(s.linkReader.startTime), cfg.maxCall);
    assert l in [l];
  }

  /** The same with the readers exchanged: the link reader is paused for good although it
      is behind. */
  lemma {:induction false} LinkStallIsReachable() returns (s: State)
    ensures Reachable(OneSecond(), s) && LinkStalled(OneSecond(), s)
    ensures exists l :: l in s.linkTable && l !in s.linkReader.sent && l.time < s.legReader.startTime
  {
    hide Reachable, RunPass;
    var cfg := OneSecond();
    var g, h := OrigLeg(1, 6, "a"), OrigLeg(2, 8, "b");
    var l, m := LinkTo(1, 3, "z", ""), LinkTo(2, 5, "z", "");
    s := Fresh(cfg, {g, h}, {l, m});
    InitReachable(cfg, s);
    assert h in s.legTable && m in s.linkTable;
    s := LinkEmpty(cfg, s);
    s := LinkEmpty(cfg, s);
    s := LinkRow(cfg, s, l);
    s := FirstLinkMerge(cfg, s, l);
    s := LegEmpty(cfg, s);
    s := LegEmpty(cfg, s);
    s := LegEmpty(cfg, s);
    s := LegEmpty(cfg, s);
    s := LegEmpty(cfg, s);
    s := LegRow(cfg, s, g);
    s := LateLegMerge(cfg, s, g);
    assert m in s.linkTable && m !in s.linkReader.sent;
  }

  lemma {:induction false} FirstLinkMerge(cfg: Config, s: State, l: CallLegLink) returns (s': State)
    requires cfg.Valid() && Reachable(cfg, s) && s.outbox == [] && s.container == NoCalls(cfg.start)
    requires s.legQueue == [] && s.linkQueue == [l] && l.time - cfg.start > cfg.maxCall * 2
    requires !s.legReader.paused && !s.linkReader.paused
    ensures Reachable(cfg, s') && s'.container.Valid() && s'.legQueue == [] && s'.linkQueue == [] && s'.outbox == []
    ensures s'.container.maxLinkTime == l.time && s'.container.maxLegTime == cfg.start
    ensures s'.linkReader == s.linkReader.(paused := true) && s'.legReader == s.legReader
    ensures s'.legTable == s.legTable && s'.linkTable == s.linkTable && s'.now == s.now && s'.online == s.online
  {
    hide Reachable, RunPass;
    assert s.linkQueue[..1] == [l] && s.legQueue[..0] == [];
    s' := Merge(cfg, s);
    StepReachable(cfg, s, s', MergeStep);
    PassMaxima(s.container, [], [l], Steady(s.linkReader.startTime), cfg.maxCall);
    assert l in [l];
    assert Absorbed(s.container, [], [l]).data == [];
    NoneToEmit(s.container, [], [l], Steady(s.linkReader.startTime), cfg.maxCall);
  }

  lemma {:induction false} NoneToEmit(c: Container, legsIn: seq<CallLeg>, linksIn: seq<CallLegLink>, looks: Looks, maxCall: int)
    requires c.Valid() && Absorbed(c, legsIn, linksIn).data == []
    ensures RunPass(c, legsIn, linksIn, looks, maxCall).emitted == []
  {
    hide Absorbed, SweepAll, FreshLegs, FreshLinks, StaleLinks;
    var d := Absorbed(c, legsIn, linksIn);
    assert SweepAll(d.data, d.legs, d.links).swept == [];
  }

  lemma {:induction false} LateLegMerge(cfg: Config, s: State, g: CallLeg) returns (s': State)
    requires cfg.Valid() && Reachable(cfg, s) && s.outbox == [] && s.container.Valid()
    requires s.linkQueue == [] && s.legQueue == [g] && s.container.maxLegTime < g.time
    requires g.time - s.container.maxLinkTime > cfg.maxCall * 2 && s.linkReader.paused && !s.legReader.paused && s.linkReader.phase.Waiting?
    ensures Reachable(cfg, s') && LinkStalled(cfg, s')
    ensures s'.legReader == s.legReader && s'.linkReader == s.linkReader && s'.linkTable == s.linkTable
  {
    hide Reachable, RunPass;
    assert s.legQueue[..1] == [g] && s.linkQueue[..0] == [];
    s' := Merge(cfg, s);
    StepReachable(cfg, s, s', MergeStep);
    PassMaxima(s.container, [g], [], Steady(s.linkReader.startTime), cfg.maxCall);
    assert g in [g];
  }
}
