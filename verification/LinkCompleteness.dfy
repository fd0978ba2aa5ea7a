/** Watermark completeness, one call at a time. If the links of a call start in time after
    its originating leg, its record holds every link that was enqueued before the pass
    that emitted it looked at the clock; and nothing that other calls do can change that. */
module LinkCompleteness {
  import opened Rows
  import opened Readers
  import opened MergeContainers
  import opened ContainerLaws
  import opened Pipeline
  import opened SplitRuns
  import opened Records

  // ----- the assumption on the rows of a call ------------------------------------

  /** A call has time from the start of its originating leg up to `maxCall` later. A second
      more at either end does no harm; two seconds do. */
  predicate InTime(cfg: Config, g: CallLeg, l: CallLegLink) {
    cfg.start < l.time && g.time - 1 <= l.time <= g.time + cfg.maxCall + 1
  }

  /** The links of the call `c` are in time, if its originating leg lies after the start. */
  ghost predicate LinksTimely(cfg: Config, legs: set<CallLeg>, links: set<CallLegLink>, c: string) {
    forall g, l | g in legs && g.body.orig && g.body.uniqueid == c && cfg.start < g.time && l in links && l.body.uniqueidOrig == c ::
      InTime(cfg, g, l)
  }

  ghost predicate CallTimely(cfg: Config, s: State, c: string) {
    UniqueLegs(s.legTable) && LinksTimely(cfg, s.legTable, s.linkTable, c)
  }

  // ----- the invariant of a call ------------------------------------------------------

  /** All dequeued links of a call whose originating leg is still to come wait for it. */
  ghost predicate AwaitedInv(cfg: Config, s: State, c: string) {
    forall g | g in s.legTable && g.body.orig && g.body.uniqueid == c && cfg.start < g.time && c !in OrigIds(s.legSeen) ::
      Group(s.container.links, c) == LinksOf(s.linkSeen, c)
  }

  /** A live record has all links of its call that were dequeued, and none wait. */
  ghost predicate CallInv(cfg: Config, s: State, c: string) {
    && (forall r | r in s.container.data && r.orig == c :: r.links == LinksOf(s.linkSeen, c))
    && (c in Origs(s.container.data) ==> c !in s.container.links)
    && AwaitedInv(cfg, s, c)
  }

  /** Links that wait in a group were dequeued. */
  lemma {:induction false} GroupSeen(s: State, k: string, l: CallLegLink)
    requires LinksInv(s) && l in Group(s.container.links, k)
    ensures l in s.linkSeen
  {
    assert l.body.uniqueidOrig == k;
    assert InGroup(s.container.links, l) > 0;
    assert multiset(s.linkSeen)[l] > 0;
  }

  // ----- everything but a pass -----------------------------------------------------------

  lemma {:induction false} InitCall(cfg: Config, s: State, c: string)
    requires cfg.Valid() && Init(cfg, s)
    ensures CallInv(cfg, s, c)
  {
  }

  /** An originating leg that has newly come has no links yet. */
  lemma {:induction false} NewLegAwaits(cfg: Config, s: State, s': State, c: string, g: CallLeg)
    requires Reached(cfg, s) && s'.linkSeen == s.linkSeen && Frozen(s.linkTable, s'.linkTable, s.now - cfg.waiting)
    requires LinksTimely(cfg, s'.legTable, s'.linkTable, c)
    requires g in s'.legTable && g.body.orig && g.body.uniqueid == c && cfg.start < g.time && s.now - cfg.waiting < g.time
    ensures Group(s.container.links, c) == [] && LinksOf(s.linkSeen, c) == []
  {
    SeenIsOld(cfg, s);
    forall l | l in s.linkSeen ensures l.body.uniqueidOrig != c {
      assert l in s'.linkTable;
    }
    LinksOfNone(s.linkSeen, c);
    if Group(s.container.links, c) != [] {
      GroupSeen(s, c, Group(s.container.links, c)[0]);
    }
  }

  /** Nothing but a pass can disturb a call. */
  lemma {:induction false} OthersKeepCall(cfg: Config, s: State, s': State, c: string)
    requires Reached(cfg, s) && CallInv(cfg, s, c) && CallTimely(cfg, s', c) && Grows(cfg, s, s')
    requires s'.container == s.container && s'.legSeen == s.legSeen && s'.linkSeen == s.linkSeen
    ensures CallInv(cfg, s', c)
  {
    hide PipeInv, OrigIds, Origs, LinksOf, Group, UniqueLegs;
    forall g | g in s'.legTable && g.body.orig && g.body.uniqueid == c && cfg.start < g.time && c !in OrigIds(s'.legSeen)
      ensures Group(s'.container.links, c) == LinksOf(s'.linkSeen, c)
    {
      if g.time <= s.now - cfg.waiting {
        assert g in s.legTable;
      } else {
        NewLegAwaits(cfg, s, s', c, g);
      }
    }
  }

  // ----- a pass ---------------------------------------------------------------------

  /** The records after absorbing legs: the old ones, and a new one for each originating leg. */
  lemma {:induction false} AbsorbLegsOpens(c: Container, legs: seq<CallLeg>)
    requires c.Valid() && DistinctOrigs(c.data)
    requires forall i, j | 0 <= i < j < |legs| :: legs[i].body.uniqueid != legs[j].body.uniqueid
    requires Origs(c.data) !! OrigIds(legs)
    ensures var d := AbsorbLegs(c, legs);
            && DistinctOrigs(d.data) && Origs(d.data) == Origs(c.data) + OrigIds(legs)
            && forall r | r in d.data :: r in c.data || exists g :: g in legs && g.body.orig && r == Open(g)
  {
    if legs != [] {
      var n := |legs| - 1;
      var front, g := legs[..n], legs[n];
      assert legs == front + [g];
      OrigIdsConcat(front, [g]);
      AbsorbLegsOpens(c, front);
      var p := AbsorbLegs(c, front);
      assert AbsorbLegs(c, legs) == AbsorbLeg(p, g);
      hide AbsorbLegs;
      assert OrigIds([g]) == if g.body.orig then {g.body.uniqueid} else {};
      if g.body.orig {
        assert g.body.uniqueid !in OrigIds(front) by {
          assert forall i | 0 <= i < n :: front[i] == legs[i];
        }
        OpenDistinct(p.data, Open(g));
      }
    }
  }

  lemma {:induction false} OpenDistinct(recs: seq<CallRecord>, r: CallRecord)
    requires DistinctOrigs(recs) && r.orig !in Origs(recs)
    ensures DistinctOrigs(recs + [r]) && Origs(recs + [r]) == Origs(recs) + {r.orig}
  {
    forall i | 0 <= i < |recs| ensures recs[i].orig != r.orig {
      assert recs[i] in recs;
    }
    assert forall x :: x in recs + [r] <==> x in recs || x == r;
  }

  /** What a pass works on: a state with unique leg ids, and what it has absorbed. */
  ghost predicate Passing(cfg: Config, s: State, d: Container) {
    Reached(cfg, s) && RecordsInv(s) && UniqueLegs(s.legTable) && d == Absorbed(s.container, s.legQueue, s.linkQueue)
  }

  lemma {:induction false} LiveIsDistinct(a: seq<CallRecord>, b: seq<CallRecord>)
    requires DistinctOrigs(a + b)
    ensures DistinctOrigs(a)
  {
    assert forall i | 0 <= i < |a| :: (a + b)[i] == a[i];
  }

  lemma {:induction false} AbsorbedRecords(cfg: Config, s: State, d: Container)
    requires Passing(cfg, s, d)
    ensures DistinctOrigs(d.data) && Origs(d.data) == Origs(s.container.data) + OrigIds(s.legQueue)
    ensures forall r | r in d.data :: r in s.container.data || exists g :: g in s.legQueue && g.body.orig && r == Open(g)
  {
    var sent := s.legReader.sent;
    SeenIsOld(cfg, s);
    NoDupConcat(s.legSeen, s.legQueue);
    forall i, j | 0 <= i < j < |s.legQueue| ensures s.legQueue[i].body.uniqueid != s.legQueue[j].body.uniqueid {
      assert s.legQueue[i] in s.legQueue && s.legQueue[j] in s.legQueue;
    }
    forall k | k in Origs(s.container.data) ensures k !in OrigIds(s.legQueue) {
      assert k in OrigIds(s.legSeen);
      var g :| g in s.legSeen && g.body.orig && g.body.uniqueid == k;
    }
    LiveIsDistinct(s.container.data, s.emitted);
    hide ReaderInv, LinksInv, DistinctOrigs;
    AbsorbLegsOpens(s.container, s.legQueue);
  }

  /** The legs of the queue are new. */
  lemma {:induction false} QueueIsNew(cfg: Config, s: State)
    requires Reached(cfg, s) && UniqueLegs(s.legTable)
    ensures forall g | g in s.legQueue && g.body.orig :: g.body.uniqueid !in OrigIds(s.legSeen)
  {
    SeenIsOld(cfg, s);
    NoDupConcat(s.legSeen, s.legQueue);
  }

  /** What waits for a call once the queue has been absorbed. */
  lemma {:induction false} AbsorbedGroup(s: State, d: Container, c: string)
    requires s.container.Valid() && d == Absorbed(s.container, s.legQueue, s.linkQueue)
    ensures Group(d.links, c) == Group(s.container.links, c) + LinksOf(s.linkQueue, c)
    ensures LinksOf(s.linkSeen + s.linkQueue, c) == LinksOf(s.linkSeen, c) + LinksOf(s.linkQueue, c)
  {
    LinksOfConcat(s.linkSeen, s.linkQueue, c);
    AbsorbLinksGroups(AbsorbLegs(s.container, s.legQueue), s.linkQueue, c);
  }

  /** A new record finds all earlier links of its call waiting. */
  lemma {:induction false} NewRecordAwaited(cfg: Config, s: State, d: Container, c: string, g: CallLeg)
    requires Passing(cfg, s, d) && AwaitedInv(cfg, s, c) && g in s.legQueue && g.body.orig && g.body.uniqueid == c
    ensures Group(s.container.links, c) == LinksOf(s.linkSeen, c)
  {
    hide RecordsInv, Absorbed, MaximaInv, LinksInv;
    QueueIsNew(cfg, s);
    SeenIsOld(cfg, s);
  }

  /** A live record has the links of its call that came before, and no others wait. */
  lemma {:induction false} OldRecordCollected(cfg: Config, s: State, c: string, r: CallRecord)
    requires CallInv(cfg, s, c) && r in s.container.data && r.orig == c
    ensures r.links == LinksOf(s.linkSeen, c) && Group(s.container.links, c) == []
  {
    assert c in Origs(s.container.data);
  }

  /** After the sweep the record of the call has all its links. */
  lemma {:induction false} SweptRecord(cfg: Config, s: State, d: Container, c: string, r: CallRecord)
    requires Passing(cfg, s, d) && CallInv(cfg, s, c) && r in d.data && r.orig == c
    ensures Attached(r, d.links) == LinksOf(s.linkSeen + s.linkQueue, c)
  {
    hide Passing, LinksOf, Group, AwaitedInv, Origs, OrigIds;
    AbsorbedIsValid(cfg, s, d);
    AbsorbedGroup(s, d, c);
    AbsorbedRecords(cfg, s, d);
    if r in s.container.data {
      OldRecordCollected(cfg, s, c, r);
    } else {
      var g :| g in s.legQueue && g.body.orig && r == Open(g);
      NewRecordAwaited(cfg, s, d, c, g);
    }
  }

  lemma {:induction false} AbsorbedIsValid(cfg: Config, s: State, d: Container)
    requires Passing(cfg, s, d)
    ensures s.container.Valid() && d.Valid() && QueuesInv(cfg, s) && d == Absorbed(s.container, s.legQueue, s.linkQueue)
  {
    hide ReadersInv, RecordsInv, MaximaInv;
  }

  /** The newest leg seen is less than a window ahead of every leg still to come. */
  lemma {:induction false} LateLeg(cfg: Config, s: State, seen: nat, maxLeg: int, g: CallLeg)
    requires Reached(cfg, s) && seen <= |s.legReader.sent|
    requires maxLeg == cfg.start || exists x :: x in s.legReader.sent[..seen] && x.time == maxLeg
    requires g in s.legTable && cfg.start < g.time && g !in s.legReader.sent[..seen]
    ensures maxLeg - cfg.maxCall < g.time
  {
    LateRow(cfg, s.legReader, s.legTable, s.now, seen, g);
  }

  lemma {:induction false} PassMaxLeg(cfg: Config, s: State, d: Container)
    requires Reached(cfg, s) && d == Absorbed(s.container, s.legQueue, s.linkQueue)
    ensures s.container.maxLegTime <= d.maxLegTime
    ensures d.maxLegTime == cfg.start || exists x :: x in s.legReader.sent && x.time == d.maxLegTime
  {
    AbsorbLegsMax(s.container, s.legQueue);
    assert forall g :: g in s.legReader.sent <==> g in s.legSeen || g in s.legQueue;
  }

  /** A link that was dequeued is no older than the save time of the pass, if the originating
      leg of its call is still to come and is at most a second newer than the link. */
  lemma {:induction false} AwaitedIsFresh(cfg: Config, s: State, d: Container, g: CallLeg, l: CallLegLink)
    requires Reached(cfg, s) && d == Absorbed(s.container, s.legQueue, s.linkQueue)
    requires g in s.legTable && cfg.start < g.time && g !in s.legSeen + s.legQueue && g.time - 1 <= l.time
    ensures d.maxLegTime - cfg.maxCall <= l.time
  {
    PassMaxLeg(cfg, s, d);
    assert s.legReader.sent[..|s.legReader.sent|] == s.legReader.sent == s.legSeen + s.legQueue;
    LateLeg(cfg, s, |s.legReader.sent|, d.maxLegTime, g);
  }

  /** All links of a call wait for its originating leg, and no record takes them. */
  lemma {:induction false} AwaitedGroup(cfg: Config, s: State, d: Container, c: string, g: CallLeg)
    requires Passing(cfg, s, d) && AwaitedInv(cfg, s, c)
    requires g in s.legTable && g.body.orig && g.body.uniqueid == c && cfg.start < g.time
    requires c !in OrigIds(s.legSeen + s.legQueue)
    ensures Group(d.links, c) == LinksOf(s.linkSeen + s.linkQueue, c) && c !in Origs(d.data)
  {
    hide ReadersInv, MaximaInv, LinksInv, Absorbed, DistinctOrigs, UniqueLegs, LinksOf, Origs, OrigIds;
    AbsorbedIsValid(cfg, s, d);
    OrigIdsConcat(s.legSeen, s.legQueue);
    AbsorbedGroup(s, d, c);
    AbsorbedRecords(cfg, s, d);
  }

  /** Eviction spares the links of a call whose originating leg is still to come. */
  lemma {:induction false} AwaitedSurvives(cfg: Config, s: State, d: Container, links: LinkGroups, c: string, g: CallLeg)
    requires Passing(cfg, s, d) && AwaitedInv(cfg, s, c) && LinksTimely(cfg, s.legTable, s.linkTable, c)
    requires links == d.links - Origs(d.data) && Grouped(links)
    requires g in s.legTable && g.body.orig && g.body.uniqueid == c && cfg.start < g.time
    requires c !in OrigIds(s.legSeen + s.legQueue)
    ensures Group(FreshLinks(links, d.maxLegTime - cfg.maxCall), c) == LinksOf(s.linkSeen + s.linkQueue, c)
  {
    hide PipeInv, Absorbed, RecordsInv, UniqueLegs, Origs, AwaitedInv;
    AwaitedGroup(cfg, s, d, c, g);
    if c in links {
      var l := links[c][0];
      assert l in LinksOf(s.linkSeen + s.linkQueue, c);
      SeenIsOld(cfg, s);
      assert g !in s.legSeen + s.legQueue;
      AwaitedIsFresh(cfg, s, d, g, l);
    }
  }

  // ----- the state after a pass ------------------------------------------------------------

  /** A pass taken apart: the sweep `w` of the absorbed container `d`. */
  ghost predicate Swept(cfg: Config, s: State, d: Container, w: Sweep) {
    Passing(cfg, s, d) && w == SweepAll(d.data, d.legs, d.links)
  }

  lemma {:induction false} SweptParts(cfg: Config, s: State, d: Container, w: Sweep)
    requires Swept(cfg, s, d, w)
    ensures Grouped(w.links) && Collected(w, d.data, d.links)
  {
    hide Passing, SweepAll, DistinctOrigs, Collected;
    AbsorbedRecords(cfg, s, d);
    AbsorbedIsValid(cfg, s, d);
    SweepValid(d.data, d.legs, d.links);
    SweepCollects(d.data, d.legs, d.links);
  }

  /** What a pass makes of the state. */
  ghost predicate Passed(cfg: Config, s: State, d: Container, w: Sweep, looks: Looks, s': State) {
    var saveTime := d.maxLegTime - cfg.maxCall;
    && Grouped(w.links)
    && s'.container.links == FreshLinks(w.links, saveTime) && s'.container.maxLegTime == d.maxLegTime
    && s'.container.data == Select(w.swept, false, saveTime, looks, cfg.maxCall)
    && s'.outbox == Select(w.swept, true, saveTime, looks, cfg.maxCall) && s'.emitted == s.emitted + s'.outbox
    && s'.legSeen == s.legSeen + s.legQueue && s'.linkSeen == s.linkSeen + s.linkQueue
    && s'.legQueue == [] && s'.linkQueue == [] && s'.legTable == s.legTable && s'.linkTable == s.linkTable
    && s'.linkReader == s.linkReader.(paused := s'.linkReader.paused) && s'.now == s.now
  }

  lemma {:induction false} PassParts(cfg: Config, s: State, d: Container, w: Sweep, looks: Looks)
    requires Swept(cfg, s, d, w) && s.container.Valid()
    ensures Passed(cfg, s, d, w, looks, MergeAt(cfg, s, looks))
  {
    hide SweepAll, Select, Absorbed, Passing, Throttle, FreshLegs, FreshLinks, StaleLinks, Collected;
    AbsorbedIsValid(cfg, s, d);
    SweptParts(cfg, s, d, w);
    PassDrains(cfg, s, looks);
  }

  /** The records of the state after the pass that are no older ones are swept ones. */
  lemma {:induction false} PassMembers(cfg: Config, s: State, d: Container, w: Sweep, looks: Looks, s': State, r: CallRecord)
    requires Passed(cfg, s, d, w, looks, s')
    ensures r in s'.container.data ==> r in w.swept
    ensures r in s'.outbox <==> r in w.swept && Finished(r.startTime, d.maxLegTime - cfg.maxCall, looks.AtRecord(r), cfg.maxCall)
    ensures r in w.swept ==> IsRecord(s', r)
    ensures IsRecord(s', r) && r !in s.emitted ==> r in w.swept
  {
    SelectMembers(w.swept, false, d.maxLegTime - cfg.maxCall, looks, cfg.maxCall);
    SelectMembers(w.swept, true, d.maxLegTime - cfg.maxCall, looks, cfg.maxCall);
    hide Select;
  }

  /** Whatever the clocks, a swept record of the call has all links of it that were dequeued. */
  lemma {:induction false} SweptHasLinks(cfg: Config, s: State, d: Container, w: Sweep, c: string, r: CallRecord)
    requires Swept(cfg, s, d, w) && CallInv(cfg, s, c) && r in w.swept && r.orig == c
    ensures r.links == LinksOf(s.linkSeen + s.linkQueue, c) && c in Origs(d.data)
  {
    hide Passing, SweepAll, LinksOf, CallInv;
    SweptParts(cfg, s, d, w);
    var i :| 0 <= i < |w.swept| && w.swept[i] == r;
    assert d.data[i] in d.data;
    SweptRecord(cfg, s, d, c, d.data[i]);
  }

  lemma {:induction false} WorkKeepsCall(cfg: Config, s: State, looks: Looks, c: string)
    requires Reached(cfg, s) && RecordsInv(s) && CallTimely(cfg, s, c) && CallInv(cfg, s, c) && s.container.Valid()
    ensures CallInv(cfg, MergeAt(cfg, s, looks), c)
  {
    hide PipeInv, RecordsInv, LinksTimely, UniqueLegs, CallInv, SweepAll, Absorbed, MergeAt, Passed;
    var d := Absorbed(s.container, s.legQueue, s.linkQueue);
    var w := SweepAll(d.data, d.legs, d.links);
    PassParts(cfg, s, d, w, looks);
    PassedKeepsCall(cfg, s, d, w, looks, MergeAt(cfg, s, looks), c);
  }

  lemma {:induction false} PassedKeepsCall(cfg: Config, s: State, d: Container, w: Sweep, looks: Looks, s': State, c: string)
    requires Swept(cfg, s, d, w) && Passed(cfg, s, d, w, looks, s')
    requires CallInv(cfg, s, c) && LinksTimely(cfg, s.legTable, s.linkTable, c)
    ensures CallInv(cfg, s', c)
  {
    hide Select, SweepAll, Passing, LinksOf, OrigIds, FreshLinks, Group;
    SweptParts(cfg, s, d, w);
    forall r | r in s'.container.data && r.orig == c ensures r.links == LinksOf(s'.linkSeen, c) && c in Origs(d.data) {
      PassMembers(cfg, s, d, w, looks, s', r);
      SweptHasLinks(cfg, s, d, w, c, r);
    }
    FreshIsLeft(w.links, d.maxLegTime - cfg.maxCall);
    forall g | g in s'.legTable && g.body.orig && g.body.uniqueid == c && cfg.start < g.time && c !in OrigIds(s'.legSeen)
      ensures Group(s'.container.links, c) == LinksOf(s'.linkSeen, c)
    {
      AwaitedSurvives(cfg, s, d, w.links, c, g);
    }
  }

  lemma {:induction false} FreshIsLeft(links: LinkGroups, saveTime: int)
    requires Grouped(links)
    ensures FreshLinks(links, saveTime).Keys <= links.Keys
  {
  }

  // ----- every run --------------------------------------------------------------------------

  /** A run in which leg ids are unique and the links of the call `c` timely at every moment. */
  ghost predicate CallRun(cfg: Config, run: seq<State>, events: seq<Event>, c: string) {
    UniqueRun(cfg, run, events) && forall j | 0 <= j < |run| :: LinksTimely(cfg, run[j].legTable, run[j].linkTable, c)
  }

  lemma {:induction false} RunFacts(cfg: Config, run: seq<State>, events: seq<Event>, i: nat)
    requires UniqueRun(cfg, run, events) && i < |run|
    ensures Reached(cfg, run[i]) && RecordsInv(run[i]) && UniqueLegs(run[i].legTable) && |run| == |events| + 1
    ensures i < |events| ==> Happens(cfg, run[i], run[i + 1], events[i])
    ensures i == 0 ==> Init(cfg, run[0])
  {
    hide PipeInv, UniqueLegs, Happens, RecordsInv;
    SplitRunInv(cfg, run, events, i);
    RunRecords(cfg, run, events, i);
  }

  lemma {:induction false} HappensKeepsCall(cfg: Config, s: State, s': State, e: Event, c: string)
    requires Reached(cfg, s) && RecordsInv(s) && CallTimely(cfg, s, c) && CallTimely(cfg, s', c) && CallInv(cfg, s, c)
    requires Happens(cfg, s, s', e)
    ensures CallInv(cfg, s', c)
  {
    hide PipeInv, RecordsInv, LinksTimely, UniqueLegs, CallInv, Grows, MergeAt;
    if e.Works? {
      WorkKeepsCall(cfg, s, e.looks, c);
    } else {
      HappensGrows(cfg, s, s', e);
      WorkOnly(cfg, s, s', e);
      OthersKeepCall(cfg, s, s', c);
    }
  }

  lemma {:induction false} RunCall(cfg: Config, run: seq<State>, events: seq<Event>, c: string, i: nat)
    requires CallRun(cfg, run, events, c) && i < |run|
    ensures CallInv(cfg, run[i], c)
  {
    hide UniqueRun, Reached, RecordsInv, LinksTimely, UniqueLegs, CallInv, Happens, Init;
    RunFacts(cfg, run, events, i);
    if i == 0 {
      ValidRun(cfg, run, events);
      InitCall(cfg, run[0], c);
    } else {
      RunCall(cfg, run, events, c, i - 1);
      RunFacts(cfg, run, events, i - 1);
      HappensKeepsCall(cfg, run[i - 1], run[i], events[i - 1], c);
    }
  }

  lemma {:induction false} ValidRun(cfg: Config, run: seq<State>, events: seq<Event>)
    requires UniqueRun(cfg, run, events)
    ensures cfg.Valid() && IsSplitRun(cfg, run, events)
  {
  }

  // ----- the emission of a record ---------------------------------------------------------

  /** The pass that begins in the `i`-th state of the run emits the record. */
  ghost predicate EmittedIn(cfg: Config, run: seq<State>, events: seq<Event>, i: nat, r: CallRecord) {
    i < |events| && i < |run| && events[i].Works? && run[i].container.Valid() && r in PassAt(cfg, run[i], events[i].looks).emitted
  }

  lemma {:induction false} LeavingIsSwept(cfg: Config, s: State, d: Container, w: Sweep, looks: Looks, r: CallRecord)
    requires QueuesInv(cfg, s) && s.container.Valid() && r in PassAt(cfg, s, looks).emitted
    requires d == Absorbed(s.container, s.legQueue, s.linkQueue) && w == SweepAll(d.data, d.legs, d.links)
    ensures r in w.swept && Finished(r.startTime, d.maxLegTime - cfg.maxCall, looks.AtRecord(r), cfg.maxCall)
  {
    hide SweepAll, Select, Absorbed, Finished, FreshLegs, FreshLinks, StaleLinks;
    PassDrains(cfg, s, looks);
    SelectMembers(w.swept, true, d.maxLegTime - cfg.maxCall, looks, cfg.maxCall);
  }

  /** What a record takes along: the links of its call that were dequeued. */
  lemma {:induction false} LeavesWithLinks(cfg: Config, s: State, looks: Looks, c: string, r: CallRecord)
    requires Reached(cfg, s) && RecordsInv(s) && UniqueLegs(s.legTable) && CallInv(cfg, s, c) && s.container.Valid()
    requires r in PassAt(cfg, s, looks).emitted && r.orig == c
    ensures r.links == LinksOf(s.linkSeen + s.linkQueue, c) && r.startTime + cfg.maxCall < looks.AtRecord(r)
  {
    hide RecordsInv, UniqueLegs, CallInv, SweepAll, Absorbed, LinksOf, PassAt, ReadersInv, MaximaInv, LinksInv;
    var d := Absorbed(s.container, s.legQueue, s.linkQueue);
    var w := SweepAll(d.data, d.legs, d.links);
    LeavingIsSwept(cfg, s, d, w, looks, r);
    SweptHasLinks(cfg, s, d, w, c, r);
  }

  /** The record holds every link of its call in the source table, each once. */
  ghost predicate HoldsAllLinks(s: State, r: CallRecord) {
    NoDup(r.links) && forall l :: l in r.links <==> l in s.linkTable && l.body.uniqueidOrig == r.orig
  }

  /** What the link reader had sent in `s`, and what it has sent since. */
  lemma {:induction false} SentSince(cfg: Config, s: State, t: State)
    requires Reached(cfg, t) && Grows(cfg, s, t)
    ensures var n := |s.linkReader.sent|;
            && t.linkReader.sent == s.linkReader.sent + t.linkReader.sent[n..]
            && NoDup(t.linkReader.sent) && NoDup(s.linkReader.sent) && Disjoint(s.linkReader.sent, t.linkReader.sent[n..])
  {
    hide PipeInv;
    SentOnce(cfg, t);
    NoDupConcat(s.linkReader.sent, t.linkReader.sent[|s.linkReader.sent|..]);
  }

  /** The links of a call that are in the source are those that the link reader had sent when
      its clock was past all of them. */
  lemma {:induction false} LinksAreSent(cfg: Config, k: State, t: State, c: string, g: CallLeg)
    requires Reached(cfg, t) && Grows(cfg, k, t) && LinksTimely(cfg, t.legTable, t.linkTable, c)
    requires g in t.legTable && g.body.orig && g.body.uniqueid == c && cfg.start < g.time
    requires g.time + cfg.maxCall < k.linkReader.startTime
    ensures forall l :: l in k.linkReader.sent && l.body.uniqueidOrig == c <==> l in t.linkTable && l.body.uniqueidOrig == c
  {
    SentSince(cfg, k, t);
    hide MaximaInv, LinksInv, QueuesInv;
    ExactlyOnce(cfg, t.linkReader, t.linkTable, t.now);
    SentBelowReach(cfg, t.linkReader, t.linkTable, t.now);
    hide ReaderInv;
    forall l | l in t.linkTable && l.body.uniqueidOrig == c ensures l in k.linkReader.sent {
      assert l in t.linkReader.sent;
    }
    forall l | l in k.linkReader.sent ensures l in t.linkTable {
      assert l in t.linkReader.sent;
    }
  }

  /** A record that took the links sent by `s`, judged in `t`, when the clock of `k` was past
      its call. */
  lemma {:induction false} CompleteIfSent(cfg: Config, s: State, k: State, t: State, r: CallRecord, g: CallLeg)
    requires Reached(cfg, s) && Reached(cfg, t) && Grows(cfg, s, k) && Grows(cfg, k, t)
    requires LinksTimely(cfg, t.legTable, t.linkTable, r.orig) && r.links == LinksOf(s.linkReader.sent, r.orig)
    requires g in t.legTable && g.body.orig && g.body.uniqueid == r.orig && cfg.start < g.time == r.startTime
    requires r.startTime + cfg.maxCall < k.linkReader.startTime
    ensures |s.linkReader.sent| <= |k.linkReader.sent|
    ensures HoldsAllLinks(t, r) <==> forall l | l in k.linkReader.sent[|s.linkReader.sent|..] :: l.body.uniqueidOrig != r.orig
    ensures r.startTime + cfg.maxCall < s.linkReader.startTime ==> HoldsAllLinks(t, r)
  {
    hide PipeInv, LinksOf;
    LinksAreSent(cfg, k, t, r.orig, g);
    SentSince(cfg, k, t);
    var sent, since := s.linkReader.sent, k.linkReader.sent[|s.linkReader.sent|..];
    assert k.linkReader.sent == sent + since;
    NoDupConcat(sent, since);
    LinksOfNoDup(sent, r.orig);
    forall l | l in since ensures r.startTime + cfg.maxCall < s.linkReader.startTime ==> l.body.uniqueidOrig != r.orig {
      assert l in k.linkReader.sent;
    }
  }

  // ----- the theorems ------------------------------------------------------------------

  lemma {:induction false} EmittedHasLeg(cfg: Config, run: seq<State>, events: seq<Event>, i: nat, j: nat, r: CallRecord) returns (g: CallLeg)
    requires UniqueRun(cfg, run, events) && EmittedIn(cfg, run, events, i, r) && i < j < |run|
    ensures r in run[j].emitted && g in run[j].legTable && g in run[j].legSeen
    ensures g.body.orig && g.body.uniqueid == r.orig && cfg.start < g.time == r.startTime
  {
    hide UniqueRun, Reached, RecordsInv, UniqueLegs, PassAt, Grows;
    ValidRun(cfg, run, events);
    RunFacts(cfg, run, events, i);
    RunFacts(cfg, run, events, j);
    hide IsSplitRun;
    RunGrows(cfg, run, events, i + 1, j);
    EmittedStays(cfg, run[i], run[i + 1], run[j], events[i].looks, r);
    assert IsRecord(run[j], r);
    g := LegOf(cfg, run[j], r);
  }

  lemma {:induction false} EmittedStays(cfg: Config, s: State, s': State, t: State, looks: Looks, r: CallRecord)
    requires s.container.Valid() && s' == MergeAt(cfg, s, looks) && r in PassAt(cfg, s, looks).emitted && Grows(cfg, s', t)
    ensures r in s'.emitted && r in t.emitted
  {
    hide RunPass, Throttle, SendsOn;
    assert r in s'.emitted;
    assert t.emitted[..|s'.emitted|] == s'.emitted;
  }

  /** Exactly when an emitted record is complete, for one call whose links are timely and every
      run, however passes overlap with the readers: if and only if no link of the call was
      enqueued between the moment `i` when the pass emptied the queues and the moment `k`
      when it looked at the clock for the record (or any later one). It is then complete from
      `k` on, for ever. It is certain if the clock had passed the call by `maxCall` before. */
  lemma {:induction false} EmittedLinksAreComplete(cfg: Config, run: seq<State>, events: seq<Event>, i: nat, k: nat, j: nat, r: CallRecord)
    requires CallRun(cfg, run, events, r.orig) && EmittedIn(cfg, run, events, i, r)
    requires i <= k <= j < |run| && i < j && events[i].looks.AtRecord(r) <= run[k].linkReader.startTime
    ensures r in run[j].emitted && |run[i].linkReader.sent| <= |run[k].linkReader.sent|
    ensures HoldsAllLinks(run[j], r)
            <==> forall l | l in run[k].linkReader.sent[|run[i].linkReader.sent|..] :: l.body.uniqueidOrig != r.orig
    ensures r.startTime + cfg.maxCall < run[i].linkReader.startTime ==> HoldsAllLinks(run[j], r)
  {
    hide UniqueRun, RecordsInv, UniqueLegs, LinksTimely, PassAt, Grows, HoldsAllLinks, CallInv, Happens, MaximaInv, LinksInv, QueuesInv, ReaderInv;
    ValidRun(cfg, run, events);
    RunFacts(cfg, run, events, i);
    RunFacts(cfg, run, events, j);
    RunCall(cfg, run, events, r.orig, i);
    hide IsSplitRun;
    LeavesWithLinks(cfg, run[i], events[i].looks, r.orig, r);
    RunGrows(cfg, run, events, i, k);
    RunGrows(cfg, run, events, k, j);
    var g := EmittedHasLeg(cfg, run, events, i, j, r);
    CompleteIfSent(cfg, run[i], run[k], run[j], r, g);
  }

  // ----- passes that were not disturbed ---------------------------------------------------

  /** The pass that emptied the queues in state `i` had looked at the clock for the last time by
      state `k`, and no link of the call was enqueued in between. */
  ghost predicate LookedBy(run: seq<State>, events: seq<Event>, i: nat, k: nat, c: string) {
    && i < |events| && events[i].Works? && i <= k < |run| && events[i].looks.By(run[k].linkReader.startTime)
    && |run[i].linkReader.sent| <= |run[k].linkReader.sent|
    && forall l | l in run[k].linkReader.sent[|run[i].linkReader.sent|..] :: l.body.uniqueidOrig != c
  }

  /** So it was with each of the passes among the first `n` events, all of which were done
      with the clock by state `j`. */
  ghost predicate Undisturbed(run: seq<State>, events: seq<Event>, n: nat, j: nat, c: string) {
    forall i | 0 <= i < n && i < |events| && events[i].Works? :: exists k: nat :: k <= j && LookedBy(run, events, i, k, c)
  }

  /** Every emitted record left in some pass. */
  lemma {:induction false} EmittedBy(cfg: Config, run: seq<State>, events: seq<Event>, j: nat, r: CallRecord) returns (i: nat)
    requires cfg.Valid() && IsSplitRun(cfg, run, events) && j < |run| && r in run[j].emitted
    ensures i < j && EmittedIn(cfg, run, events, i, r)
    decreases j
  {
    hide PipeInv, Happens, MergeAt;
    if j == 0 {
      assert false;
    } else {
      EventOf(cfg, run, events, j);
      EmittedOnce(cfg, run[j - 1], run[j], events[j - 1]);
      if r in run[j - 1].emitted {
        i := EmittedBy(cfg, run, events, j - 1, r);
      } else {
        i := j - 1;
      }
    }
  }

  lemma {:induction false} EmittedOnce(cfg: Config, s: State, s': State, e: Event)
    requires Happens(cfg, s, s', e)
    ensures e.Works? ==> s.container.Valid() && s'.emitted == s.emitted + PassAt(cfg, s, e.looks).emitted
    ensures !e.Works? ==> s'.emitted == s.emitted
  {
    hide RunPass, ReaderNext;
  }

  /** Watermark completeness: in every run, whatever the rows of other calls, the record of a
      timely call is complete from the moment when it is emitted, if no pass was disturbed. */
  lemma {:induction false} EmittedRecordHasAllLinks(cfg: Config, run: seq<State>, events: seq<Event>, j: nat, r: CallRecord)
    requires CallRun(cfg, run, events, r.orig) && j < |run| && Undisturbed(run, events, j, j, r.orig)
    requires r in run[j].emitted
    ensures HoldsAllLinks(run[j], r)
  {
    hide CallRun, IsSplitRun, HoldsAllLinks, PassAt;
    CallIsUniqueRun(cfg, run, events, r.orig);
    var i := EmittedBy(cfg, run, events, j, r);
    var k: nat :| k <= j && LookedBy(run, events, i, k, r.orig);
    EmittedLinksAreComplete(cfg, run, events, i, k, j, r);
  }

  lemma {:induction false} CallIsUniqueRun(cfg: Config, run: seq<State>, events: seq<Event>, c: string)
    requires CallRun(cfg, run, events, c)
    ensures UniqueRun(cfg, run, events) && cfg.Valid() && IsSplitRun(cfg, run, events)
  {
  }

  lemma {:induction false} CountInAtLeast(recs: seq<CallRecord>, r: CallRecord, l: CallLegLink)
    requires r in recs
    ensures CountIn(recs, l) >= multiset(r.links)[l]
  {
    var n := |recs| - 1;
    if r != recs[n] {
      assert recs == recs[..n] + [recs[n]];
      CountInAtLeast(recs[..n], r, l);
    }
  }

  lemma {:induction false} CountAtMostOnce<T>(s: seq<T>, x: T)
    requires NoDup(s)
    ensures multiset(s)[x] == if x in s then 1 else 0
  {
    if s != [] {
      var n := |s| - 1;
      assert s == s[..n] + [s[n]];
      CountAtMostOnce(s[..n], x);
    }
  }

  /** The links of a call are accounted for: by its record, or by the group that waits. */
  lemma {:induction false} CallAccountsFor(cfg: Config, s: State, l: CallLegLink, g: CallLeg)
    requires Reached(cfg, s) && RecordsInv(s) && CallInv(cfg, s, l.body.uniqueidOrig)
    requires g in s.legTable && g.body.orig && g.body.uniqueid == l.body.uniqueidOrig && cfg.start < g.time
    requires forall r | r in s.emitted && r.orig == l.body.uniqueidOrig :: HoldsAllLinks(s, r)
    ensures Held(s.container, l) + CountIn(s.emitted, l) >= multiset(s.linkSeen)[l]
  {
    hide ReaderInv, MaximaInv, LinksInv, QueuesInv, CountIn, DistinctOrigs, OrigIds;
    var c := l.body.uniqueidOrig;
    LinksOfCounts(s.linkSeen, l);
    if c !in OrigIds(s.legSeen) {
      assert Group(s.container.links, c) == LinksOf(s.linkSeen, c);
    } else if c in Origs(s.container.data) {
      var r :| r in s.container.data && r.orig == c;
      CountInAtLeast(s.container.data, r, l);
    } else {
      var r :| r in s.emitted && r.orig == c;
      SeenOnce(cfg, s);
      CountAtMostOnce(s.linkSeen, l);
      CountAtMostOnce(r.links, l);
      CountInAtLeast(s.emitted, r, l);
    }
  }

  lemma {:induction false} SeenOnce(cfg: Config, s: State)
    requires Reached(cfg, s)
    ensures NoDup(s.linkSeen) && forall l | l in s.linkSeen :: l in s.linkTable
  {
    hide MaximaInv, LinksInv, QueuesInv, ReaderInv;
    SentOnce(cfg, s);
    NoDupConcat(s.linkSeen, s.linkQueue);
    SeenIsOld(cfg, s);
  }

  /** Eviction of stale links only ever drops links that no record will want: the originating
      leg of a timely call to which a dropped link belongs lies before the start. */
  lemma {:induction false} DroppedForGood(cfg: Config, run: seq<State>, events: seq<Event>, j: nat, l: CallLegLink, g: CallLeg)
    requires CallRun(cfg, run, events, l.body.uniqueidOrig) && j < |run| && Undisturbed(run, events, j, j, l.body.uniqueidOrig)
    requires CountDropped(run[j].dropped, l) > 0
    requires g in run[j].legTable && g.body.orig && g.body.uniqueid == l.body.uniqueidOrig
    ensures g.time <= cfg.start
  {
    hide CallRun, Undisturbed, UniqueRun, RecordsInv, CallInv, ReadersInv, MaximaInv, Held, CountIn, CountDropped, HoldsAllLinks;
    var s, c := run[j], l.body.uniqueidOrig;
    CallIsUniqueRun(cfg, run, events, c);
    RunFacts(cfg, run, events, j);
    RunCall(cfg, run, events, c, j);
    if g.time > cfg.start {
      forall r | r in s.emitted && r.orig == c ensures HoldsAllLinks(s, r) {
        EmittedRecordHasAllLinks(cfg, run, events, j, r);
      }
      CallAccountsFor(cfg, s, l, g);
    }
  }

  // ----- passes that are one step --------------------------------------------------------

  /** A run of single steps in which leg ids are unique and the links of the call `c` timely. */
  ghost predicate TimelyRun(cfg: Config, run: seq<State>, steps: seq<Step>, c: string) {
    cfg.Valid() && IsRun(cfg, run, steps) && forall j | 0 <= j < |run| :: CallTimely(cfg, run[j], c)
  }

  /** Nothing comes in between in such a run. */
  lemma {:induction false} TimelyIsCallRun(cfg: Config, run: seq<State>, steps: seq<Step>, c: string)
    requires TimelyRun(cfg, run, steps, c)
    ensures |run| == |steps| + 1 && CallRun(cfg, run, Events(run, steps), c)
    ensures forall n: nat, j: nat | n <= j < |run| :: Undisturbed(run, Events(run, steps), n, j, c)
  {
    hide Init, Next, Happens, UniqueLegs, LinksTimely;
    StepsAreEvents(cfg, run, steps);
    forall i | 0 <= i < |steps| && steps[i].MergeStep? ensures LookedBy(run, Events(run, steps), i, i, c) {
    }
  }

  /** If all calls are timely, so are all records. */
  lemma {:induction false} EmittedRecordsAreComplete(cfg: Config, run: seq<State>, steps: seq<Step>, j: nat)
    requires (forall c :: TimelyRun(cfg, run, steps, c)) && j < |run|
    ensures forall r | r in run[j].emitted :: HoldsAllLinks(run[j], r)
  {
    hide TimelyRun, CallRun, Undisturbed, HoldsAllLinks;
    forall r | r in run[j].emitted ensures HoldsAllLinks(run[j], r) {
      TimelyIsCallRun(cfg, run, steps, r.orig);
      EmittedRecordHasAllLinks(cfg, run, Events(run, steps), j, r);
    }
  }

  // ----- no assumption on times -------------------------------------------------------------

  lemma {:induction false} NoneHoldsAnother(recs: seq<CallRecord>, l: CallLegLink)
    requires OwnLinks(recs) && l.body.uniqueidOrig !in Origs(recs)
    ensures CountIn(recs, l) == 0
  {
    if recs != [] {
      var n := |recs| - 1;
      assert recs == recs[..n] + [recs[n]];
      NoneHoldsAnother(recs[..n], l);
      assert recs[n] in recs;
    }
  }

  /** Only one record can hold a link of its call. */
  lemma {:induction false} OneHolder(recs: seq<CallRecord>, r: CallRecord, l: CallLegLink)
    requires OwnLinks(recs) && DistinctOrigs(recs) && r in recs && l.body.uniqueidOrig == r.orig
    ensures CountIn(recs, l) == multiset(r.links)[l]
  {
    var n := |recs| - 1;
    var front := recs[..n];
    assert recs == front + [recs[n]];
    if recs[n] == r {
      forall x | x in front ensures x.orig != r.orig {
        var i :| 0 <= i < n && front[i] == x;
        assert recs[i] == x;
      }
      NoneHoldsAnother(front, l);
    } else {
      assert r in front;
      OneHolder(front, r, l);
      var i :| 0 <= i < n && front[i] == r;
      assert recs[i] == r && recs[n] in recs;
    }
  }

  /** With unique ids, and nothing assumed of times: when a record has been emitted, it holds a
      link of its call if and only if the link had been dequeued and was not dropped. */
  lemma {:induction false} HeldOrDropped(cfg: Config, s: State, r: CallRecord, l: CallLegLink)
    requires Reached(cfg, s) && RecordsInv(s) && r in s.emitted && l.body.uniqueidOrig == r.orig
    requires r.orig !in s.container.links
    ensures l in r.links <==> l in s.linkSeen && CountDropped(s.dropped, l) == 0
  {
    hide ReaderInv, MaximaInv, QueuesInv, CountIn, CountDropped, DistinctOrigs;
    SeenOnce(cfg, s);
    CountAtMostOnce(s.linkSeen, l);
    CountInConcat(s.container.data, s.emitted, l);
    OwnLinksConcat(s.container.data, s.emitted);
    OneHolder(s.container.data + s.emitted, r, l);
    assert InGroup(s.container.links, l) == 0;
    assert multiset(s.linkSeen)[l] == Held(s.container, l) + CountIn(s.emitted, l) + CountDropped(s.dropped, l);
  }

  lemma {:induction false} LeavesNoGroup(cfg: Config, s: State, looks: Looks, r: CallRecord)
    requires Reached(cfg, s) && RecordsInv(s) && UniqueLegs(s.legTable) && s.container.Valid() && r in PassAt(cfg, s, looks).emitted
    ensures var s' := MergeAt(cfg, s, looks); r in s'.emitted && r.orig !in s'.container.links
  {
    hide RecordsInv, UniqueLegs, SweepAll, Absorbed, PassAt, MergeAt, ReadersInv, MaximaInv, LinksInv;
    var d := Absorbed(s.container, s.legQueue, s.linkQueue);
    var w := SweepAll(d.data, d.legs, d.links);
    var s' := MergeAt(cfg, s, looks);
    LeavingIsSwept(cfg, s, d, w, looks, r);
    PassParts(cfg, s, d, w, looks);
    PassMembers(cfg, s, d, w, looks, s', r);
    SweptParts(cfg, s, d, w);
    FreshIsLeft(w.links, d.maxLegTime - cfg.maxCall);
    hide Passing, Select, FreshLinks, Finished;
    var i :| 0 <= i < |w.swept| && w.swept[i] == r;
    assert d.data[i] in d.data;
  }

  /** In every run with unique ids, timely or not: an emitted record holds a link of its call
      if and only if the pass that emitted it had dequeued the link and none had dropped it. */
  lemma {:induction false} EmittedHoldsDequeued(cfg: Config, run: seq<State>, events: seq<Event>, i: nat, r: CallRecord, l: CallLegLink)
    requires UniqueRun(cfg, run, events) && EmittedIn(cfg, run, events, i, r) && i + 1 < |run| && l.body.uniqueidOrig == r.orig
    ensures l in r.links <==> l in run[i].linkSeen + run[i].linkQueue && CountDropped(run[i + 1].dropped, l) == 0
  {
    hide UniqueRun, Reached, RecordsInv, UniqueLegs, PassAt, MergeAt, CountDropped;
    RunFacts(cfg, run, events, i);
    RunFacts(cfg, run, events, i + 1);
    LeavesNoGroup(cfg, run[i], events[i].looks, r);
    HeldOrDropped(cfg, run[i + 1], r, l);
    WorkDequeues(cfg, run[i], events[i].looks);
  }

  lemma {:induction false} WorkDequeues(cfg: Config, s: State, looks: Looks)
    requires Reached(cfg, s) && s.container.Valid()
    ensures var s' := MergeAt(cfg, s, looks); s'.linkSeen == s.linkSeen + s.linkQueue && s'.legSeen == s.legSeen + s.legQueue
  {
    hide ReadersInv, MaximaInv, LinksInv;
    PassDrains(cfg, s, looks);
  }
}
