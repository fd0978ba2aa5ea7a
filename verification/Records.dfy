/** Conservation of records: one for each originating leg that was dequeued, live or
    emitted, and with unique leg ids no call twice. All of it holds however passes overlap
    with the readers. */
module Records {
  import opened Rows
  import opened Readers
  import opened MergeContainers
  import opened ContainerLaws
  import opened Pipeline
  import opened SplitRuns

  ghost predicate UniqueLegs(legs: set<CallLeg>) {
    forall a, b | a in legs && b in legs && a.body.uniqueid == b.body.uniqueid :: a == b
  }

  lemma {:induction false} SameUniqueLeg(legs: set<CallLeg>, a: CallLeg, b: CallLeg)
    requires UniqueLegs(legs) && a in legs && b in legs && a.body.uniqueid == b.body.uniqueid
    ensures a == b
  {
  }

  // ----- facts about what was dequeued --------------------------------------------------

  ghost predicate Reached(cfg: Config, s: State) {
    cfg.Valid() && PipeInv(cfg, s)
  }

  /** What was sent is too old to change. */
  lemma {:induction false} SentIsOld<T(!new)>(cfg: Config, r: Reader<T>, table: set<Row<T>>, now: int)
    requires cfg.Valid() && ReaderInv(cfg, r, table, now)
    ensures forall x | x in r.sent :: x in table && cfg.start < x.time < now - cfg.waiting
  {
    SentBelowReach(cfg, r, table, now);
  }

  lemma {:induction false} SeenIsOld(cfg: Config, s: State)
    requires Reached(cfg, s)
    ensures forall g | g in s.legSeen || g in s.legQueue :: g in s.legTable && cfg.start < g.time < s.now - cfg.waiting
    ensures forall l | l in s.linkSeen || l in s.linkQueue :: l in s.linkTable && cfg.start < l.time < s.now - cfg.waiting
  {
    SentIsOld(cfg, s.legReader, s.legTable, s.now);
    SentIsOld(cfg, s.linkReader, s.linkTable, s.now);
    assert forall g :: g in s.legReader.sent <==> g in s.legSeen || g in s.legQueue;
    assert forall l :: l in s.linkReader.sent <==> l in s.linkSeen || l in s.linkQueue;
  }

  function OrigIds(legs: seq<CallLeg>): set<string> {
    set g | g in legs && g.body.orig :: g.body.uniqueid
  }

  lemma {:induction false} OrigIdsConcat(a: seq<CallLeg>, b: seq<CallLeg>)
    ensures OrigIds(a + b) == OrigIds(a) + OrigIds(b)
  {
    assert forall g :: g in a + b <==> g in a || g in b;
  }

  ghost predicate IsRecord(s: State, r: CallRecord) {
    r in s.container.data || r in s.emitted
  }

  // ----- counting -----------------------------------------------------------------------

  /** How often the call `orig`, started at `time`, is among the records. */
  function CountCalls(recs: seq<CallRecord>, orig: string, time: int): nat {
    if recs == [] then 0
    else
      var last := recs[|recs| - 1];
      CountCalls(recs[..|recs| - 1], orig, time) + (if last.orig == orig && last.startTime == time then 1 else 0)
  }

  /** How often an originating leg of that id and time is among the legs. */
  function CountLegs(legs: seq<CallLeg>, orig: string, time: int): nat {
    if legs == [] then 0
    else
      var last := legs[|legs| - 1];
      CountLegs(legs[..|legs| - 1], orig, time) + (if last.body.orig && last.body.uniqueid == orig && last.time == time then 1 else 0)
  }

  // ----- a pass ------------------------------------------------------------------------

  lemma {:induction false} CountCallsSnoc(recs: seq<CallRecord>, r: CallRecord, orig: string, time: int)
    ensures CountCalls(recs + [r], orig, time) == CountCalls(recs, orig, time) + (if r.orig == orig && r.startTime == time then 1 else 0)
  {
    assert (recs + [r])[..|recs|] == recs;
  }

  lemma {:induction false} CountCallsConcat(a: seq<CallRecord>, b: seq<CallRecord>, orig: string, time: int)
    ensures CountCalls(a + b, orig, time) == CountCalls(a, orig, time) + CountCalls(b, orig, time)
  {
    if b == [] {
      assert a + b == a;
    } else {
      var n := |b| - 1;
      assert a + b == (a + b[..n]) + [b[n]];
      CountCallsSnoc(a + b[..n], b[n], orig, time);
      CountCallsConcat(a, b[..n], orig, time);
    }
  }

  lemma {:induction false} CountLegsConcat(a: seq<CallLeg>, b: seq<CallLeg>, orig: string, time: int)
    ensures CountLegs(a + b, orig, time) == CountLegs(a, orig, time) + CountLegs(b, orig, time)
  {
    if b == [] {
      assert a + b == a;
    } else {
      var n := |b| - 1;
      assert (a + b)[..|a| + n] == a + b[..n];
      CountLegsConcat(a, b[..n], orig, time);
    }
  }

  lemma {:induction false} AbsorbCounts(c: Container, legs: seq<CallLeg>, orig: string, time: int)
    requires c.Valid()
    ensures CountCalls(AbsorbLegs(c, legs).data, orig, time) == CountCalls(c.data, orig, time) + CountLegs(legs, orig, time)
  {
    if legs != [] {
      var n := |legs| - 1;
      AbsorbCounts(c, legs[..n], orig, time);
      CountCallsSnoc(AbsorbLegs(c, legs[..n]).data, Open(legs[n]), orig, time);
    }
  }

  lemma {:induction false} SweepCounts(recs: seq<CallRecord>, legs: map<string, CallLeg>, links: LinkGroups, orig: string, time: int)
    ensures CountCalls(SweepAll(recs, legs, links).swept, orig, time) == CountCalls(recs, orig, time)
  {
    if recs != [] {
      var n := |recs| - 1;
      var p := SweepAll(recs[..n], legs, links);
      SweepCounts(recs[..n], legs, links, orig, time);
      CountCallsSnoc(p.swept, SweepOne(p, recs[n]).swept[n], orig, time);
    }
  }

  lemma {:induction false} SelectSnoc(front: seq<CallRecord>, r: CallRecord, done: bool, saveTime: int, looks: Looks, maxCall: int)
    ensures Select(front + [r], done, saveTime, looks, maxCall)
            == Select(front, done, saveTime, looks, maxCall)
               + if Finished(r.startTime, saveTime, looks.AtRecord(r), maxCall) == done then [r] else []
  {
    assert (front + [r])[..|front|] == front;
  }

  lemma {:induction false} SelectCountsCalls(recs: seq<CallRecord>, saveTime: int, looks: Looks, maxCall: int, orig: string, time: int)
    ensures CountCalls(recs, orig, time) == CountCalls(Select(recs, false, saveTime, looks, maxCall), orig, time)
                                          + CountCalls(Select(recs, true, saveTime, looks, maxCall), orig, time)
  {
    hide CountCalls, Select, Finished;
    if recs == [] {
      NothingCounts(saveTime, looks, maxCall, orig, time);
    } else {
      var n := |recs| - 1;
      var front, r := recs[..n], recs[n];
      assert recs == front + [r];
      SelectCountsCalls(front, saveTime, looks, maxCall, orig, time);
      var kept, gone := Select(front, false, saveTime, looks, maxCall), Select(front, true, saveTime, looks, maxCall);
      assert kept + [] == kept && gone + [] == gone;
      SelectSnoc(front, r, false, saveTime, looks, maxCall);
      SelectSnoc(front, r, true, saveTime, looks, maxCall);
      CountCallsSnoc(front, r, orig, time);
      CountCallsSnoc(kept, r, orig, time);
      CountCallsSnoc(gone, r, orig, time);
    }
  }

  lemma {:induction false} NothingCounts(saveTime: int, looks: Looks, maxCall: int, orig: string, time: int)
    ensures CountCalls([], orig, time) == 0 && forall done :: Select([], done, saveTime, looks, maxCall) == []
  {
  }

  /** A pass opens one record for each originating leg that it dequeued, and loses none: it
      is live or emitted, and still has its id and its start. */
  lemma {:induction false} PassConservesRecords(c: Container, legsIn: seq<CallLeg>, linksIn: seq<CallLegLink>, looks: Looks, maxCall: int,
                                                orig: string, time: int)
    requires c.Valid()
    ensures var p := RunPass(c, legsIn, linksIn, looks, maxCall);
            CountCalls(c.data, orig, time) + CountLegs(legsIn, orig, time)
            == CountCalls(p.container.data, orig, time) + CountCalls(p.emitted, orig, time)
  {
    hide SweepAll, Select, CountCalls;
    var d := Absorbed(c, legsIn, linksIn);
    AbsorbCounts(c, legsIn, orig, time);
    SweepCounts(d.data, d.legs, d.links, orig, time);
    SelectCountsCalls(SweepAll(d.data, d.legs, d.links).swept, d.maxLegTime - maxCall, looks, maxCall, orig, time);
  }

  // ----- every run ------------------------------------------------------------------------

  lemma {:induction false} WorkCountsCalls(cfg: Config, s: State, looks: Looks, orig: string, time: int)
    requires QueuesInv(cfg, s) && s.container.Valid()
    requires CountCalls(s.container.data, orig, time) + CountCalls(s.emitted, orig, time) == CountLegs(s.legSeen, orig, time)
    ensures var s' := MergeAt(cfg, s, looks);
            CountCalls(s'.container.data, orig, time) + CountCalls(s'.emitted, orig, time) == CountLegs(s'.legSeen, orig, time)
  {
    hide RunPass, CountCalls, CountLegs, Throttle;
    PassDrains(cfg, s, looks);
    var p := PassAt(cfg, s, looks);
    PassConservesRecords(s.container, s.legQueue, s.linkQueue, looks, cfg.maxCall, orig, time);
    CountCallsConcat(s.emitted, p.emitted, orig, time);
    CountLegsConcat(s.legSeen, s.legQueue, orig, time);
  }

  /** What no event but a pass touches. */
  lemma {:induction false} WorkOnly(cfg: Config, s: State, s': State, e: Event)
    requires Happens(cfg, s, s', e) && !e.Works?
    ensures s'.container == s.container && s'.emitted == s.emitted && s'.dropped == s.dropped
    ensures s'.legSeen == s.legSeen && s'.linkSeen == s.linkSeen
  {
  }

  lemma {:induction false} NoneAtFirst(cfg: Config, run: seq<State>, events: seq<Event>, orig: string, time: int)
    requires IsSplitRun(cfg, run, events)
    ensures CountCalls(run[0].container.data, orig, time) == CountCalls(run[0].emitted, orig, time) == CountLegs(run[0].legSeen, orig, time) == 0
  {
  }

  /** In every run, whatever the rows: each originating leg that was dequeued has its record,
      live or emitted, as often as it came. */
  lemma {:induction false} RecordsAreConserved(cfg: Config, run: seq<State>, events: seq<Event>, i: nat, orig: string, time: int)
    requires cfg.Valid() && IsSplitRun(cfg, run, events) && i < |run|
    ensures CountCalls(run[i].container.data, orig, time) + CountCalls(run[i].emitted, orig, time) == CountLegs(run[i].legSeen, orig, time)
  {
    hide IsSplitRun, ReadersInv, MaximaInv, LinksInv, CountCalls, CountLegs, MergeAt, Next;
    if i == 0 {
      NoneAtFirst(cfg, run, events, orig, time);
    } else {
      RecordsAreConserved(cfg, run, events, i - 1, orig, time);
      EventOf(cfg, run, events, i);
      if events[i - 1].Works? {
        WorkCountsCalls(cfg, run[i - 1], events[i - 1].looks, orig, time);
      } else {
        WorkOnly(cfg, run[i - 1], run[i], events[i - 1]);
      }
    }
  }

  // ----- no call twice ---------------------------------------------------------------------

  /** A run in which no two legs have the same id at any moment. */
  ghost predicate UniqueRun(cfg: Config, run: seq<State>, events: seq<Event>) {
    cfg.Valid() && IsSplitRun(cfg, run, events) && forall j | 0 <= j < |run| :: UniqueLegs(run[j].legTable)
  }

  lemma {:induction false} CountsAt(recs: seq<CallRecord>, i: nat)
    requires i < |recs|
    ensures CountCalls(recs, recs[i].orig, recs[i].startTime) > 0
  {
    if i < |recs| - 1 {
      CountsAt(recs[..|recs| - 1], i);
    }
  }

  lemma {:induction false} CountsTwice(recs: seq<CallRecord>, i: nat, j: nat)
    requires i < j < |recs| && recs[i].orig == recs[j].orig && recs[i].startTime == recs[j].startTime
    ensures CountCalls(recs, recs[i].orig, recs[i].startTime) > 1
  {
    var n := |recs| - 1;
    if j < n {
      CountsTwice(recs[..n], i, j);
    } else {
      CountsAt(recs[..n], i);
    }
  }

  lemma {:induction false} LegCounted(legs: seq<CallLeg>, orig: string, time: int) returns (g: CallLeg)
    requires CountLegs(legs, orig, time) > 0
    ensures g in legs && g.body.orig && g.body.uniqueid == orig && g.time == time
  {
    g := legs[|legs| - 1];
    if !(g.body.orig && g.body.uniqueid == orig && g.time == time) {
      g := LegCounted(legs[..|legs| - 1], orig, time);
    }
  }

  lemma {:induction false} CountedOnce(legs: seq<CallLeg>, orig: string, time: int)
    requires forall i, j | 0 <= i < j < |legs| :: legs[i].body.uniqueid != legs[j].body.uniqueid
    ensures CountLegs(legs, orig, time) <= 1
  {
    if legs != [] {
      var n := |legs| - 1;
      CountedOnce(legs[..n], orig, time);
      if CountLegs(legs[..n], orig, time) > 0 {
        var g := LegCounted(legs[..n], orig, time);
        var i :| 0 <= i < n && legs[i] == g;
      }
    }
  }

  lemma {:induction false} SeenIsUnique(cfg: Config, s: State)
    requires Reached(cfg, s) && UniqueLegs(s.legTable)
    ensures forall i, j | 0 <= i < j < |s.legSeen| :: s.legSeen[i].body.uniqueid != s.legSeen[j].body.uniqueid
  {
    hide ReaderInv, LinksInv, MaximaInv;
    SeenIsOld(cfg, s);
    SentOnce(cfg, s);
    NoDupConcat(s.legSeen, s.legQueue);
  }

  lemma {:induction false} SentOnce(cfg: Config, s: State)
    requires Reached(cfg, s)
    ensures NoDup(s.legReader.sent) && NoDup(s.linkReader.sent)
  {
  }

  lemma {:induction false} RecordHasLeg(cfg: Config, run: seq<State>, events: seq<Event>, k: nat, i: nat) returns (g: CallLeg)
    requires cfg.Valid() && IsSplitRun(cfg, run, events) && k < |run| && i < |run[k].container.data + run[k].emitted|
    ensures var r := (run[k].container.data + run[k].emitted)[i];
            g in run[k].legSeen && g.body.orig && g.body.uniqueid == r.orig && g.time == r.startTime
  {
    hide IsSplitRun, CountCalls, CountLegs;
    var s := run[k];
    var recs := s.container.data + s.emitted;
    CountsAt(recs, i);
    CountCallsConcat(s.container.data, s.emitted, recs[i].orig, recs[i].startTime);
    RecordsAreConserved(cfg, run, events, k, recs[i].orig, recs[i].startTime);
    g := LegCounted(s.legSeen, recs[i].orig, recs[i].startTime);
  }

  /** In every run with unique leg ids, no call has two records, be they live or emitted. */
  lemma {:induction false} NoCallTwice(cfg: Config, run: seq<State>, events: seq<Event>, k: nat)
    requires UniqueRun(cfg, run, events) && k < |run|
    ensures DistinctOrigs(run[k].container.data + run[k].emitted)
  {
    hide IsSplitRun, PipeInv, UniqueLegs, CountCalls, CountLegs;
    var s := run[k];
    var recs := s.container.data + s.emitted;
    SplitRunInv(cfg, run, events, k);
    SeenIsUnique(cfg, s);
    forall i, j | 0 <= i < j < |recs| ensures recs[i].orig != recs[j].orig {
      if recs[i].orig == recs[j].orig {
        var a := RecordHasLeg(cfg, run, events, k, i);
        var b := RecordHasLeg(cfg, run, events, k, j);
        CountsTwice(recs, i, j);
        CountCallsConcat(s.container.data, s.emitted, recs[i].orig, recs[i].startTime);
        RecordsAreConserved(cfg, run, events, k, recs[i].orig, recs[i].startTime);
        CountedOnce(s.legSeen, recs[i].orig, recs[i].startTime);
        assert false;
      }
    }
  }

  // ----- the records of a state ----------------------------------------------------------------

  /** There is one record for every originating leg that was dequeued, with its start. */
  ghost predicate RecordsInv(s: State) {
    && DistinctOrigs(s.container.data + s.emitted)
    && Origs(s.container.data) + Origs(s.emitted) == OrigIds(s.legSeen)
    && forall r, g | IsRecord(s, r) && g in s.legTable && g.body.orig && g.body.uniqueid == r.orig :: g.time == r.startTime
  }

  lemma {:induction false} CallCounted(recs: seq<CallRecord>, orig: string, time: int)
    requires CountCalls(recs, orig, time) > 0
    ensures orig in Origs(recs)
  {
    var r := recs[|recs| - 1];
    assert r in recs;
    if r.orig != orig || r.startTime != time {
      CallCounted(recs[..|recs| - 1], orig, time);
    }
  }

  lemma {:induction false} LegCounts(legs: seq<CallLeg>, g: CallLeg)
    requires g in legs && g.body.orig
    ensures CountLegs(legs, g.body.uniqueid, g.time) > 0
  {
    var n := |legs| - 1;
    if legs[n] != g {
      assert legs == legs[..n] + [legs[n]];
      LegCounts(legs[..n], g);
    }
  }

  lemma {:induction false} RunRecords(cfg: Config, run: seq<State>, events: seq<Event>, k: nat)
    requires UniqueRun(cfg, run, events) && k < |run|
    ensures RecordsInv(run[k])
  {
    hide IsSplitRun, PipeInv, CountCalls, CountLegs, DistinctOrigs;
    var s := run[k];
    var recs := s.container.data + s.emitted;
    SplitRunInv(cfg, run, events, k);
    SeenIsOld(cfg, s);
    NoCallTwice(cfg, run, events, k);
    forall id | id in OrigIds(s.legSeen) ensures id in Origs(s.container.data) + Origs(s.emitted) {
      var g :| g in s.legSeen && g.body.orig && g.body.uniqueid == id;
      LegCounts(s.legSeen, g);
      RecordsAreConserved(cfg, run, events, k, id, g.time);
      if CountCalls(s.container.data, id, g.time) > 0 {
        CallCounted(s.container.data, id, g.time);
      } else {
        CallCounted(s.emitted, id, g.time);
      }
    }
    forall r | IsRecord(s, r)
      ensures r.orig in OrigIds(s.legSeen)
      ensures forall g | g in s.legTable && g.body.orig && g.body.uniqueid == r.orig :: g.time == r.startTime
    {
      assert r in recs;
      var i :| 0 <= i < |recs| && recs[i] == r;
      var h := RecordHasLeg(cfg, run, events, k, i);
    }
  }

  /** The originating leg of a record. */
  lemma {:induction false} LegOf(cfg: Config, s: State, r: CallRecord) returns (g: CallLeg)
    requires Reached(cfg, s) && RecordsInv(s) && IsRecord(s, r)
    ensures g in s.legSeen && g.body.orig && g.body.uniqueid == r.orig && g.time == r.startTime
    ensures g in s.legTable && cfg.start < g.time < s.now - cfg.waiting
  {
    assert r.orig in Origs(s.container.data) + Origs(s.emitted);
    assert r.orig in OrigIds(s.legSeen);
    g :| g in s.legSeen && g.body.orig && g.body.uniqueid == r.orig;
    SeenIsOld(cfg, s);
  }
}
