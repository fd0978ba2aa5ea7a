/** Leg completeness, one call at a time: when a record is emitted it holds its originating
    leg and those terminating legs named by its links that were dequeued by then. Nothing
    is lost while it waits; a leg can only come too late. It never does if no leg that is too
    new for the call has an id below it. */
module LegCompleteness {
  import opened Rows
  import opened Readers
  import opened MergeContainers
  import opened ContainerLaws
  import opened Pipeline
  import opened SplitRuns
  import opened Records
  import opened LinkCompleteness
  import opened LegInvariant

  // ----- the order of the leg stream ---------------------------------------------

  /** Windows are read in the order of time, and the rows of a window in the order of ids. */
  ghost predicate Follows(sent: seq<CallLeg>) {
    forall i, j | 0 <= i < j < |sent| :: sent[i].time <= sent[j].time || sent[i].id <= sent[j].id
  }

  lemma {:induction false} PushFollows(cfg: Config, r: Reader<Leg>, table: set<CallLeg>, now: int)
    requires cfg.Valid() && ReaderInv(cfg, r, table, now) && AtRow(r) && Follows(r.sent)
    ensures Follows(Push(r).sent)
  {
    var rows, n := r.phase.rows, r.phase.next;
    forall x | x in r.sent ensures x.time <= rows[n].time || x.id <= rows[n].id {
      assert rows[n] in Elems(rows) && rows[n] in Window(table, r.startTime, r.stopTime);
      assert x in Elems(r.sent);
      if x in Elems(Pushed(r)) {
        var i :| 0 <= i < n && rows[i] == x;
      }
    }
  }

  lemma {:induction false} StepFollows(cfg: Config, s: State, s': State, step: Step)
    requires Reached(cfg, s) && Follows(s.legReader.sent) && Next(cfg, s, s', step)
    ensures Follows(s'.legReader.sent)
  {
    hide ReaderInv, MaximaInv, LinksInv, Follows;
    if step.LegStep? && step.leg.DoPush? {
      PushFollows(cfg, s.legReader, s.legTable, s.now);
    }
  }

  lemma {:induction false} HappensFollows(cfg: Config, s: State, s': State, e: Event)
    requires Reached(cfg, s) && Follows(s.legReader.sent) && Happens(cfg, s, s', e)
    ensures Follows(s'.legReader.sent)
  {
    hide PipeInv, Follows, Next, PassAt, Throttle;
    if e.Acts? {
      StepFollows(cfg, s, s', e.step);
    }
  }

  lemma {:induction false} RunFollows(cfg: Config, run: seq<State>, events: seq<Event>, i: nat)
    requires cfg.Valid() && IsSplitRun(cfg, run, events) && i < |run|
    ensures Follows(run[i].legReader.sent)
  {
    if i > 0 {
      hide IsSplitRun, PipeInv, Follows, Happens;
      RunFollows(cfg, run, events, i - 1);
      EventOf(cfg, run, events, i);
      HappensFollows(cfg, run[i - 1], run[i], events[i - 1]);
    }
  }

  /** A leg still to come is no older than any leg seen, or has no smaller id. */
  lemma {:induction false} LateLegFollows(cfg: Config, s: State, seen: nat, x: CallLeg)
    requires Reached(cfg, s) && Follows(s.legReader.sent) && seen <= |s.legReader.sent|
    requires x in s.legTable && cfg.start < x.time && x !in s.legReader.sent[..seen]
    ensures forall y | y in s.legReader.sent[..seen] :: y.time <= x.time || y.id <= x.id
  {
    var r := s.legReader;
    SentBelowReach(cfg, r, s.legTable, s.now);
    hide MaximaInv, LinksInv;
    forall y | y in r.sent[..seen] ensures y.time <= x.time || y.id <= x.id {
      var i :| 0 <= i < seen && r.sent[i] == y;
      if x in r.sent {
        var j :| 0 <= j < |r.sent| && r.sent[j] == x;
        assert forall k | 0 <= k < seen :: r.sent[..seen][k] == r.sent[k];
      } else {
        assert y in Elems(r.sent) && x !in Elems(r.sent);
        assert x !in Window(s.legTable, cfg.start, r.startTime);
        if r.phase.Pushing? && x.time <= r.stopTime {
          UnpushedFollows(cfg, r, s.legTable, s.now, x, y);
        }
      }
    }
  }

  lemma {:induction false} UnpushedFollows(cfg: Config, r: Reader<Leg>, table: set<CallLeg>, now: int, x: CallLeg, y: CallLeg)
    requires cfg.Valid() && ReaderInv(cfg, r, table, now) && r.phase.Pushing?
    requires x in table && r.startTime < x.time <= r.stopTime && x !in r.sent && y in r.sent
    ensures y.time <= x.time || y.id <= x.id
  {
    var rows, n := r.phase.rows, r.phase.next;
    assert x in Window(table, r.startTime, r.stopTime) && x in Elems(rows);
    var j :| 0 <= j < |rows| && rows[j] == x;
    assert y in Elems(r.sent) && x !in Elems(r.sent);
    assert forall i | 0 <= i < n :: Pushed(r)[i] == rows[i];
    if y in Elems(Pushed(r)) {
      var i :| 0 <= i < n && rows[i] == y;
    }
  }

  // ----- what a record holds when it is emitted ------------------------------------------

  /** The record holds its originating leg, every terminating leg in the source that its
      links name, and no other. */
  ghost predicate HoldsAllLegs(s: State, r: CallRecord) {
    && r.orig in r.legs && r.legs[r.orig] in s.legTable && r.legs[r.orig].body.orig && r.legs[r.orig].body.uniqueid == r.orig
    && (forall k | k in r.legs && k != r.orig ::
          exists l :: Names(s, r.legs[r.orig], l, r.legs[k]) && r.legs[k].body.uniqueid == k)
    && (forall l, x | Names(s, r.legs[r.orig], l, x) :: x.body.uniqueid in r.legs && r.legs[x.body.uniqueid] == x)
  }

  /** The record was emitted when the first `n` legs had been dequeued: it has those of
      them that its links name, and the newest of them is more than `maxCall` newer. */
  ghost predicate LeftWith(cfg: Config, s: State, r: CallRecord, n: nat) {
    && n <= |s.legSeen|
    && r.orig in r.legs && r.legs[r.orig] in s.legSeen[..n] && r.legs[r.orig].body.orig && r.legs[r.orig].body.uniqueid == r.orig
    && r.legs == map[r.orig := r.legs[r.orig]] + Named(r.links, Terminating(s.legSeen[..n]))
    && exists y :: y in s.legSeen[..n] && r.startTime + cfg.maxCall < y.time
  }

  /** Every leg that the links of the record name is among the first `n` dequeued. */
  ghost predicate AllSeen(s: State, r: CallRecord, n: nat)
    requires n <= |s.legSeen| && r.orig in r.legs
  {
    forall l, x | Names(s, r.legs[r.orig], l, x) :: x in s.legSeen[..n]
  }

  lemma {:induction false} SweptRecordHasLeg(cfg: Config, s: State, d: Container, w: Sweep, r: CallRecord) returns (g: CallLeg)
    requires Swept(cfg, s, d, w) && r in w.swept
    ensures g in s.legSeen + s.legQueue && g.body.orig && g.body.uniqueid == r.orig && g.time == r.startTime && cfg.start < g.time
  {
    hide SweepAll, PipeInv, UniqueLegs, DistinctOrigs, Absorbed;
    SweptParts(cfg, s, d, w);
    AbsorbedRecords(cfg, s, d);
    SeenIsOld(cfg, s);
    var i :| 0 <= i < |w.swept| && w.swept[i] == r;
    var r0 := d.data[i];
    assert r0 in d.data && r0.orig == r.orig && r0.startTime == r.startTime;
    if r0 in s.container.data {
      g := LegOf(cfg, s, r0);
    } else {
      g :| g in s.legQueue && g.body.orig && r0 == Open(g);
    }
  }

  /** When a record leaves, some leg dequeued by then is more than `maxCall` newer. */
  lemma {:induction false} LeavingIsOld(cfg: Config, s: State, d: Container, w: Sweep, looks: Looks, r: CallRecord) returns (y: CallLeg)
    requires Swept(cfg, s, d, w) && r in w.swept && Finished(r.startTime, d.maxLegTime - cfg.maxCall, looks.AtRecord(r), cfg.maxCall)
    ensures y in s.legSeen + s.legQueue && r.startTime + cfg.maxCall < y.time
  {
    hide SweepAll, Absorbed, ReaderInv, LinksInv, MaximaInv, RecordsInv, UniqueLegs;
    var g := SweptRecordHasLeg(cfg, s, d, w, r);
    PassMaxLeg(cfg, s, d);
    y :| y in s.legReader.sent && y.time == d.maxLegTime;
  }

  /** The record of the call when it leaves in a pass. */
  lemma {:induction false} LeavesWith(cfg: Config, s: State, t: State, looks: Looks, r: CallRecord)
    requires Known(cfg, s, t, r.orig) && s.container.Valid() && r in PassAt(cfg, s, looks).emitted
    ensures var s' := MergeAt(cfg, s, looks); LeftWith(cfg, s', r, |s'.legSeen|) && s'.legSeen == s.legSeen + s.legQueue
  {
    hide ReadersInv, MaximaInv, LinksInv, RecordsInv, UniqueLegs, CallInv, LegsTimely, LegInv, SweepAll, Absorbed, MergeAt, Passed, PassAt, Named, Terminating, Finished, Grows;
    var d := Absorbed(s.container, s.legQueue, s.linkQueue);
    var w := SweepAll(d.data, d.legs, d.links);
    var s' := MergeAt(cfg, s, looks);
    LegPassParts(cfg, s, d, w, looks);
    PassedSees(cfg, s, d, w, looks, s');
    LeavingIsSwept(cfg, s, d, w, looks, r);
    SweptHolds(cfg, s, t, d, w, s', r.orig, r);
    assert s'.legSeen[..|s'.legSeen|] == s'.legSeen;
    var y := LeavingIsOld(cfg, s, d, w, looks, r);
  }

  /** A record that has left is complete if and only if all legs that its links name had
      been dequeued. */
  lemma {:induction false} LeftIsComplete(cfg: Config, s: State, r: CallRecord, n: nat)
    requires Reached(cfg, s) && UniqueLegs(s.legTable) && HoldsAllLinks(s, r) && LeftWith(cfg, s, r, n)
    ensures HoldsAllLegs(s, r) <==> AllSeen(s, r, n)
  {
    hide PipeInv, Terminating;
    SeenIsOld(cfg, s);
    var seen, g := s.legSeen[..n], r.legs[r.orig];
    assert forall x | x in seen :: x in s.legSeen;
    TerminatingMembers(seen);
    if HoldsAllLegs(s, r) {
      forall l, x | Names(s, g, l, x) ensures x in seen {
        assert x.body.uniqueid in Terminating(seen) && Terminating(seen)[x.body.uniqueid] == x;
      }
    }
    if AllSeen(s, r, n) {
      forall k | k in r.legs && k != r.orig
        ensures exists l :: Names(s, g, l, r.legs[k]) && r.legs[k].body.uniqueid == k
      {
        var l :| l in r.links && l.body.uniqueidTerm == k;
        assert Names(s, g, l, r.legs[k]);
      }
      forall l, x | Names(s, g, l, x) ensures x.body.uniqueid in r.legs && r.legs[x.body.uniqueid] == x {
        assert l in r.links && x in seen;
      }
    }
  }

  // ----- the theorems -------------------------------------------------------------------

  lemma {:induction false} StillLeftWith(cfg: Config, s: State, t: State, r: CallRecord)
    requires LeftWith(cfg, s, r, |s.legSeen|) && Grows(cfg, s, t)
    ensures LeftWith(cfg, t, r, |s.legSeen|) && t.legSeen[..|s.legSeen|] == s.legSeen
  {
    hide SendsOn, Named, Terminating;
    assert s.legSeen[..|s.legSeen|] == s.legSeen == t.legSeen[..|s.legSeen|];
  }

  lemma {:induction false} RecordLeftWith(cfg: Config, run: seq<State>, events: seq<Event>, i: nat, j: nat, r: CallRecord)
    requires LegRun(cfg, run, events, i + 1, j, r.orig) && EmittedIn(cfg, run, events, i, r)
    ensures i < j < |run| && LeftWith(cfg, run[j], r, |run[i + 1].legSeen|) && run[j].legSeen[..|run[i + 1].legSeen|] == run[i + 1].legSeen
    ensures run[i + 1].legSeen == run[i].legSeen + run[i].legQueue
    ensures Reached(cfg, run[j]) && UniqueLegs(run[j].legTable)
  {
    hide Known, PassAt, MergeAt, LeftWith, Grows, UniqueRun, Reached, RecordsInv, UniqueLegs, LegsFollow, OneCall, Undisturbed;
    RunLegs(cfg, run, events, i + 1, j, r.orig, i);
    RunFacts(cfg, run, events, i);
    RunFacts(cfg, run, events, j);
    ValidRun(cfg, run, events);
    hide IsSplitRun, CallRun;
    LeavesWith(cfg, run[i], run[j], events[i].looks, r);
    RunGrows(cfg, run, events, i + 1, j);
    StillLeftWith(cfg, run[i + 1], run[j], r);
  }

  /** The links of the record are complete as well. */
  lemma {:induction false} LeftWithLinks(cfg: Config, run: seq<State>, events: seq<Event>, i: nat, j: nat, r: CallRecord)
    requires LegRun(cfg, run, events, i + 1, j, r.orig) && EmittedIn(cfg, run, events, i, r)
    ensures i < j < |run| && HoldsAllLinks(run[j], r)
  {
    hide CallRun, HoldsAllLinks, LegsFollow, OneCall, PassAt;
    var k: nat :| k <= j && LookedBy(run, events, i, k, r.orig);
    EmittedLinksAreComplete(cfg, run, events, i, k, j, r);
  }

  /** Exactly when an emitted record is complete, for one call whose links are timely and every
      run in which no pass up to the one that emitted it was disturbed, whatever the rows of
      other calls, however late the terminating legs start and whatever the order of legs,
      and from then on for ever: the pass that emitted the record had dequeued every leg that
      its links name. */
  lemma {:induction false} EmittedRecordIsComplete(cfg: Config, run: seq<State>, events: seq<Event>, i: nat, j: nat, r: CallRecord)
    requires LegRun(cfg, run, events, i + 1, j, r.orig) && EmittedIn(cfg, run, events, i, r)
    ensures i < j < |run| && r.orig in r.legs && HoldsAllLinks(run[j], r)
    ensures HoldsAllLegs(run[j], r)
            <==> forall l, x | Names(run[j], r.legs[r.orig], l, x) :: x in run[i].legSeen + run[i].legQueue
  {
    hide LegRun, PassAt, Named, Terminating, HoldsAllLegs, HoldsAllLinks, Reached, UniqueLegs;
    RecordLeftWith(cfg, run, events, i, j, r);
    LeftWithLinks(cfg, run, events, i, j, r);
    LeftIsComplete(cfg, run[j], r, |run[i + 1].legSeen|);
  }

  /** No leg whose id is at most that of a leg that the call names is more than `maxCall` newer
      than the originating leg of the call: not the named leg itself, and none that is read
      before it in its window. */
  ghost predicate LegsOnTime(cfg: Config, s: State, c: string) {
    forall g, l, x, y | Names(s, g, l, x) && g.body.uniqueid == c && y in s.legTable && y.id <= x.id :: y.time <= g.time + cfg.maxCall
  }

  /** Then no named leg comes later than the pass that emits the record. */
  lemma {:induction false} OnTimeSeesAll(cfg: Config, s: State, r: CallRecord, n: nat)
    requires Reached(cfg, s) && UniqueLegs(s.legTable) && LegsFollow(s, r.orig) && LegsOnTime(cfg, s, r.orig) && LeftWith(cfg, s, r, n)
    requires r.legs[r.orig].time == r.startTime && Follows(s.legReader.sent)
    ensures AllSeen(s, r, n)
  {
    hide UniqueLegs, Follows, ReaderInv, LinksInv, MaximaInv, Terminating, Named;
    var g := r.legs[r.orig];
    assert g in s.legSeen;
    SeenIsOld(cfg, s);
    assert s.legReader.sent[..n] == s.legSeen[..n];
    var y :| y in s.legSeen[..n] && r.startTime + cfg.maxCall < y.time;
    assert y in s.legSeen;
    forall l, x | Names(s, g, l, x) ensures x in s.legSeen[..n] {
      if x !in s.legSeen[..n] {
        LateLegFollows(cfg, s, n, x);
      }
    }
  }

  lemma {:induction false} FewerEvents(cfg: Config, run: seq<State>, events: seq<Event>, n: nat, m: nat, j: nat, c: string)
    requires LegRun(cfg, run, events, m, j, c) && n <= m
    ensures LegRun(cfg, run, events, n, j, c)
    ensures UniqueRun(cfg, run, events) && cfg.Valid() && IsSplitRun(cfg, run, events) && LegsFollow(run[j], c)
  {
    hide UniqueRun, LinksTimely, LegsFollow, OneCall, LookedBy;
    ValidRun(cfg, run, events);
  }

  /** Leg completeness of one call, for every run and every interleaving that disturbs no pass. */
  lemma {:induction false} EmittedRecordHasAllLegs(cfg: Config, run: seq<State>, events: seq<Event>, j: nat, r: CallRecord)
    requires LegRun(cfg, run, events, j, j, r.orig) && LegsOnTime(cfg, run[j], r.orig)
    requires r in run[j].emitted
    ensures HoldsAllLegs(run[j], r)
  {
    FewerEvents(cfg, run, events, j, j, j, r.orig);
    hide LegRun, UniqueRun, IsSplitRun, LegsFollow, LegsOnTime, Named, Terminating, HoldsAllLegs, HoldsAllLinks, Reached, UniqueLegs, Follows, AllSeen, EmittedIn;
    var i := EmittedBy(cfg, run, events, j, r);
    FewerEvents(cfg, run, events, i + 1, j, j, r.orig);
    RecordLeftWith(cfg, run, events, i, j, r);
    LeftWithLinks(cfg, run, events, i, j, r);
    RunFollows(cfg, run, events, j);
    var g := EmittedHasLeg(cfg, run, events, i, j, r);
    OwnLegIs(cfg, run[j], r, |run[i + 1].legSeen|, g);
    OnTimeSeesAll(cfg, run[j], r, |run[i + 1].legSeen|);
    LeftIsComplete(cfg, run[j], r, |run[i + 1].legSeen|);
  }

  lemma {:induction false} OwnLegIs(cfg: Config, s: State, r: CallRecord, n: nat, g: CallLeg)
    requires Reached(cfg, s) && UniqueLegs(s.legTable) && LeftWith(cfg, s, r, n)
    requires g in s.legTable && g.body.uniqueid == r.orig
    ensures r.legs[r.orig] == g
  {
    hide PipeInv, Named, Terminating;
    assert r.legs[r.orig] in s.legSeen;
    SeenIsOld(cfg, s);
  }

  // ----- all calls, and passes that are one step -------------------------------------------

  /** A run of single steps in which the call `c` is timely. */
  ghost predicate LegsTimelyRun(cfg: Config, run: seq<State>, steps: seq<Step>, c: string) {
    cfg.Valid() && IsRun(cfg, run, steps) && forall j | 0 <= j < |run| :: LegsTimely(cfg, run[j], c)
  }

  lemma {:induction false} LegsTimelyIsLegRun(cfg: Config, run: seq<State>, steps: seq<Step>, n: nat, j: nat, c: string)
    requires LegsTimelyRun(cfg, run, steps, c) && n <= j < |run|
    ensures |run| == |steps| + 1 && LegRun(cfg, run, Events(run, steps), n, j, c)
  {
    hide Init, Next, CallRun, UniqueLegs, LinksTimely, LegsFollow, OneCall, Undisturbed;
    assert TimelyRun(cfg, run, steps, c);
    TimelyIsCallRun(cfg, run, steps, c);
  }

  /** The order of ids, in which a window is read, agrees with the order of time. */
  ghost predicate TimeFollowsId(legs: set<CallLeg>) {
    forall a, b | a in legs && b in legs && a.id <= b.id :: a.time <= b.time
  }

  /** The legs that the links of the call name start at most `maxCall` after its originating leg. */
  ghost predicate LegsSoon(cfg: Config, s: State, c: string) {
    forall g, l, x | Names(s, g, l, x) && g.body.uniqueid == c :: x.time <= g.time + cfg.maxCall
  }

  lemma {:induction false} OrderIsOnTime(cfg: Config, s: State, c: string)
    requires TimeFollowsId(s.legTable) && LegsSoon(cfg, s, c)
    ensures LegsOnTime(cfg, s, c)
  {
    forall g, l, x, y | Names(s, g, l, x) && g.body.uniqueid == c && y in s.legTable && y.id <= x.id ensures y.time <= g.time + cfg.maxCall {
      assert y.time <= x.time;
    }
  }

  /** If all calls are timely and all legs ordered, all records are complete. */
  lemma {:induction false} EmittedRecordsHaveAllLegs(cfg: Config, run: seq<State>, steps: seq<Step>, j: nat)
    requires (forall c :: LegsTimelyRun(cfg, run, steps, c)) && j < |run|
    requires TimeFollowsId(run[j].legTable) && forall c :: LegsSoon(cfg, run[j], c)
    ensures forall r | r in run[j].emitted :: HoldsAllLegs(run[j], r)
  {
    hide LegsTimelyRun, LegRun, LegsSoon, LegsOnTime, TimeFollowsId, HoldsAllLegs;
    forall r | r in run[j].emitted ensures HoldsAllLegs(run[j], r) {
      LegsTimelyIsLegRun(cfg, run, steps, j, j, r.orig);
      OrderIsOnTime(cfg, run[j], r.orig);
      EmittedRecordHasAllLegs(cfg, run, Events(run, steps), j, r);
    }
  }

  // ----- links that name originating legs ----------------------------------------------

  /** Exactly which of the legs that its links name a complete record holds: those that are
      not originating ones, and its own. An originating leg opens a record of its own and
      is never attached to another. */
  lemma {:induction false} NamedLegIsHeld(cfg: Config, s: State, r: CallRecord, l: CallLegLink, x: CallLeg)
    requires UniqueLegs(s.legTable) && HoldsAllLegs(s, r)
    requires l in s.linkTable && l.body.uniqueidOrig == r.orig && x in s.legTable && l.body.uniqueidTerm == x.body.uniqueid
    ensures (x.body.uniqueid in r.legs && r.legs[x.body.uniqueid] == x) <==> !x.body.orig || x.body.uniqueid == r.orig
  {
    hide UniqueLegs;
    var g := r.legs[r.orig];
    if x.body.orig {
      if x.body.uniqueid == r.orig {
        SameUniqueLeg(s.legTable, x, g);
      } else if x.body.uniqueid in r.legs {
        var m :| Names(s, g, m, r.legs[x.body.uniqueid]);
      }
    } else {
      assert Names(s, g, l, x);
    }
  }
}
