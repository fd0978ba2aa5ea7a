/** When things happen, in stamps: how old a window is when it is read and how wide it is
    chosen, that no link is enqueued before its call has been seen off line, and which
    records, legs and groups a pass lets go. All of it holds in every run, split passes
    included, whatever the rows. */
module Timing {
  import opened Rows
  import opened Readers
  import opened MergeContainers
  import opened ContainerLaws
  import opened Pipeline
  import opened SplitRuns
  import opened Records

  // ----- the age and the width of windows -----------------------------------------------

  /** A row later than `stop` is old enough not to change any more. */
  ghost predicate NewerRow<T(!new)>(cfg: Config, table: set<Row<T>>, now: int, stop: int) {
    exists x :: x in table && stop < x.time <= now - cfg.waiting
  }

  /** A window is read only when its stop is `threshold` old and a newer row is there, and so
      is each one that was. The first is `threshold` wide, and a wider one was only chosen
      when a row beyond it was there. */
  ghost predicate Paced<T(!new)>(cfg: Config, r: Reader<T>, table: set<Row<T>>, now: int) {
    && (!r.phase.Waiting? ==> r.stopTime != 0 && r.stopTime <= now - cfg.threshold && NewerRow(cfg, table, now, r.stopTime))
    && (forall w | w in r.windows :: w.1 != 0 && w.1 <= now - cfg.threshold && w.1 < now - cfg.waiting)
    && (forall x | x in r.sent :: x.time <= now - cfg.threshold)
    && (if r.windows == [] then r.startTime == cfg.start && r.stopTime == cfg.start + cfg.threshold
        else r.windows[0] == (cfg.start, cfg.start + cfg.threshold))
    && (r.stopTime - r.startTime > cfg.threshold ==> NewerRow(cfg, table, now, r.stopTime))
  }

  lemma {:induction false} NewerStays<T(!new)>(cfg: Config, table: set<Row<T>>, now: int, table': set<Row<T>>, now': int, stop: int)
    requires now <= now' && Frozen(table, table', now - cfg.waiting) && NewerRow(cfg, table, now, stop)
    ensures NewerRow(cfg, table', now', stop)
  {
    var x :| x in table && stop < x.time <= now - cfg.waiting;
    assert x in table';
  }

  lemma {:induction false} SourceKeepsPace<T(!new)>(cfg: Config, r: Reader<T>, table: set<Row<T>>, now: int, table': set<Row<T>>, now': int)
    requires Paced(cfg, r, table, now) && now <= now' && Frozen(table, table', now - cfg.waiting)
    ensures Paced(cfg, r, table', now')
  {
    hide NewerRow;
    if NewerRow(cfg, table, now, r.stopTime) {
      NewerStays(cfg, table, now, table', now', r.stopTime);
    }
  }

  lemma {:induction false} ReaderKeepsPace<T(!new)>(
    cfg: Config, table: set<Row<T>>, now: int, checks: nat, offLine: bool, step: ReaderStep<T>,
    r: Reader<T>, queue: seq<Row<T>>, r': Reader<T>, queue': seq<Row<T>>)
    requires cfg.Valid() && ReaderInv(cfg, r, table, now) && Paced(cfg, r, table, now)
    requires ReaderNext(cfg, table, now, checks, offLine, step, r, queue, r', queue')
    ensures Paced(cfg, r', table, now)
  {
    match step
    case DoPush =>
      PushedIsInside(cfg, r, table, now);
    case DoClose =>
      assert forall w | w in r'.windows :: w in r.windows || w == (r.startTime, r.stopTime);
    case _ =>
  }

  lemma {:induction false} PushedIsInside<T(!new)>(cfg: Config, r: Reader<T>, table: set<Row<T>>, now: int)
    requires ReaderInv(cfg, r, table, now) && AtRow(r)
    ensures r.startTime < r.phase.rows[r.phase.next].time <= r.stopTime
  {
    var row := r.phase.rows[r.phase.next];
    assert row in Elems(r.phase.rows) && row in Window(table, r.startTime, r.stopTime);
  }

  lemma {:induction false} HappensKeepsPace(cfg: Config, s: State, s': State, e: Event)
    requires cfg.Valid() && ReadersInv(cfg, s) && Happens(cfg, s, s', e)
    requires Paced(cfg, s.legReader, s.legTable, s.now) && Paced(cfg, s.linkReader, s.linkTable, s.now)
    ensures Paced(cfg, s'.legReader, s'.legTable, s'.now) && Paced(cfg, s'.linkReader, s'.linkTable, s'.now)
  {
    hide ReaderInv, Paced, ReaderNext, PassAt, Throttle;
    match e
    case Works(_) =>
      PauseKeepsPace(cfg, s.legReader, s.legTable, s.now, s'.legReader.paused);
      PauseKeepsPace(cfg, s.linkReader, s.linkTable, s.now, s'.linkReader.paused);
    case Flags(legPaused, linkPaused) =>
      PauseKeepsPace(cfg, s.legReader, s.legTable, s.now, legPaused);
      PauseKeepsPace(cfg, s.linkReader, s.linkTable, s.now, linkPaused);
    case Acts(step) =>
      if step.Source? {
        SourceKeepsPace(cfg, s.legReader, s.legTable, s.now, s'.legTable, s'.now);
        SourceKeepsPace(cfg, s.linkReader, s.linkTable, s.now, s'.linkTable, s'.now);
      } else if step.LegStep? {
        ReaderKeepsPace(cfg, s.legTable, s.now, 0, true, step.leg, s.legReader, s.legQueue, s'.legReader, s'.legQueue);
      } else if step.LinkStep? {
        ReaderKeepsPace(cfg, s.linkTable, s.now, 2, OffLine(s), step.link, s.linkReader, s.linkQueue, s'.linkReader, s'.linkQueue);
      }
  }

  lemma {:induction false} PauseKeepsPace<T(!new)>(cfg: Config, r: Reader<T>, table: set<Row<T>>, now: int, paused: bool)
    requires Paced(cfg, r, table, now)
    ensures Paced(cfg, r.(paused := paused), table, now)
  {
  }

  /** In every state of every run both readers keep the pace. */
  lemma {:induction false} RunKeepsPace(cfg: Config, run: seq<State>, events: seq<Event>, i: nat)
    requires cfg.Valid() && IsSplitRun(cfg, run, events) && i < |run|
    ensures Paced(cfg, run[i].legReader, run[i].legTable, run[i].now)
    ensures Paced(cfg, run[i].linkReader, run[i].linkTable, run[i].now)
  {
    if i > 0 {
      hide IsSplitRun, ReadersInv, MaximaInv, LinksInv, QueuesInv, Happens, Paced;
      RunKeepsPace(cfg, run, events, i - 1);
      EventOf(cfg, run, events, i);
      HappensKeepsPace(cfg, run[i - 1], run[i], events[i - 1]);
    }
  }

  /** The width that a reader chooses after a window: `maxCall` if and only if a row more than
      that behind the window is old enough. */
  ghost predicate Chosen<T(!new)>(cfg: Config, r: Reader<T>, r': Reader<T>, table: set<Row<T>>, now: int) {
    && r'.startTime == r.startTime == r.stopTime
    && r'.stopTime == r.stopTime + if NewerRow(cfg, table, now, r.stopTime + cfg.maxCall) then cfg.maxCall else cfg.threshold
  }

  lemma {:induction false} WidthIsChosen(cfg: Config, run: seq<State>, events: seq<Event>, i: nat)
    requires cfg.Valid() && IsSplitRun(cfg, run, events) && i + 1 < |run|
    ensures run[i].legReader.phase.Extending? && !run[i + 1].legReader.phase.Extending?
            ==> Chosen(cfg, run[i].legReader, run[i + 1].legReader, run[i].legTable, run[i].now)
    ensures run[i].linkReader.phase.Extending? && !run[i + 1].linkReader.phase.Extending?
            ==> Chosen(cfg, run[i].linkReader, run[i + 1].linkReader, run[i].linkTable, run[i].now)
  {
    hide IsSplitRun, MaximaInv, LinksInv, QueuesInv, Sending, Tiled, NearlyOrdered, PassAt;
    EventOf(cfg, run, events, i + 1);
  }

  // ----- calls on line ---------------------------------------------------------------------

  /** No call with that originating id was on line, or the id is empty. */
  ghost predicate OrigOffLine(s: State, link: Link) {
    link.uniqueidOrig == "" || forall o | o in s.online :: o.uniqueidOrig != link.uniqueidOrig
  }

  ghost predicate TermOffLine(s: State, link: Link) {
    link.uniqueidTerm == "" || forall o | o in s.online :: o.uniqueidTerm != link.uniqueidTerm
  }

  /** In some state before the `n`-th, when at most `m` links had been sent, the originating
      id of the link was off line. */
  ghost predicate SeenOff(run: seq<State>, n: nat, m: nat, link: Link)
    requires n <= |run|
  {
    exists i :: 0 <= i < n && |run[i].linkReader.sent| <= m && OrigOffLine(run[i], link)
  }

  /** And then, in the same or a later one, the terminating id. */
  ghost predicate SeenBothOff(run: seq<State>, n: nat, m: nat, link: Link)
    requires n <= |run|
  {
    exists i, j :: 0 <= i <= j < n && |run[j].linkReader.sent| <= m && OrigOffLine(run[i], link) && TermOffLine(run[j], link)
  }

  /** What is known of the row at hand. */
  ghost predicate Cleared(run: seq<State>, n: nat)
    requires 0 < n <= |run|
  {
    var r := run[n - 1].linkReader;
    AtRow(r) ==>
      var m, link := |r.sent|, r.phase.rows[r.phase.next].body;
      && (r.phase.cleared == 1 ==> SeenOff(run, n - 1, m, link))
      && (r.phase.cleared >= 2 ==> SeenBothOff(run, n - 1, m, link))
  }

  lemma {:induction false} SeenLonger(run: seq<State>, n: nat, m: nat, link: Link)
    requires n < |run|
    ensures SeenOff(run, n, m, link) ==> SeenOff(run, n + 1, m, link)
    ensures SeenBothOff(run, n, m, link) ==> SeenBothOff(run, n + 1, m, link)
  {
    hide OrigOffLine, TermOffLine;
  }

  lemma {:induction false} ClearSees(cfg: Config, run: seq<State>, n: nat)
    requires 0 < n < |run| && Cleared(run, n) && AtRow(run[n - 1].linkReader) && run[n - 1].linkReader.phase.cleared < 2
    requires OffLine(run[n - 1]) && run[n].linkReader == Clear(run[n - 1].linkReader)
    ensures Cleared(run, n + 1)
  {
    var s := run[n - 1];
    var m, link := |s.linkReader.sent|, s.linkReader.phase.rows[s.linkReader.phase.next].body;
    if s.linkReader.phase.cleared == 0 {
      assert OrigOffLine(s, link);
      assert SeenOff(run, n, m, link);
    } else {
      assert TermOffLine(s, link);
      var i :| 0 <= i < n - 1 && |run[i].linkReader.sent| <= m && OrigOffLine(run[i], link);
      hide OrigOffLine, TermOffLine;
      assert SeenBothOff(run, n, m, link);
    }
  }

  lemma {:induction false} EventClears(cfg: Config, run: seq<State>, n: nat, e: Event)
    requires 0 < n < |run| && Cleared(run, n) && Happens(cfg, run[n - 1], run[n], e)
    ensures Cleared(run, n + 1)
  {
    var s, s' := run[n - 1], run[n];
    hide OrigOffLine, TermOffLine, SeenOff, SeenBothOff, PassAt;
    if e.Acts? && e.step.LinkStep? && e.step.link.DoClear? {
      hide Happens;
      ClearStep(cfg, s, s', e);
      ClearSees(cfg, run, n);
    } else {
      hide OffLine;
      if AtRow(s.linkReader) {
        SeenLonger(run, n - 1, |s.linkReader.sent|, s.linkReader.phase.rows[s.linkReader.phase.next].body);
      }
    }
  }

  lemma {:induction false} ClearStep(cfg: Config, s: State, s': State, e: Event)
    requires Happens(cfg, s, s', e) && e.Acts? && e.step.LinkStep? && e.step.link.DoClear?
    ensures AtRow(s.linkReader) && s.linkReader.phase.cleared < 2 && OffLine(s) && s'.linkReader == Clear(s.linkReader)
  {
    hide OffLine;
  }

  /** What the link reader sends in an event. */
  lemma {:induction false} EventSends(cfg: Config, s: State, s': State, e: Event)
    requires Happens(cfg, s, s', e)
    ensures s'.linkReader.sent == s.linkReader.sent
         || (AtRow(s.linkReader) && s.linkReader.phase.cleared == 2
             && s'.linkReader.sent == s.linkReader.sent + [s.linkReader.phase.rows[s.linkReader.phase.next]])
  {
    hide OffLine, PassAt;
  }

  lemma {:induction false} RunClears(cfg: Config, run: seq<State>, events: seq<Event>, n: nat)
    requires cfg.Valid() && IsSplitRun(cfg, run, events) && 0 < n <= |run|
    ensures Cleared(run, n)
  {
    if n > 1 {
      hide IsSplitRun, PipeInv, Happens, Cleared;
      RunClears(cfg, run, events, n - 1);
      EventOf(cfg, run, events, n - 1);
      EventClears(cfg, run, n - 1, events[n - 2]);
    }
  }

  lemma {:induction false} NothingSent(cfg: Config, run: seq<State>, events: seq<Event>)
    requires IsSplitRun(cfg, run, events)
    ensures run[0].linkReader.sent == []
  {
  }

  /** No link is enqueued while its call is on line: in two states before, the first no later
      than the second, no call on line had its originating id, and none its terminating id. */
  lemma {:induction false} SentWasOffLine(cfg: Config, run: seq<State>, events: seq<Event>, n: nat, m: nat)
    requires cfg.Valid() && IsSplitRun(cfg, run, events) && n < |run| && m < |run[n].linkReader.sent|
    ensures SeenBothOff(run, n, m, run[n].linkReader.sent[m].body)
  {
    hide IsSplitRun, PipeInv, Happens, Cleared, SeenBothOff;
    if n == 0 {
      NothingSent(cfg, run, events);
    } else {
      EventOf(cfg, run, events, n);
      EventSends(cfg, run[n - 1], run[n], events[n - 1]);
      if m < |run[n - 1].linkReader.sent| {
        SentWasOffLine(cfg, run, events, n - 1, m);
        SeenLonger(run, n - 1, m, run[n].linkReader.sent[m].body);
      } else {
        RunClears(cfg, run, events, n);
        ClearedRow(run, n);
        SeenLonger(run, n - 1, m, run[n].linkReader.sent[m].body);
      }
    }
  }

  lemma {:induction false} ClearedRow(run: seq<State>, n: nat)
    requires 0 < n <= |run| && Cleared(run, n) && AtRow(run[n - 1].linkReader) && run[n - 1].linkReader.phase.cleared == 2
    ensures var r := run[n - 1].linkReader; SeenBothOff(run, n - 1, |r.sent|, r.phase.rows[r.phase.next].body)
  {
  }

  // ----- what a pass lets go ---------------------------------------------------------------

  /** Some leg that was dequeued starts more than `maxCall` after `time`. */
  ghost predicate LegBeyond(cfg: Config, s: State, time: int) {
    exists y :: y in s.legSeen && time + cfg.maxCall < y.time
  }

  /** A record or a leg that started at `time` is due when the pass sees the clock at `clock`. */
  ghost predicate Due(cfg: Config, s: State, time: int, clock: int) {
    LegBeyond(cfg, s, time) && time + cfg.maxCall < clock
  }

  /** What a pass that sees the clock so leaves behind: exactly the records that were due have
      left; no leg that was due waits; and a group waits exactly if no leg is beyond its first link. */
  ghost predicate Punctual(cfg: Config, s: State, looks: Looks) {
    && (forall r, t | r in s.outbox && SawAtRecord(looks, r, t) :: Due(cfg, s, r.startTime, t))
    && (forall r, t | r in s.container.data && SawAtRecord(looks, r, t) :: !Due(cfg, s, r.startTime, t))
    && (forall k, t | k in s.container.legs && SawAtLeg(looks, k, t) :: !Due(cfg, s, s.container.legs[k].time, t))
    && (forall k | k in s.container.links :: s.container.links[k] != [] && !LegBeyond(cfg, s, s.container.links[k][0].time))
    && s.dropped != []
    && var groups: LinkGroups := s.dropped[|s.dropped| - 1];
       forall k | k in groups :: groups[k] != [] && LegBeyond(cfg, s, groups[k][0].time)
  }

  lemma {:induction false} BeyondIs(cfg: Config, s: State, time: int)
    requires Reached(cfg, s)
    ensures LegBeyond(cfg, s, time) ==> time + cfg.maxCall < s.container.maxLegTime
    ensures time + cfg.maxCall < s.container.maxLegTime && cfg.start <= time ==> LegBeyond(cfg, s, time)
  {
    hide ReadersInv, LinksInv, QueuesInv;
  }

  lemma {:induction false} DroppedIsSeen(cfg: Config, s: State, groups: LinkGroups, k: string)
    requires Reached(cfg, s) && s.dropped != [] && groups == s.dropped[|s.dropped| - 1] && k in groups && groups[k] != []
    requires groups[k][0].body.uniqueidOrig == k
    ensures cfg.start < groups[k][0].time
  {
    var l := groups[k][0];
    assert l in groups[k] && InGroup(groups, l) > 0;
    hide ReadersInv, MaximaInv, QueuesInv;
    assert multiset(s.linkSeen)[l] > 0;
    SeenIsOld(cfg, s);
  }

  lemma {:induction false} DroppedIsGrouped(c: Container, legsIn: seq<CallLeg>, linksIn: seq<CallLegLink>, looks: Looks, maxCall: int)
    requires c.Valid()
    ensures Grouped(RunPass(c, legsIn, linksIn, looks, maxCall).dropped)
  {
    hide SweepAll, Select, Absorbed;
    var d := Absorbed(c, legsIn, linksIn);
    SweepValid(d.data, d.legs, d.links);
  }

  lemma {:induction false} WorkIs(cfg: Config, s: State, looks: Looks)
    requires QueuesInv(cfg, s) && s.container.Valid()
    ensures var s', p := MergeAt(cfg, s, looks), RunPass(s.container, s.legQueue, s.linkQueue, looks, cfg.maxCall);
            s'.container == p.container && s'.outbox == p.emitted && s'.emitted == s.emitted + p.emitted && s'.dropped == s.dropped + [p.dropped]
  {
    hide RunPass, Throttle;
    PassDrains(cfg, s, looks);
  }

  /** In every run each pass is punctual, whatever the rows. */
  lemma {:induction false} PassIsPunctual(cfg: Config, run: seq<State>, events: seq<Event>, i: nat)
    requires cfg.Valid() && IsSplitRun(cfg, run, events) && i + 1 < |run| && i < |events| && events[i].Works?
    ensures Punctual(cfg, run[i + 1], events[i].looks)
  {
    hide ReadersInv, MaximaInv, LinksInv, RunPass, MergeAt, LegBeyond, Absorbed, SweepAll, SawAtRecord, SawAtLeg;
    var s, s', looks := run[i], run[i + 1], events[i].looks;
    EventOf(cfg, run, events, i + 1);
    SplitRunInv(cfg, run, events, i + 1);
    WorkIs(cfg, s, looks);
    PassIsDue(s.container, s.legQueue, s.linkQueue, looks, cfg.maxCall);
    DroppedIsGrouped(s.container, s.legQueue, s.linkQueue, looks, cfg.maxCall);
    ContainerIsValid(s');
    forall time ensures LegBeyond(cfg, s', time) ==> time + cfg.maxCall < s'.container.maxLegTime {
      BeyondIs(cfg, s', time);
    }
    forall r | r in s'.outbox ensures cfg.start <= r.startTime {
      EmittedIsLate(cfg, run, events, i + 1, r);
    }
    forall time | time + cfg.maxCall < s'.container.maxLegTime && cfg.start <= time ensures LegBeyond(cfg, s', time) {
      BeyondIs(cfg, s', time);
    }
    var groups: LinkGroups := s'.dropped[|s'.dropped| - 1];
    forall k | k in groups ensures groups[k] != [] && LegBeyond(cfg, s', groups[k][0].time) {
      DroppedIsSeen(cfg, s', groups, k);
    }
  }

  lemma {:induction false} ContainerIsValid(s: State)
    requires LinksInv(s)
    ensures Grouped(s.container.links)
  {
  }

  lemma {:induction false} EmittedIsLate(cfg: Config, run: seq<State>, events: seq<Event>, i: nat, r: CallRecord)
    requires cfg.Valid() && IsSplitRun(cfg, run, events) && i < |run| && r in run[i].emitted
    ensures cfg.start < r.startTime
  {
    hide IsSplitRun, PipeInv;
    var recs := run[i].container.data + run[i].emitted;
    var k :| 0 <= k < |run[i].emitted| && run[i].emitted[k] == r;
    assert recs[|run[i].container.data| + k] == r;
    var g := RecordHasLeg(cfg, run, events, i, |run[i].container.data| + k);
    SplitRunInv(cfg, run, events, i);
    SeenIsOld(cfg, run[i]);
  }

  /** And if a pass is one step, it sees the clock as it stands. */
  lemma {:induction false} StepIsPunctual(cfg: Config, run: seq<State>, steps: seq<Step>, i: nat)
    requires cfg.Valid() && IsRun(cfg, run, steps) && i < |steps| && steps[i].MergeStep?
    ensures |run| == |steps| + 1
    ensures var s, clock := run[i + 1], run[i].linkReader.startTime;
            && (forall r | r in s.outbox :: Due(cfg, s, r.startTime, clock))
            && (forall r | r in s.container.data :: !Due(cfg, s, r.startTime, clock))
            && (forall k | k in s.container.legs :: !Due(cfg, s, s.container.legs[k].time, clock))
  {
    hide IsRun, Due;
    StepsAreEvents(cfg, run, steps);
    SameLength(cfg, run, steps);
    hide IsSplitRun;
    var looks, clock := Events(run, steps)[i].looks, run[i].linkReader.startTime;
    PassIsPunctual(cfg, run, Events(run, steps), i);
    assert forall r :: SawAtRecord(looks, r, clock);
    assert forall k :: SawAtLeg(looks, k, clock);
  }

  lemma {:induction false} SameLength(cfg: Config, run: seq<State>, steps: seq<Step>)
    requires IsRun(cfg, run, steps)
    ensures |run| == |steps| + 1
  {
  }
}
