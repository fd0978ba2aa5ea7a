/** The whole pipeline as a state machine: two changing source tables, the clock, the
    two readers, the queues between the actors, the container and its consumer. Every
    actor takes one step at a time, in any order; a container pass is one step. */
module Pipeline {
  import opened Rows
  import opened Readers
  import opened MergeContainers
  import opened ContainerLaws

  /** `outbox` holds what the current pass still has to enqueue. `legSeen`, `linkSeen`,
      `emitted`, `consumed` and `dropped` are histories. */
  datatype State = State(
    now: int,
    legTable: set<CallLeg>, linkTable: set<CallLegLink>, online: set<Link>,
    legReader: Reader<Leg>, linkReader: Reader<Link>,
    legQueue: seq<CallLeg>, linkQueue: seq<CallLegLink>,
    container: Container, outbox: seq<CallRecord>, outQueue: seq<CallRecord>,
    legSeen: seq<CallLeg>, linkSeen: seq<CallLegLink>,
    emitted: seq<CallRecord>, consumed: seq<CallRecord>, dropped: seq<LinkGroups>)

  ghost predicate Init(cfg: Config, s: State) {
    && s.legReader == Start(cfg) && s.linkReader == Start(cfg)
    && s.legQueue == [] && s.linkQueue == []
    && s.container == Container([], map[], map[], cfg.start, cfg.start)
    && s.outbox == [] && s.outQueue == []
    && s.legSeen == [] && s.linkSeen == [] && s.emitted == [] && s.consumed == [] && s.dropped == []
  }

  // ----- steps ----------------------------------------------------------------

  datatype ReaderStep<+T> = DoCheck | DoQuery(rows: seq<Row<T>>) | DoClear | DoPush | DoClose | DoExtend

  /** One step of a reader with its queue. A row needs `checks` online checks before it
      is pushed; `offLine` says whether the check at hand passes. */
  ghost predicate ReaderNext<T(!new)>(
    cfg: Config, table: set<Row<T>>, now: int, checks: nat, offLine: bool, step: ReaderStep<T>,
    r: Reader<T>, queue: seq<Row<T>>, r': Reader<T>, queue': seq<Row<T>>)
  {
    match step
    case DoCheck => CanCheck(cfg, r, table, now) && r' == Check(r) && queue' == queue
    case DoQuery(rows) => CanQuery(r, table, rows) && r' == Query(r, rows) && queue' == queue
    case DoClear => AtRow(r) && r.phase.cleared < checks && offLine && r' == Clear(r) && queue' == queue
    case DoPush =>
      && AtRow(r) && r.phase.cleared == checks && |queue| < cfg.maxQueue
      && r' == Push(r) && queue' == queue + [r.phase.rows[r.phase.next]]
    case DoClose => CanClose(r) && r' == Close(r) && queue' == queue
    case DoExtend => r.phase.Extending? && r' == Extend(cfg, r, table, now) && queue' == queue
  }

  /** The link reader holds a row back while an online call has its originating id, and
      then while one has its terminating id. The empty id is never on line. */
  ghost predicate OffLine(s: State) {
    AtRow(s.linkReader) ==>
      var link := s.linkReader.phase.rows[s.linkReader.phase.next].body;
      if s.linkReader.phase.cleared == 0
      then link.uniqueidOrig == "" || forall o | o in s.online :: o.uniqueidOrig != link.uniqueidOrig
      else link.uniqueidTerm == "" || forall o | o in s.online :: o.uniqueidTerm != link.uniqueidTerm
  }

  function Abs(x: int): nat {
    if x < 0 then -x else x
  }

  /** The container pauses the reader that is ahead when the newest leg and the newest
      link are too far apart, and resumes both when they are not. */
  function Throttle(maxCall: int, maxLeg: int, maxLink: int, legPaused: bool, linkPaused: bool): (bool, bool) {
    if Abs(maxLeg - maxLink) > maxCall * 2 then
      if !legPaused && !linkPaused then (maxLeg > maxLink, maxLeg <= maxLink) else (legPaused, linkPaused)
    else (false, false)
  }

  function Min(a: nat, b: nat): nat {
    if a < b then a else b
  }

  ghost predicate CanMerge(s: State) {
    s.outbox == [] && (s.legQueue != [] || s.linkQueue != [])
  }

  /** What a pass makes of the dequeued rows. */
  ghost function PassAt(cfg: Config, s: State, looks: Looks): Pass
    requires s.container.Valid()
  {
    RunPass(s.container, s.legQueue[..Min(|s.legQueue|, cfg.maxQueue)], s.linkQueue[..Min(|s.linkQueue|, cfg.maxQueue)],
            looks, cfg.maxCall)
  }

  ghost function MergeAt(cfg: Config, s: State, looks: Looks): State
    requires s.container.Valid()
  {
    var legs, links := Min(|s.legQueue|, cfg.maxQueue), Min(|s.linkQueue|, cfg.maxQueue);
    var p := PassAt(cfg, s, looks);
    var (legPaused, linkPaused) := Throttle(cfg.maxCall, p.container.maxLegTime, p.container.maxLinkTime,
                                            s.legReader.paused, s.linkReader.paused);
    s.(legQueue := s.legQueue[legs..], linkQueue := s.linkQueue[links..],
       legSeen := s.legSeen + s.legQueue[..legs], linkSeen := s.linkSeen + s.linkQueue[..links],
       legReader := s.legReader.(paused := legPaused), linkReader := s.linkReader.(paused := linkPaused),
       container := p.container, outbox := p.emitted, emitted := s.emitted + p.emitted,
       dropped := s.dropped + [p.dropped])
  }

  /** A pass that is one step looks at the clock as it is. */
  ghost function PassOf(cfg: Config, s: State): Pass
    requires s.container.Valid()
  {
    PassAt(cfg, s, Steady(s.linkReader.startTime))
  }

  ghost function Merge(cfg: Config, s: State): State
    requires s.container.Valid()
  {
    MergeAt(cfg, s, Steady(s.linkReader.startTime))
  }

  datatype Step =
    | Source(now: int, legTable: set<CallLeg>, linkTable: set<CallLegLink>, online: set<Link>)
    | LegStep(leg: ReaderStep<Leg>)
    | LinkStep(link: ReaderStep<Link>)
    | MergeStep
    | OutputStep
    | ConsumeStep(count: nat)

  ghost predicate Next(cfg: Config, s: State, s': State, step: Step) {
    match step
    case Source(now, legTable, linkTable, online) =>
      && s.now <= now
      && Frozen(s.legTable, legTable, s.now - cfg.waiting) && Frozen(s.linkTable, linkTable, s.now - cfg.waiting)
      && s' == s.(now := now, legTable := legTable, linkTable := linkTable, online := online)
    case LegStep(leg) =>
      && ReaderNext(cfg, s.legTable, s.now, 0, true, leg, s.legReader, s.legQueue, s'.legReader, s'.legQueue)
      && s' == s.(legReader := s'.legReader, legQueue := s'.legQueue)
    case LinkStep(link) =>
      && ReaderNext(cfg, s.linkTable, s.now, 2, OffLine(s), link, s.linkReader, s.linkQueue, s'.linkReader, s'.linkQueue)
      && s' == s.(linkReader := s'.linkReader, linkQueue := s'.linkQueue)
    case MergeStep =>
      CanMerge(s) && s.container.Valid() && s' == Merge(cfg, s)
    case OutputStep =>
      && s.outbox != [] && |s.outQueue| < cfg.maxQueue
      && s' == s.(outbox := s.outbox[1..], outQueue := s.outQueue + [s.outbox[0]])
    case ConsumeStep(count) =>
      && count <= |s.outQueue|
      && s' == s.(outQueue := s.outQueue[count..], consumed := s.consumed + s.outQueue[..count])
  }

  /** The source may do what it likes with rows younger than `waiting`, at any time. */
  lemma {:induction false} SourceIsFree(cfg: Config, s: State, s': State)
    requires s.now <= s'.now && s' == s.(now := s'.now, legTable := s'.legTable, linkTable := s'.linkTable, online := s'.online)
    requires forall x: CallLeg | x.time <= s.now - cfg.waiting :: x in s.legTable <==> x in s'.legTable
    requires forall x: CallLegLink | x.time <= s.now - cfg.waiting :: x in s.linkTable <==> x in s'.linkTable
    ensures exists step: Step :: step.Source? && Next(cfg, s, s', step)
  {
    assert Next(cfg, s, s', Source(s'.now, s'.legTable, s'.linkTable, s'.online));
  }

  /** `run` is an execution in which the actors took the steps `steps`. */
  ghost predicate IsRun(cfg: Config, run: seq<State>, steps: seq<Step>) {
    && |run| == |steps| + 1 && Init(cfg, run[0])
    && forall i | 0 <= i < |steps| :: Next(cfg, run[i], run[i + 1], steps[i])
  }

  // ----- what holds in every reachable state, whatever the rows ---------------

  ghost predicate ReadersInv(cfg: Config, s: State) {
    && ReaderInv(cfg, s.legReader, s.legTable, s.now) && ReaderInv(cfg, s.linkReader, s.linkTable, s.now)
    && s.legReader.sent == s.legSeen + s.legQueue && s.linkReader.sent == s.linkSeen + s.linkQueue
  }

  ghost predicate QueuesInv(cfg: Config, s: State) {
    && |s.legQueue| <= cfg.maxQueue && |s.linkQueue| <= cfg.maxQueue && |s.outQueue| <= cfg.maxQueue
    && s.emitted == s.consumed + s.outQueue + s.outbox
  }

  ghost predicate MaximaInv(cfg: Config, s: State) {
    && (forall g | g in s.legSeen :: g.time <= s.container.maxLegTime)
    && (s.container.maxLegTime == cfg.start || exists g :: g in s.legSeen && g.time == s.container.maxLegTime)
    && (forall l | l in s.linkSeen :: l.time <= s.container.maxLinkTime)
    && (s.container.maxLinkTime == cfg.start || exists l :: l in s.linkSeen && l.time == s.container.maxLinkTime)
  }

  function CountDropped(dropped: seq<LinkGroups>, l: CallLegLink): nat {
    if dropped == [] then 0
    else CountDropped(dropped[..|dropped| - 1], l) + InGroup(dropped[|dropped| - 1], l)
  }

  ghost predicate LinksInv(s: State) {
    && s.container.Valid() && OwnLinks(s.container.data) && OwnLinks(s.emitted)
    && forall l :: multiset(s.linkSeen)[l]
                == Held(s.container, l) + CountIn(s.emitted, l) + CountDropped(s.dropped, l)
  }

  ghost predicate PipeInv(cfg: Config, s: State) {
    ReadersInv(cfg, s) && QueuesInv(cfg, s) && MaximaInv(cfg, s) && LinksInv(s)
  }

  lemma {:induction false} InitInv(cfg: Config, s: State)
    requires cfg.Valid() && Init(cfg, s)
    ensures PipeInv(cfg, s)
  {
    StartInv(cfg, s.legTable, s.now);
    StartInv(cfg, s.linkTable, s.now);
  }

  lemma {:induction false} ReaderStepInv<T(!new)>(
    cfg: Config, table: set<Row<T>>, now: int, checks: nat, offLine: bool, step: ReaderStep<T>,
    r: Reader<T>, queue: seq<Row<T>>, r': Reader<T>, queue': seq<Row<T>>, seen: seq<Row<T>>)
    requires cfg.Valid() && ReaderInv(cfg, r, table, now) && r.sent == seen + queue && |queue| <= cfg.maxQueue
    requires ReaderNext(cfg, table, now, checks, offLine, step, r, queue, r', queue')
    ensures ReaderInv(cfg, r', table, now) && r'.sent == seen + queue' && |queue'| <= cfg.maxQueue
    ensures r'.paused == r.paused && r.startTime <= r'.startTime
    ensures queue <= queue' && forall x | x in queue'[|queue|..] :: x in table && r'.startTime < x.time
  {
    hide ReaderInv;
    match step
    case DoCheck => CheckKeepsInv(cfg, r, table, now);
    case DoQuery(rows) => QueryKeepsInv(cfg, r, table, now, rows);
    case DoClear => ClearKeepsInv(cfg, r, table, now);
    case DoPush =>
      PushKeepsInv(cfg, r, table, now);
      PushedRow(cfg, r, table, now);
      var row := r.phase.rows[r.phase.next];
      assert queue'[|queue|..] == [row];
      assert seen + queue' == (seen + queue) + [row];
    case DoClose => CloseKeepsInv(cfg, r, table, now); CloseAdvances(cfg, r, table, now);
    case DoExtend => ExtendKeepsInv(cfg, r, table, now);
  }

  lemma {:induction false} PushedRow<T(!new)>(cfg: Config, r: Reader<T>, table: set<Row<T>>, now: int)
    requires ReaderInv(cfg, r, table, now) && AtRow(r)
    ensures var row := r.phase.rows[r.phase.next]; row in table && r.startTime < row.time
  {
    var row := r.phase.rows[r.phase.next];
    assert row in Elems(r.phase.rows) && row in Window(table, r.startTime, r.stopTime);
  }

  lemma {:induction false} CloseAdvances<T(!new)>(cfg: Config, r: Reader<T>, table: set<Row<T>>, now: int)
    requires cfg.Valid() && ReaderInv(cfg, r, table, now) && CanClose(r)
    ensures r.startTime < Close(r).startTime
  {
  }

  /** A pass dequeues everything, because a queue never holds more than one bulk. */
  lemma {:induction false} PassDrains(cfg: Config, s: State, looks: Looks)
    requires QueuesInv(cfg, s) && s.container.Valid()
    ensures var s' := MergeAt(cfg, s, looks);
            && s'.legQueue == [] && s'.linkQueue == []
            && s'.legSeen == s.legSeen + s.legQueue && s'.linkSeen == s.linkSeen + s.linkQueue
            && PassAt(cfg, s, looks) == RunPass(s.container, s.legQueue, s.linkQueue, looks, cfg.maxCall)
  {
    assert s.legQueue[..|s.legQueue|] == s.legQueue && s.linkQueue[..|s.linkQueue|] == s.linkQueue;
  }

  lemma {:induction false} CountDroppedSnoc(dropped: seq<LinkGroups>, groups: LinkGroups, l: CallLegLink)
    ensures CountDropped(dropped + [groups], l) == CountDropped(dropped, l) + InGroup(groups, l)
  {
    assert (dropped + [groups])[..|dropped|] == dropped;
  }

  /** Where a link is after a pass. */
  lemma {:induction false} MergeCounts(cfg: Config, s: State, looks: Looks, p: Pass, l: CallLegLink)
    requires s.container.Valid() && p == RunPass(s.container, s.legQueue, s.linkQueue, looks, cfg.maxCall)
    requires multiset(s.linkSeen)[l] == Held(s.container, l) + CountIn(s.emitted, l) + CountDropped(s.dropped, l)
    ensures multiset(s.linkSeen + s.linkQueue)[l]
            == Held(p.container, l) + CountIn(s.emitted + p.emitted, l) + CountDropped(s.dropped + [p.dropped], l)
  {
    hide RunPass, Held, CountDropped, CountIn, InGroup;
    Conservation(s.container, s.legQueue, s.linkQueue, looks, cfg.maxCall, l);
    CountInConcat(s.emitted, p.emitted, l);
    CountDroppedSnoc(s.dropped, p.dropped, l);
    assert multiset(s.linkSeen + s.linkQueue)[l] == multiset(s.linkSeen)[l] + multiset(s.linkQueue)[l];
  }

  lemma {:induction false} MergeLinksInv(cfg: Config, s: State, looks: Looks)
    requires QueuesInv(cfg, s) && LinksInv(s)
    ensures LinksInv(MergeAt(cfg, s, looks))
  {
    hide RunPass, PassAt, Throttle, OwnLinks, Held, CountDropped, CountIn, InGroup, QueuesInv;
    PassDrains(cfg, s, looks);
    var s', p := MergeAt(cfg, s, looks), PassAt(cfg, s, looks);
    PassOwnLinks(s.container, s.legQueue, s.linkQueue, looks, cfg.maxCall);
    OwnLinksConcat(s.emitted, p.emitted);
    forall l ensures multiset(s'.linkSeen)[l]
                  == Held(s'.container, l) + CountIn(s'.emitted, l) + CountDropped(s'.dropped, l)
    {
      MergeCounts(cfg, s, looks, p, l);
    }
  }

  lemma {:induction false} OwnLinksConcat(a: seq<CallRecord>, b: seq<CallRecord>)
    requires OwnLinks(a) && OwnLinks(b)
    ensures OwnLinks(a + b)
  {
  }

  lemma {:induction false} MergeMaximaInv(cfg: Config, s: State, looks: Looks)
    requires QueuesInv(cfg, s) && MaximaInv(cfg, s) && s.container.Valid()
    ensures MaximaInv(cfg, MergeAt(cfg, s, looks))
  {
    hide RunPass, Throttle;
    PassDrains(cfg, s, looks);
    var s' := MergeAt(cfg, s, looks);
    PassMaxima(s.container, s.legQueue, s.linkQueue, looks, cfg.maxCall);
    assert forall g :: g in s'.legSeen <==> g in s.legSeen || g in s.legQueue;
    assert forall l :: l in s'.linkSeen <==> l in s.linkSeen || l in s.linkQueue;
  }

  lemma {:induction false} MergeReadersInv(cfg: Config, s: State, looks: Looks)
    requires ReadersInv(cfg, s) && QueuesInv(cfg, s) && s.container.Valid()
    ensures ReadersInv(cfg, MergeAt(cfg, s, looks))
  {
    PassDrains(cfg, s, looks);
    var s' := MergeAt(cfg, s, looks);
    PausedIsFree(cfg, s.legReader, s.legTable, s.now, s'.legReader.paused);
    PausedIsFree(cfg, s.linkReader, s.linkTable, s.now, s'.linkReader.paused);
    hide ReaderInv, RunPass, Throttle;
  }

  lemma {:induction false} MergeQueuesInv(cfg: Config, s: State, looks: Looks)
    requires QueuesInv(cfg, s) && s.container.Valid() && s.outbox == []
    ensures QueuesInv(cfg, MergeAt(cfg, s, looks))
  {
    hide RunPass, PassAt, Throttle;
    PassDrains(cfg, s, looks);
    assert s.emitted + PassAt(cfg, s, looks).emitted == s.consumed + s.outQueue + PassAt(cfg, s, looks).emitted;
  }

  lemma {:induction false} MergeDrains(cfg: Config, s: State)
    requires QueuesInv(cfg, s) && s.container.Valid()
    ensures var s' := Merge(cfg, s);
            && s'.legQueue == [] && s'.linkQueue == []
            && s'.legSeen == s.legSeen + s.legQueue && s'.linkSeen == s.linkSeen + s.linkQueue
            && PassOf(cfg, s) == RunPass(s.container, s.legQueue, s.linkQueue, Steady(s.linkReader.startTime), cfg.maxCall)
  {
    hide RunPass, Throttle;
    PassDrains(cfg, s, Steady(s.linkReader.startTime));
  }

  lemma {:induction false} PausedIsFree<T(!new)>(cfg: Config, r: Reader<T>, table: set<Row<T>>, now: int, paused: bool)
    requires ReaderInv(cfg, r, table, now)
    ensures ReaderInv(cfg, r.(paused := paused), table, now)
  {
    assert Pushed(r.(paused := paused)) == Pushed(r);
  }

  /** Steps that leave the container and the histories alone keep what is said of them. */
  lemma {:induction false} SameHistory(cfg: Config, s: State, s': State)
    requires MaximaInv(cfg, s) && LinksInv(s)
    requires s'.container == s.container && s'.legSeen == s.legSeen && s'.linkSeen == s.linkSeen
    requires s'.emitted == s.emitted && s'.dropped == s.dropped
    ensures MaximaInv(cfg, s') && LinksInv(s')
  {
  }

  lemma {:induction false} SourceStepInv(cfg: Config, s: State, s': State, step: Step)
    requires cfg.Valid() && PipeInv(cfg, s) && step.Source? && Next(cfg, s, s', step)
    ensures PipeInv(cfg, s')
  {
    SourceKeepsInv(cfg, s.legReader, s.legTable, s.now, step.legTable, step.now);
    SourceKeepsInv(cfg, s.linkReader, s.linkTable, s.now, step.linkTable, step.now);
    SameHistory(cfg, s, s');
    hide ReaderInv, MaximaInv, LinksInv;
  }

  lemma {:induction false} LegStepInv(cfg: Config, s: State, s': State, step: Step)
    requires cfg.Valid() && PipeInv(cfg, s) && step.LegStep? && Next(cfg, s, s', step)
    ensures PipeInv(cfg, s')
  {
    hide ReaderInv, MaximaInv, LinksInv;
    ReaderStepInv(cfg, s.legTable, s.now, 0, true, step.leg, s.legReader, s.legQueue, s'.legReader, s'.legQueue, s.legSeen);
    SameHistory(cfg, s, s');
  }

  lemma {:induction false} LinkStepInv(cfg: Config, s: State, s': State, step: Step)
    requires cfg.Valid() && PipeInv(cfg, s) && step.LinkStep? && Next(cfg, s, s', step)
    ensures PipeInv(cfg, s')
  {
    hide ReaderInv, MaximaInv, LinksInv;
    ReaderStepInv(cfg, s.linkTable, s.now, 2, OffLine(s), step.link, s.linkReader, s.linkQueue, s'.linkReader, s'.linkQueue, s.linkSeen);
    SameHistory(cfg, s, s');
  }

  lemma {:induction false} OutputStepInv(cfg: Config, s: State, s': State, step: Step)
    requires cfg.Valid() && PipeInv(cfg, s) && step.OutputStep? && Next(cfg, s, s', step)
    ensures PipeInv(cfg, s')
  {
    hide ReaderInv, MaximaInv, LinksInv;
    SameHistory(cfg, s, s');
    assert s.outbox == [s.outbox[0]] + s.outbox[1..];
  }

  lemma {:induction false} ConsumeStepInv(cfg: Config, s: State, s': State, step: Step)
    requires cfg.Valid() && PipeInv(cfg, s) && step.ConsumeStep? && Next(cfg, s, s', step)
    ensures PipeInv(cfg, s')
  {
    hide ReaderInv, MaximaInv, LinksInv;
    SameHistory(cfg, s, s');
    assert s.outQueue == s.outQueue[..step.count] + s.outQueue[step.count..];
  }

  /** A pass keeps the invariant whatever clocks it finds. */
  lemma {:induction false} PassInv(cfg: Config, s: State, looks: Looks)
    requires cfg.Valid() && PipeInv(cfg, s) && s.outbox == [] && s.container.Valid()
    ensures PipeInv(cfg, MergeAt(cfg, s, looks))
  {
    hide ReadersInv, MaximaInv, LinksInv, QueuesInv, MergeAt;
    MergeQueuesInv(cfg, s, looks);
    MergeLinksInv(cfg, s, looks);
    MergeMaximaInv(cfg, s, looks);
    MergeReadersInv(cfg, s, looks);
  }

  lemma {:induction false} MergeStepInv(cfg: Config, s: State, s': State, step: Step)
    requires cfg.Valid() && PipeInv(cfg, s) && step.MergeStep? && Next(cfg, s, s', step)
    ensures PipeInv(cfg, s')
  {
    hide PipeInv, MergeAt;
    PassInv(cfg, s, Steady(s.linkReader.startTime));
  }

  lemma {:induction false} NextInv(cfg: Config, s: State, s': State, step: Step)
    requires cfg.Valid() && PipeInv(cfg, s) && Next(cfg, s, s', step)
    ensures PipeInv(cfg, s')
  {
    hide PipeInv, Next;
    match step
    case Source(_, _, _, _) => SourceStepInv(cfg, s, s', step);
    case LegStep(_) => LegStepInv(cfg, s, s', step);
    case LinkStep(_) => LinkStepInv(cfg, s, s', step);
    case MergeStep => MergeStepInv(cfg, s, s', step);
    case OutputStep => OutputStepInv(cfg, s, s', step);
    case ConsumeStep(_) => ConsumeStepInv(cfg, s, s', step);
  }

  /** The invariant holds throughout every run, with no assumption on the rows. */
  lemma {:induction false} RunInv(cfg: Config, run: seq<State>, steps: seq<Step>, i: nat)
    requires cfg.Valid() && IsRun(cfg, run, steps) && i < |run|
    ensures PipeInv(cfg, run[i])
  {
    if i == 0 {
      InitInv(cfg, run[0]);
    } else {
      hide PipeInv, Next;
      RunInv(cfg, run, steps, i - 1);
      NextInv(cfg, run[i - 1], run[i], steps[i - 1]);
    }
  }

  /** Step `i` of a run, with the invariant of the state it leaves. */
  lemma {:induction false} StepOfRun(cfg: Config, run: seq<State>, steps: seq<Step>, i: nat)
    requires cfg.Valid() && IsRun(cfg, run, steps) && 0 < i < |run|
    ensures |run| == |steps| + 1 && PipeInv(cfg, run[i - 1]) && Next(cfg, run[i - 1], run[i], steps[i - 1])
  {
    hide PipeInv, Next, Init;
    RunInv(cfg, run, steps, i - 1);
    assert Next(cfg, run[i - 1], run[i - 1 + 1], steps[i - 1]);
  }
}
