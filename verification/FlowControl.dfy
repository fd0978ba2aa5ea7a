/** Backpressure and pausing: the queues are bounded, at most one reader is paused, a
    paused reader finishes at most the window it had begun, and when it is the right
    reader that is paused. */
module FlowControl {
  import opened Rows
  import opened Readers
  import opened MergeContainers
  import opened ContainerLaws
  import opened Pipeline

  // ----- bounded queues ---------------------------------------------------------

  lemma {:induction false} QueuesAreBounded(cfg: Config, run: seq<State>, steps: seq<Step>, i: nat)
    requires cfg.Valid() && IsRun(cfg, run, steps) && i < |run|
    ensures |run[i].legQueue| <= cfg.maxQueue && |run[i].linkQueue| <= cfg.maxQueue && |run[i].outQueue| <= cfg.maxQueue
    ensures run[i].emitted == run[i].consumed + run[i].outQueue + run[i].outbox
  {
    RunInv(cfg, run, steps, i);
  }

  // ----- at most one reader is paused -------------------------------------------

  lemma {:induction false} PausedStays(cfg: Config, s: State, s': State, step: Step)
    requires Next(cfg, s, s', step) && !step.MergeStep?
    ensures s'.legReader.paused == s.legReader.paused && s'.linkReader.paused == s.linkReader.paused
  {
  }

  lemma {:induction false} MergePauses(cfg: Config, s: State)
    requires s.container.Valid()
    ensures var s' := Merge(cfg, s); var c := s'.container;
            (s'.legReader.paused, s'.linkReader.paused)
            == Throttle(cfg.maxCall, c.maxLegTime, c.maxLinkTime, s.legReader.paused, s.linkReader.paused)
  {
    hide RunPass;
  }

  lemma {:induction false} NeverBothPaused(cfg: Config, run: seq<State>, steps: seq<Step>, i: nat)
    requires cfg.Valid() && IsRun(cfg, run, steps) && i < |run|
    ensures !(run[i].legReader.paused && run[i].linkReader.paused)
  {
    if i > 0 {
      NeverBothPaused(cfg, run, steps, i - 1);
      var s, step := run[i - 1], steps[i - 1];
      assert Next(cfg, s, run[i - 1 + 1], step);
      if step.MergeStep? {
        hide Merge;
        MergePauses(cfg, s);
      } else {
        hide Next;
        PausedStays(cfg, s, run[i], step);
      }
    }
  }

  // ----- a paused reader -----------------------------------------------------------

  /** How far a reader that stayed paused from `r` on can have come. */
  ghost predicate HeldBack<T(!new)>(r: Reader<T>, later: Reader<T>) {
    if r.phase.Pushing? && r.phase.next <= |r.phase.rows| then
      var rest := r.phase.rows[r.phase.next..];
      || (later.phase.Pushing? && later.phase.rows == r.phase.rows && r.phase.next <= later.phase.next <= |r.phase.rows|
          && later.windows == r.windows && later.startTime == r.startTime && later.stopTime == r.stopTime
          && later.sent == r.sent + r.phase.rows[r.phase.next..later.phase.next])
      || (!later.phase.Pushing? && later.windows == r.windows + [(r.startTime, r.stopTime)]
          && later.startTime == r.stopTime && later.sent == r.sent + rest)
    else
      !later.phase.Pushing? && later.windows == r.windows && later.startTime == r.startTime && later.sent == r.sent
  }

  lemma {:induction false} HeldBackStep<T(!new)>(
    cfg: Config, table: set<Row<T>>, now: int, checks: nat, offLine: bool, step: ReaderStep<T>,
    r: Reader<T>, a: Reader<T>, queue: seq<Row<T>>, b: Reader<T>, queue': seq<Row<T>>)
    requires HeldBack(r, a) && a.paused && (r.phase.Extending? || !a.phase.Extending? || r.phase.Pushing?)
    requires r.phase.Pushing? ==> r.phase.next <= |r.phase.rows|
    requires ReaderNext(cfg, table, now, checks, offLine, step, a, queue, b, queue')
    ensures HeldBack(r, b)
    ensures r.phase.Extending? || !b.phase.Extending? || r.phase.Pushing?
  {
    if step.DoPush? {
      var rows := r.phase.rows;
      assert rows[r.phase.next..b.phase.next] == rows[r.phase.next..a.phase.next] + [rows[a.phase.next]];
    } else if step.DoClose? {
      assert r.phase.rows[r.phase.next..a.phase.next] == r.phase.rows[r.phase.next..];
    }
  }

  /** While the leg reader stays paused it finishes the window it was pushing, at most. */
  lemma {:induction false} PausedLegReader(cfg: Config, run: seq<State>, steps: seq<Step>, i: nat, j: nat)
    requires cfg.Valid() && IsRun(cfg, run, steps) && i <= j < |run|
    requires forall k | i <= k <= j :: run[k].legReader.paused
    ensures HeldBack(run[i].legReader, run[j].legReader)
    ensures run[i].legReader.phase.Extending? || !run[j].legReader.phase.Extending? || run[i].legReader.phase.Pushing?
    decreases j
  {
    hide Merge, ReaderInv, LinksInv, MaximaInv;
    RunInv(cfg, run, steps, i);
    PushingInRange(cfg, run[i]);
    if i < j {
      PausedLegReader(cfg, run, steps, i, j - 1);
      var s, s', step := run[j - 1], run[j], steps[j - 1];
      assert Next(cfg, s, run[j - 1 + 1], step);
      match step
      case LegStep(leg) =>
        HeldBackStep(cfg, s.legTable, s.now, 0, true, leg, run[i].legReader, s.legReader, s.legQueue, s'.legReader, s'.legQueue);
      case MergeStep => MergeLeavesReaders(cfg, s);
      case Source(_, _, _, _) =>
      case LinkStep(_) =>
      case OutputStep =>
      case ConsumeStep(_) =>
    }
  }

  lemma {:induction false} PausedLinkReader(cfg: Config, run: seq<State>, steps: seq<Step>, i: nat, j: nat)
    requires cfg.Valid() && IsRun(cfg, run, steps) && i <= j < |run|
    requires forall k | i <= k <= j :: run[k].linkReader.paused
    ensures HeldBack(run[i].linkReader, run[j].linkReader)
    ensures run[i].linkReader.phase.Extending? || !run[j].linkReader.phase.Extending? || run[i].linkReader.phase.Pushing?
    decreases j
  {
    hide Merge, ReaderInv, LinksInv, MaximaInv;
    RunInv(cfg, run, steps, i);
    PushingInRange(cfg, run[i]);
    if i < j {
      PausedLinkReader(cfg, run, steps, i, j - 1);
      var s, s', step := run[j - 1], run[j], steps[j - 1];
      assert Next(cfg, s, run[j - 1 + 1], step);
      match step
      case LinkStep(link) =>
        HeldBackStep(cfg, s.linkTable, s.now, 2, OffLine(s), link, run[i].linkReader, s.linkReader, s.linkQueue, s'.linkReader, s'.linkQueue);
      case MergeStep => MergeLeavesReaders(cfg, s);
      case Source(_, _, _, _) =>
      case LegStep(_) =>
      case OutputStep =>
      case ConsumeStep(_) =>
    }
  }

  lemma {:induction false} PushingInRange(cfg: Config, s: State)
    requires PipeInv(cfg, s)
    ensures s.legReader.phase.Pushing? ==> s.legReader.phase.next <= |s.legReader.phase.rows|
    ensures s.linkReader.phase.Pushing? ==> s.linkReader.phase.next <= |s.linkReader.phase.rows|
  {
  }

  lemma {:induction false} MergeLeavesReaders(cfg: Config, s: State)
    requires s.container.Valid()
    ensures var s' := Merge(cfg, s);
            s'.legReader == s.legReader.(paused := s'.legReader.paused) && s'.linkReader == s.linkReader.(paused := s'.linkReader.paused)
  {
    hide RunPass;
  }

  // ----- which reader is paused -----------------------------------------------------

  /** A paused reader is more than two call times ahead of the other. */
  ghost predicate PausedAhead(cfg: Config, s: State) {
    && (s.legReader.paused ==> s.container.maxLegTime - s.container.maxLinkTime > cfg.maxCall * 2)
    && (s.linkReader.paused ==> s.container.maxLinkTime - s.container.maxLegTime > cfg.maxCall * 2)
  }

  /** What is queued does not overtake the paused reader by more than the pausing distance:
      each row of the other queue is close enough to the newest row of the paused reader
      that was dequeued or is queued. */
  ghost predicate QueuesKeepUp(cfg: Config, s: State) {
    && (s.legReader.paused ==> forall l | l in s.linkQueue ::
          || l.time - s.container.maxLegTime <= cfg.maxCall * 2
          || exists g :: g in s.legQueue && l.time - g.time <= cfg.maxCall * 2)
    && (s.linkReader.paused ==> forall g | g in s.legQueue ::
          || g.time - s.container.maxLinkTime <= cfg.maxCall * 2
          || exists l :: l in s.linkQueue && g.time - l.time <= cfg.maxCall * 2)
  }

  lemma {:induction false} QueuesDecide(cfg: Config, s: State)
    requires cfg.Valid() && QueuesInv(cfg, s) && s.container.Valid() && PausedAhead(cfg, s)
    ensures var c := Merge(cfg, s).container;
            QueuesKeepUp(cfg, s)
            <==> && (s.legReader.paused ==> c.maxLinkTime - c.maxLegTime <= cfg.maxCall * 2)
                 && (s.linkReader.paused ==> c.maxLegTime - c.maxLinkTime <= cfg.maxCall * 2)
  {
    hide RunPass, Merge, PassOf;
    MergeDrains(cfg, s);
    MergeContainerIs(cfg, s);
    PassMaxima(s.container, s.legQueue, s.linkQueue, Steady(s.linkReader.startTime), cfg.maxCall);
  }

  /** Exactly when a pass leaves the right reader paused: what is queued does not overtake it. */
  lemma {:induction false} PassKeepsAhead(cfg: Config, s: State)
    requires cfg.Valid() && QueuesInv(cfg, s) && s.container.Valid() && PausedAhead(cfg, s) && !(s.legReader.paused && s.linkReader.paused)
    ensures PausedAhead(cfg, Merge(cfg, s)) <==> QueuesKeepUp(cfg, s)
  {
    hide Merge, QueuesInv, QueuesKeepUp;
    MergePauses(cfg, s);
    QueuesDecide(cfg, s);
  }

  lemma {:induction false} OthersKeepAhead(cfg: Config, s: State, s': State, step: Step)
    requires Next(cfg, s, s', step) && !step.MergeStep? && PausedAhead(cfg, s)
    ensures PausedAhead(cfg, s')
  {
    PausedStays(cfg, s, s', step);
  }

  /** One step of a run, when the right reader was paused before it. */
  lemma {:induction false} StepKeepsAhead(cfg: Config, run: seq<State>, steps: seq<Step>, i: nat)
    requires cfg.Valid() && IsRun(cfg, run, steps) && i < |steps| && PausedAhead(cfg, run[i])
    ensures PausedAhead(cfg, run[i + 1]) <==> (steps[i].MergeStep? ==> QueuesKeepUp(cfg, run[i]))
  {
    hide ReadersInv, MaximaInv, QueuesInv, PausedAhead, QueuesKeepUp, Merge;
    RunInv(cfg, run, steps, i);
    NeverBothPaused(cfg, run, steps, i);
    assert Next(cfg, run[i], run[i + 1], steps[i]);
    if steps[i].MergeStep? {
      PassKeepsAhead(cfg, run[i]);
    } else {
      hide Next;
      OthersKeepAhead(cfg, run[i], run[i + 1], steps[i]);
    }
  }

  ghost predicate AlwaysKeepUp(cfg: Config, run: seq<State>, steps: seq<Step>)
    requires |run| == |steps| + 1
  {
    forall i | 0 <= i < |steps| && steps[i].MergeStep? :: QueuesKeepUp(cfg, run[i])
  }

  lemma {:induction false} KeepingUpIsEnough(cfg: Config, run: seq<State>, steps: seq<Step>, i: nat)
    requires cfg.Valid() && IsRun(cfg, run, steps) && AlwaysKeepUp(cfg, run, steps) && i < |run|
    ensures PausedAhead(cfg, run[i])
  {
    if i > 0 {
      hide IsRun, PausedAhead, QueuesKeepUp;
      KeepingUpIsEnough(cfg, run, steps, i - 1);
      StepKeepsAhead(cfg, run, steps, i - 1);
    }
  }

  /** Exactly the runs in which it is always the right reader that is paused: those in which
      every pass finds queues that keep up. */
  lemma {:induction false} AlwaysAhead(cfg: Config, run: seq<State>, steps: seq<Step>)
    requires cfg.Valid() && IsRun(cfg, run, steps)
    ensures (forall i | 0 <= i < |run| :: PausedAhead(cfg, run[i])) <==> AlwaysKeepUp(cfg, run, steps)
  {
    hide PausedAhead, QueuesKeepUp, Next, Init;
    if forall i | 0 <= i < |run| :: PausedAhead(cfg, run[i]) {
      forall i | 0 <= i < |steps| && steps[i].MergeStep? ensures QueuesKeepUp(cfg, run[i]) {
        assert PausedAhead(cfg, run[i]) && PausedAhead(cfg, run[i + 1]);
        StepKeepsAhead(cfg, run, steps, i);
      }
    }
    if AlwaysKeepUp(cfg, run, steps) {
      forall i | 0 <= i < |run| ensures PausedAhead(cfg, run[i]) {
        KeepingUpIsEnough(cfg, run, steps, i);
      }
    }
  }

  /** No single pass moves a maximum by more than four call times. */
  ghost predicate SmallBatches(cfg: Config, run: seq<State>) {
    forall i | 0 < i < |run| ::
      && run[i].container.maxLegTime - run[i - 1].container.maxLegTime <= cfg.maxCall * 4
      && run[i].container.maxLinkTime - run[i - 1].container.maxLinkTime <= cfg.maxCall * 4
  }

  /** In a run of small batches the queues always keep up. */
  lemma {:induction false} PausedReaderIsAhead(cfg: Config, run: seq<State>, steps: seq<Step>, i: nat)
    requires cfg.Valid() && IsRun(cfg, run, steps) && SmallBatches(cfg, run) && i < |run|
    ensures PausedAhead(cfg, run[i])
  {
    if i > 0 {
      hide ReadersInv, MaximaInv, LinksInv, QueuesInv, Next, Init, QueuesKeepUp, Merge;
      PausedReaderIsAhead(cfg, run, steps, i - 1);
      StepOfRun(cfg, run, steps, i);
      StepKeepsAhead(cfg, run, steps, i - 1);
      if steps[i - 1].MergeStep? {
        SmallPassKeepsUp(cfg, run[i - 1], run[i], steps[i - 1]);
      }
    }
  }

  lemma {:induction false} SmallPassKeepsUp(cfg: Config, s: State, s': State, step: Step)
    requires cfg.Valid() && QueuesInv(cfg, s) && PausedAhead(cfg, s) && Next(cfg, s, s', step) && step.MergeStep?
    requires s'.container.maxLegTime - s.container.maxLegTime <= cfg.maxCall * 4
    requires s'.container.maxLinkTime - s.container.maxLinkTime <= cfg.maxCall * 4
    ensures QueuesKeepUp(cfg, s)
  {
    hide QueuesInv, Merge, QueuesKeepUp;
    QueuesDecide(cfg, s);
    PassAdvances(cfg, s);
  }

  lemma {:induction false} PassAdvances(cfg: Config, s: State)
    requires QueuesInv(cfg, s) && s.container.Valid()
    ensures s.container.maxLegTime <= Merge(cfg, s).container.maxLegTime
    ensures s.container.maxLinkTime <= Merge(cfg, s).container.maxLinkTime
  {
    MergeDrains(cfg, s);
    PassMaxima(s.container, s.legQueue, s.linkQueue, Steady(s.linkReader.startTime), cfg.maxCall);
    hide RunPass, Throttle;
  }

  // ----- the wrong reader paused ------------------------------------------------------

  lemma {:induction false} MergeContainerIs(cfg: Config, s: State)
    requires s.container.Valid()
    ensures Merge(cfg, s).container == PassOf(cfg, s).container
  {
    hide RunPass, Throttle;
  }

  /** The leg reader is paused although it is behind, and has nothing left in flight. */
  ghost predicate LegStalled(cfg: Config, s: State) {
    && s.legReader.paused && !s.linkReader.paused
    && s.container.maxLinkTime - s.container.maxLegTime > cfg.maxCall * 2
    && s.legQueue == [] && !s.legReader.phase.Pushing?
  }

  lemma {:induction false} StallStep(cfg: Config, s: State, s': State, step: Step)
    requires cfg.Valid() && QueuesInv(cfg, s) && LegStalled(cfg, s) && Next(cfg, s, s', step)
    ensures LegStalled(cfg, s') && s'.legReader.sent == s.legReader.sent
  {
    hide RunPass, MergeAt, PassAt;
    if step.MergeStep? {
      PassAdvances(cfg, s);
      MergeDrains(cfg, s);
      PassMaxima(s.container, s.legQueue, s.linkQueue, Steady(s.linkReader.startTime), cfg.maxCall);
      MergePauses(cfg, s);
      MergeLeavesReaders(cfg, s);
      MergeContainerIs(cfg, s);
    }
  }

  /** Such a stall is for good: the leg reader never reads another row. */
  lemma {:induction false} StallIsPermanent(cfg: Config, run: seq<State>, steps: seq<Step>, i: nat, j: nat)
    requires cfg.Valid() && IsRun(cfg, run, steps) && i <= j < |run| && LegStalled(cfg, run[i])
    ensures LegStalled(cfg, run[j]) && run[j].legReader.sent == run[i].legReader.sent
    decreases j
  {
    hide IsRun, ReadersInv, MaximaInv, LinksInv, QueuesInv, Next, LegStalled;
    if i < j {
      StallIsPermanent(cfg, run, steps, i, j - 1);
      StepOfRun(cfg, run, steps, j);
      StallStep(cfg, run[j - 1], run[j], steps[j - 1]);
    }
  }

  /** The same with the readers exchanged. */
  ghost predicate LinkStalled(cfg: Config, s: State) {
    && s.linkReader.paused && !s.legReader.paused
    && s.container.maxLegTime - s.container.maxLinkTime > cfg.maxCall * 2
    && s.linkQueue == [] && !s.linkReader.phase.Pushing?
  }

  lemma {:induction false} LinkStallStep(cfg: Config, s: State, s': State, step: Step)
    requires cfg.Valid() && QueuesInv(cfg, s) && LinkStalled(cfg, s) && Next(cfg, s, s', step)
    ensures LinkStalled(cfg, s') && s'.linkReader.sent == s.linkReader.sent
  {
    hide RunPass, MergeAt, PassAt;
    if step.MergeStep? {
      PassAdvances(cfg, s);
      MergeDrains(cfg, s);
      PassMaxima(s.container, s.legQueue, s.linkQueue, Steady(s.linkReader.startTime), cfg.maxCall);
      MergePauses(cfg, s);
      MergeLeavesReaders(cfg, s);
      MergeContainerIs(cfg, s);
    }
  }

  /** That stall is for good as well: the link reader never reads another row. */
  lemma {:induction false} LinkStallIsPermanent(cfg: Config, run: seq<State>, steps: seq<Step>, i: nat, j: nat)
    requires cfg.Valid() && IsRun(cfg, run, steps) && i <= j < |run| && LinkStalled(cfg, run[i])
    ensures LinkStalled(cfg, run[j]) && run[j].linkReader.sent == run[i].linkReader.sent
    decreases j
  {
    hide IsRun, ReadersInv, MaximaInv, LinksInv, QueuesInv, Next, LinkStalled;
    if i < j {
      LinkStallIsPermanent(cfg, run, steps, i, j - 1);
      StepOfRun(cfg, run, steps, j);
      LinkStallStep(cfg, run[j - 1], run[j], steps[j - 1]);
    }
  }
}
