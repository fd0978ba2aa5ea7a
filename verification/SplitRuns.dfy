/** Runs in which a pass is no single step. It works on the rows that it dequeued, but what it
    sees of the link reader's clock may belong to later moments, another for each record and
    each leg; and it sets the pause flags when it likes. Nobody but the pass itself looks at the
    container, so that its work can be placed at the moment when it emptied the queues. */
module SplitRuns {
  import opened Rows
  import opened Readers
  import opened MergeContainers
  import opened Pipeline

  /** A step of another actor, the work of a pass that sees the clock so, or a
      change of the pause flags. */
  datatype Event =
    | Acts(step: Step)
    | Works(looks: Looks)
    | Flags(legPaused: bool, linkPaused: bool)

  ghost predicate Happens(cfg: Config, s: State, s': State, e: Event) {
    match e
    case Acts(step) => !step.MergeStep? && Next(cfg, s, s', step)
    case Works(looks) => CanMerge(s) && s.container.Valid() && s' == MergeAt(cfg, s, looks)
    case Flags(legPaused, linkPaused) =>
      s' == s.(legReader := s.legReader.(paused := legPaused), linkReader := s.linkReader.(paused := linkPaused))
  }

  ghost predicate IsSplitRun(cfg: Config, run: seq<State>, events: seq<Event>) {
    && |run| == |events| + 1 && Init(cfg, run[0])
    && forall i | 0 <= i < |events| :: Happens(cfg, run[i], run[i + 1], events[i])
  }

  // ----- the invariant ------------------------------------------------------------------

  lemma {:induction false} HappensInv(cfg: Config, s: State, s': State, e: Event)
    requires cfg.Valid() && PipeInv(cfg, s) && Happens(cfg, s, s', e)
    ensures PipeInv(cfg, s')
  {
    match e
    case Acts(step) =>
      hide PipeInv, Next;
      NextInv(cfg, s, s', step);
    case Works(looks) =>
      hide PipeInv, MergeAt;
      PassInv(cfg, s, looks);
    case Flags(legPaused, linkPaused) =>
      hide ReaderInv, LinksInv, MaximaInv;
      PausedIsFree(cfg, s.legReader, s.legTable, s.now, legPaused);
      PausedIsFree(cfg, s.linkReader, s.linkTable, s.now, linkPaused);
      SameHistory(cfg, s, s');
  }

  lemma {:induction false} SplitRunInv(cfg: Config, run: seq<State>, events: seq<Event>, i: nat)
    requires cfg.Valid() && IsSplitRun(cfg, run, events) && i < |run|
    ensures PipeInv(cfg, run[i])
  {
    if i == 0 {
      InitInv(cfg, run[0]);
    } else {
      hide PipeInv, Happens;
      SplitRunInv(cfg, run, events, i - 1);
      assert Happens(cfg, run[i - 1], run[i - 1 + 1], events[i - 1]);
      HappensInv(cfg, run[i - 1], run[i], events[i - 1]);
    }
  }

  /** Event `i` of a run, with the invariant of the state that it leaves. */
  lemma {:induction false} EventOf(cfg: Config, run: seq<State>, events: seq<Event>, i: nat)
    requires cfg.Valid() && IsSplitRun(cfg, run, events) && 0 < i < |run|
    ensures |run| == |events| + 1 && PipeInv(cfg, run[i - 1]) && Happens(cfg, run[i - 1], run[i], events[i - 1])
  {
    hide PipeInv, Happens, Init;
    SplitRunInv(cfg, run, events, i - 1);
    assert Happens(cfg, run[i - 1], run[i - 1 + 1], events[i - 1]);
  }

  // ----- what only grows -------------------------------------------------------------------

  /** What was dequeued, emitted or sent stays so, old rows do not change, and what the link
      reader sends from now on is newer than its clock. */
  ghost predicate Grows(cfg: Config, s: State, t: State) {
    && s.legSeen <= t.legSeen && s.linkSeen <= t.linkSeen && s.emitted <= t.emitted
    && s.now <= t.now
    && Frozen(s.legTable, t.legTable, s.now - cfg.waiting) && Frozen(s.linkTable, t.linkTable, s.now - cfg.waiting)
    && SendsOn(s.linkReader, t.linkReader)
  }

  ghost predicate SendsOn(r: Reader<Link>, later: Reader<Link>) {
    && r.startTime <= later.startTime && r.sent <= later.sent
    && forall l | l in later.sent[|r.sent|..] :: r.startTime < l.time
  }

  lemma {:induction false} SendsOnStill(a: Reader<Link>, b: Reader<Link>, c: Reader<Link>)
    requires SendsOn(a, b) && SendsOn(b, c)
    ensures SendsOn(a, c)
  {
    assert a.sent == b.sent[..|a.sent|] && b.sent == c.sent[..|b.sent|];
    assert a.sent == c.sent[..|a.sent|];
    assert c.sent[|a.sent|..] == b.sent[|a.sent|..] + c.sent[|b.sent|..];
  }

  lemma {:induction false} Prefixes<T>(a: seq<T>, b: seq<T>, c: seq<T>)
    requires a <= b <= c
    ensures a <= c
  {
  }

  lemma {:induction false} GrowsStill(cfg: Config, s: State, t: State, u: State)
    requires Grows(cfg, s, t) && Grows(cfg, t, u)
    ensures Grows(cfg, s, u)
  {
    hide SendsOn;
    SendsOnStill(s.linkReader, t.linkReader, u.linkReader);
    Prefixes(s.legSeen, t.legSeen, u.legSeen);
    Prefixes(s.linkSeen, t.linkSeen, u.linkSeen);
    Prefixes(s.emitted, t.emitted, u.emitted);
  }

  lemma {:induction false} LinkStepSendsOn(cfg: Config, s: State, s': State, step: Step)
    requires cfg.Valid() && PipeInv(cfg, s) && step.LinkStep? && Next(cfg, s, s', step)
    ensures SendsOn(s.linkReader, s'.linkReader)
  {
    hide ReaderInv, LinksInv, MaximaInv, ReaderNext;
    var q, q' := s.linkQueue, s'.linkQueue;
    ReaderStepInv(cfg, s.linkTable, s.now, 2, OffLine(s), step.link, s.linkReader, q, s'.linkReader, q', s.linkSeen);
    assert q' == q + q'[|q|..];
    assert s.linkSeen + q' == (s.linkSeen + q) + q'[|q|..];
  }

  lemma {:induction false} HappensGrows(cfg: Config, s: State, s': State, e: Event)
    requires cfg.Valid() && PipeInv(cfg, s) && Happens(cfg, s, s', e)
    ensures Grows(cfg, s, s')
  {
    hide ReaderNext, RunPass, PipeInv, ReaderInv;
    if e.Acts? && e.step.LinkStep? {
      LinkStepSendsOn(cfg, s, s', e.step);
    }
  }

  lemma {:induction false} RunGrows(cfg: Config, run: seq<State>, events: seq<Event>, i: nat, j: nat)
    requires cfg.Valid() && IsSplitRun(cfg, run, events) && i <= j < |run|
    ensures Grows(cfg, run[i], run[j])
    decreases j
  {
    hide IsSplitRun, PipeInv, Happens, Grows;
    if i == j {
      GrowsItself(cfg, run[i]);
    } else {
      RunGrows(cfg, run, events, i, j - 1);
      EventOf(cfg, run, events, j);
      HappensGrows(cfg, run[j - 1], run[j], events[j - 1]);
      GrowsStill(cfg, run[i], run[j - 1], run[j]);
    }
  }

  lemma {:induction false} GrowsItself(cfg: Config, s: State)
    ensures Grows(cfg, s, s)
  {
  }

  // ----- runs of single steps ----------------------------------------------------------------

  /** The events of a run in which every pass is one step. */
  ghost function Events(run: seq<State>, steps: seq<Step>): seq<Event>
    requires |run| == |steps| + 1
  {
    seq(|steps|, i requires 0 <= i < |steps| =>
      if steps[i].MergeStep? then Works(Steady(run[i].linkReader.startTime)) else Acts(steps[i]))
  }

  lemma {:induction false} StepsAreEvents(cfg: Config, run: seq<State>, steps: seq<Step>)
    requires IsRun(cfg, run, steps)
    ensures IsSplitRun(cfg, run, Events(run, steps))
  {
    hide Init, ReaderNext, RunPass, MergeAt;
    forall i | 0 <= i < |steps| ensures Happens(cfg, run[i], run[i + 1], Events(run, steps)[i]) {
      assert Next(cfg, run[i], run[i + 1], steps[i]);
    }
  }
}
