/** The two readers as the objects they are. Each method is one stretch of a reader's
    loop between two points where it may have to wait, and takes the answers it gets
    from the source; together they perform the steps of Readers, and nothing else. */
module ReaderLoops {
  import opened Rows
  import opened Readers
  import opened Pipeline
  import opened Scenarios
  import OnlineReplica

  function Room(cfg: Config, queued: nat, left: nat): nat {
    if cfg.maxQueue <= queued then 0 else Min(cfg.maxQueue - queued, left)
  }

  lemma {:induction false} ReadsPush<T(!new)>(cfg: Config, table: set<Row<T>>, now: int, n: nat,
                                              r: Reader<T>, queue: seq<Row<T>>, a: Reader<T>, p: seq<Row<T>>)
    requires Reads(cfg, table, now, 0, n, r, queue, a, p) && AtRow(a) && a.phase.cleared == 0 && |p| < cfg.maxQueue
    ensures Reads(cfg, table, now, 0, n + 1, r, queue, Push(a), p + [a.phase.rows[a.phase.next]])
  {
    var b, q := Push(a), p + [a.phase.rows[a.phase.next]];
    ReadOne(cfg, table, now, 0, 0, DoPush, a, p, b, q, b, q);
    ReadsTrans(cfg, table, now, 0, n, 1, r, queue, a, p, b, q);
  }

  lemma {:induction false} ReadsNone<T(!new)>(cfg: Config, table: set<Row<T>>, now: int, r: Reader<T>, queue: seq<Row<T>>)
    ensures Reads(cfg, table, now, 0, 0, r, queue, r, queue)
  {
  }

  /** Whether the calls on line hold the row at hand back no longer. */
  ghost predicate RowIsOff(online: set<Link>, row: Link, cleared: nat) {
    if cleared == 0
    then row.uniqueidOrig == "" || forall o | o in online :: o.uniqueidOrig != row.uniqueidOrig
    else row.uniqueidTerm == "" || forall o | o in online :: o.uniqueidTerm != row.uniqueidTerm
  }

  lemma {:induction false} OffLineIs(s: State)
    requires AtRow(s.linkReader)
    ensures var r := s.linkReader; OffLine(s) <==> RowIsOff(s.online, r.phase.rows[r.phase.next].body, r.phase.cleared)
  {
  }

  class ReadCallLeg {
    var startTime: int
    var stopTime: int
    var paused: bool
    var phase: Phase<Leg>
    var queue: seq<CallLeg>
    ghost var sent: seq<CallLeg>
    ghost var windows: seq<(int, int)>

    ghost function View(): Reader<Leg>
      reads this
    {
      Reader(startTime, stopTime, paused, phase, sent, windows)
    }

    constructor (cfg: Config)
      ensures View() == Start(cfg) && queue == []
      ensures startTime == cfg.start && stopTime == cfg.start + cfg.threshold && !paused && phase == Waiting
    {
      startTime, stopTime, paused, phase := cfg.start, cfg.start + cfg.threshold, false, Waiting;
      queue, sent, windows := [], [], [];
    }

    method Pause()
      modifies this`paused
      ensures View() == old(View()).(paused := true)
    {
      paused := true;
    }

    method Resume()
      modifies this`paused
      ensures View() == old(View()).(paused := false)
    {
      paused := false;
    }

    /** The polls before a window. `newer` is the source's answer to the second one. */
    method Poll(cfg: Config, ghost table: set<CallLeg>, now: int, newer: bool) returns (ready: bool)
      requires phase.Waiting? && newer == HasRow(table, stopTime, now - cfg.waiting)
      modifies this`phase
      ensures ready <==> stopTime != 0 && stopTime <= now - cfg.threshold
                         && exists x :: x in table && stopTime < x.time <= now - cfg.waiting
      ensures ready <==> CanCheck(cfg, old(View()), table, now)
      ensures View() == if ready then Check(old(View())) else old(View())
    {
      ready := stopTime != 0 && stopTime <= now - cfg.threshold && newer;
      if ready {
        phase := Ready;
      }
    }

    /** The window query, once the reader is not paused. */
    method Fetch(ghost table: set<CallLeg>, rows: seq<CallLeg>) returns (ok: bool)
      requires phase.Ready? && QueryResult(table, startTime, stopTime, rows)
      modifies this`phase
      ensures ok == !paused && phase == if ok then Pushing(rows, 0, 0) else Ready
      ensures ok <==> CanQuery(old(View()), table, rows)
      ensures View() == if ok then Query(old(View()), rows) else old(View())
    {
      ok := !paused;
      if ok {
        phase := Pushing(rows, 0, 0);
      }
    }

    /** Enqueues rows until the window or the room in the queue is used up. */
    method Fill(cfg: Config, ghost table: set<CallLeg>, ghost now: int)
      requires phase.Pushing? && phase.cleared == 0 && phase.next <= |phase.rows|
      modifies this`phase, this`queue, this`sent
      ensures var n := Room(cfg, |old(queue)|, |old(phase).rows| - old(phase).next);
              && phase == Pushing(old(phase).rows, old(phase).next + n, 0)
              && queue == old(queue) + phase.rows[old(phase).next..phase.next]
              && Reads(cfg, table, now, 0, n, old(View()), old(queue), View(), queue)
      ensures |queue| >= cfg.maxQueue || CanClose(View())
    {
      hide Reads;
      ghost var r, q, n := View(), queue, 0;
      ReadsNone(cfg, table, now, r, q);
      while phase.next < |phase.rows| && |queue| < cfg.maxQueue
        invariant phase == Pushing(r.phase.rows, r.phase.next + n, 0) && phase.next <= |phase.rows|
        invariant n == 0 || |queue| <= cfg.maxQueue
        invariant queue == q + phase.rows[r.phase.next..phase.next]
        invariant Reads(cfg, table, now, 0, n, r, q, View(), queue)
        decreases |phase.rows| - phase.next
      {
        assert phase.rows[r.phase.next..phase.next + 1] == phase.rows[r.phase.next..phase.next] + [phase.rows[phase.next]];
        ReadsPush(cfg, table, now, n, r, q, View(), queue);
        ghost var was := View();
        queue := queue + [phase.rows[phase.next]];
        sent := sent + [phase.rows[phase.next]];
        phase := Pushing(phase.rows, phase.next + 1, 0);
        assert View() == Push(was);
        n := n + 1;
      }
    }

    /** The end of a window. `far` is the source's answer to the look ahead. */
    method Advance(cfg: Config, ghost table: set<CallLeg>, now: int, far: bool)
      requires CanClose(View()) && far == HasRow(table, stopTime + cfg.maxCall, now - cfg.waiting)
      modifies this`startTime, this`stopTime, this`phase, this`windows
      ensures View() == Extend(cfg, Close(old(View())), table, now)
      ensures phase == Waiting && startTime == old(stopTime) && windows == old(windows) + [(old(startTime), old(stopTime))]
      ensures stopTime == startTime + if exists x :: x in table && startTime + cfg.maxCall < x.time <= now - cfg.waiting
                                      then cfg.maxCall else cfg.threshold
    {
      windows := windows + [(startTime, stopTime)];
      startTime := stopTime;
      stopTime := stopTime + if far then cfg.maxCall else cfg.threshold;
      phase := Waiting;
    }
  }

  /** The link reader holds each row back while its call is on line; the rest of its
      loop is that of the leg reader. */
  class ReadCallLegLink {
    var startTime: int
    var stopTime: int
    var paused: bool
    var phase: Phase<Link>
    var queue: seq<CallLegLink>
    var waitOrig: string
    var waitTerm: string
    ghost var sent: seq<CallLegLink>
    ghost var windows: seq<(int, int)>

    ghost function View(): Reader<Link>
      reads this
    {
      Reader(startTime, stopTime, paused, phase, sent, windows)
    }

    constructor (cfg: Config)
      ensures View() == Start(cfg) && queue == [] && Waits()
      ensures startTime == cfg.start && stopTime == cfg.start + cfg.threshold && !paused && phase == Waiting
    {
      startTime, stopTime, paused, phase := cfg.start, cfg.start + cfg.threshold, false, Waiting;
      queue, sent, windows, waitOrig, waitTerm := [], [], [], "", "";
    }

    method Pause()
      modifies this`paused
      ensures View() == old(View()).(paused := true)
    {
      paused := true;
    }

    method Resume()
      modifies this`paused
      ensures View() == old(View()).(paused := false)
    {
      paused := false;
    }

    function GetTime(): int
      reads this
    {
      startTime
    }

    /** The id that the reader reports to wait for is one that the row at hand has. */
    ghost predicate Waits()
      reads this
    {
      && (waitOrig != "" ==> AtRow(View()) && phase.cleared == 0 && waitOrig == phase.rows[phase.next].body.uniqueidOrig)
      && (waitTerm != "" ==> AtRow(View()) && phase.cleared == 1 && waitTerm == phase.rows[phase.next].body.uniqueidTerm)
    }

    /** The question to the replica; a row that is on line has the id in question. */
    method Ask(online: OnlineReplica.MergeOnline, link: Link, cleared: nat) returns (onLine: bool)
      requires online.Ready()
      ensures onLine <==> !RowIsOff(online.Online(), link, cleared)
      ensures onLine ==> (if cleared == 0 then link.uniqueidOrig else link.uniqueidTerm) != ""
    {
      if cleared == 0 {
        onLine := online.CheckUniqueIdOrig(link.uniqueidOrig);
      } else {
        onLine := online.CheckUniqueIdTerm(link.uniqueidTerm);
      }
    }

    /** One look at the calls on line for the row at hand: the replica is asked by the
        originating id until that is off line, and then by the terminating id. */
    method Look(ghost s: State, online: OnlineReplica.MergeOnline)
      requires Waits() && AtRow(View()) && phase.cleared < 2 && s.linkReader == View()
      requires online.Ready() && s.online == online.Online()
      modifies this`phase, this`waitOrig, this`waitTerm
      ensures Waits()
      ensures View() == if OffLine(s) then Clear(old(View())) else old(View())
      ensures !OffLine(s) ==> waitOrig + waitTerm != ""
      ensures var off := RowIsOff(online.Online(), old(phase).rows[old(phase).next].body, old(phase).cleared);
              phase == old(phase).(cleared := old(phase).cleared + if off then 1 else 0)
    {
      hide OffLine, RowIsOff;
      OffLineIs(s);
      var link := phase.rows[phase.next].body;
      var onLine := Ask(online, link, phase.cleared);
      if phase.cleared == 0 {
        waitOrig := if onLine then link.uniqueidOrig else "";
      } else {
        waitTerm := if onLine then link.uniqueidTerm else "";
      }
      if !onLine {
        phase := phase.(cleared := phase.cleared + 1);
      }
    }

    /** The row at hand goes into the queue when it has passed both looks and there is room. */
    method Offer(cfg: Config, ghost table: set<CallLegLink>, ghost now: int) returns (ok: bool)
      requires Waits() && AtRow(View()) && phase.cleared == 2
      modifies this`phase, this`queue, this`sent
      ensures Waits()
      ensures ok ==> |old(queue)| < cfg.maxQueue && queue == old(queue) + [old(phase).rows[old(phase).next]]
                     && phase == Pushing(old(phase).rows, old(phase).next + 1, 0)
      ensures ok ==> ReaderNext(cfg, table, now, 2, true, DoPush, old(View()), old(queue), View(), queue)
      ensures !ok ==> View() == old(View()) && queue == old(queue) && cfg.maxQueue <= |queue|
    {
      ok := |queue| < cfg.maxQueue;
      if ok {
        queue := queue + [phase.rows[phase.next]];
        sent := sent + [phase.rows[phase.next]];
        phase := Pushing(phase.rows, phase.next + 1, 0);
      }
    }

    method Poll(cfg: Config, ghost table: set<CallLegLink>, now: int, newer: bool) returns (ready: bool)
      requires Waits() && phase.Waiting? && newer == HasRow(table, stopTime, now - cfg.waiting)
      modifies this`phase
      ensures ready <==> stopTime != 0 && stopTime <= now - cfg.threshold
                         && exists x :: x in table && stopTime < x.time <= now - cfg.waiting
      ensures Waits() && (ready <==> CanCheck(cfg, old(View()), table, now))
      ensures View() == if ready then Check(old(View())) else old(View())
    {
      ready := stopTime != 0 && stopTime <= now - cfg.threshold && newer;
      if ready {
        phase := Ready;
      }
    }

    method Fetch(ghost table: set<CallLegLink>, rows: seq<CallLegLink>) returns (ok: bool)
      requires Waits() && phase.Ready? && QueryResult(table, startTime, stopTime, rows)
      modifies this`phase
      ensures ok == !paused && phase == if ok then Pushing(rows, 0, 0) else Ready
      ensures Waits() && (ok <==> CanQuery(old(View()), table, rows))
      ensures View() == if ok then Query(old(View()), rows) else old(View())
    {
      ok := !paused;
      if ok {
        phase := Pushing(rows, 0, 0);
      }
    }

    method Advance(cfg: Config, ghost table: set<CallLegLink>, now: int, far: bool)
      requires Waits() && CanClose(View()) && far == HasRow(table, stopTime + cfg.maxCall, now - cfg.waiting)
      modifies this`startTime, this`stopTime, this`phase, this`windows
      ensures Waits() && View() == Extend(cfg, Close(old(View())), table, now)
      ensures phase == Waiting && startTime == old(stopTime) && windows == old(windows) + [(old(startTime), old(stopTime))]
      ensures stopTime == startTime + if exists x :: x in table && startTime + cfg.maxCall < x.time <= now - cfg.waiting
                                      then cfg.maxCall else cfg.threshold
    {
      windows := windows + [(startTime, stopTime)];
      startTime := stopTime;
      stopTime := stopTime + if far then cfg.maxCall else cfg.threshold;
      phase := Waiting;
    }
  }
}
