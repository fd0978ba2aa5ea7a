/** Ways to reach a given state, used to show that a bad state can occur. */
module Scenarios {
  import opened Rows
  import opened Readers
  import opened MergeContainers
  import opened Pipeline

  /** The tables never change, so that what is true of the rows of `s` is so at all times. */
  ghost predicate Still(run: seq<State>, s: State) {
    forall i | 0 <= i < |run| :: run[i].legTable == s.legTable && run[i].linkTable == s.linkTable
  }

  ghost predicate Reachable(cfg: Config, s: State) {
    exists run, steps :: IsRun(cfg, run, steps) && run[|steps|] == s && Still(run, s)
  }

  lemma {:induction false} InitReachable(cfg: Config, s: State)
    requires Init(cfg, s)
    ensures Reachable(cfg, s)
  {
    assert IsRun(cfg, [s], []) && Still([s], s);
  }

  lemma {:induction false} StepReachable(cfg: Config, s: State, s': State, step: Step)
    requires Reachable(cfg, s) && Next(cfg, s, s', step) && s'.legTable == s.legTable && s'.linkTable == s.linkTable
    ensures Reachable(cfg, s')
  {
    hide Next, Init;
    var run, steps :| IsRun(cfg, run, steps) && run[|steps|] == s && Still(run, s);
    var run', steps' := run + [s'], steps + [step];
    forall i | 0 <= i < |steps'| ensures Next(cfg, run'[i], run'[i + 1], steps'[i]) {
      if i < |steps| {
        assert Next(cfg, run[i], run[i + 1], steps[i]);
      }
    }
    assert IsRun(cfg, run', steps') && Still(run', s');
  }

  /** `n` steps lead a reader and its queue from the first pair to the second, while the
      clock and the table stand still. */
  ghost predicate Reads<T(!new)>(cfg: Config, table: set<Row<T>>, now: int, checks: nat, n: nat,
                                 r: Reader<T>, queue: seq<Row<T>>, r': Reader<T>, queue': seq<Row<T>>)
  {
    if n == 0 then r' == r && queue' == queue
    else exists m, q, step ::
      ReaderNext(cfg, table, now, checks, true, step, r, queue, m, q) && Reads(cfg, table, now, checks, n - 1, m, q, r', queue')
  }

  lemma {:induction false} ReadOne<T(!new)>(cfg: Config, table: set<Row<T>>, now: int, checks: nat, n: nat, step: ReaderStep<T>,
                         r: Reader<T>, queue: seq<Row<T>>, m: Reader<T>, q: seq<Row<T>>, r': Reader<T>, queue': seq<Row<T>>)
    requires ReaderNext(cfg, table, now, checks, true, step, r, queue, m, q) && Reads(cfg, table, now, checks, n, m, q, r', queue')
    ensures Reads(cfg, table, now, checks, n + 1, r, queue, r', queue')
  {
  }

  lemma {:induction false} LegReads(cfg: Config, s: State, n: nat, r': Reader<Leg>, queue': seq<CallLeg>)
    requires Reachable(cfg, s) && Reads(cfg, s.legTable, s.now, 0, n, s.legReader, s.legQueue, r', queue')
    ensures Reachable(cfg, s.(legReader := r', legQueue := queue'))
    decreases n
  {
    if n == 0 {
      assert s.(legReader := r', legQueue := queue') == s;
    } else {
      hide Reachable;
      var m, q, step :| ReaderNext(cfg, s.legTable, s.now, 0, true, step, s.legReader, s.legQueue, m, q)
                     && Reads(cfg, s.legTable, s.now, 0, n - 1, m, q, r', queue');
      var t := s.(legReader := m, legQueue := q);
      StepReachable(cfg, s, t, LegStep(step));
      LegReads(cfg, t, n - 1, r', queue');
      assert t.(legReader := r', legQueue := queue') == s.(legReader := r', legQueue := queue');
    }
  }

  lemma {:induction false} LinkReads(cfg: Config, s: State, n: nat, r': Reader<Link>, queue': seq<CallLegLink>)
    requires Reachable(cfg, s) && s.online == {} && Reads(cfg, s.linkTable, s.now, 2, n, s.linkReader, s.linkQueue, r', queue')
    ensures Reachable(cfg, s.(linkReader := r', linkQueue := queue'))
    decreases n
  {
    if n == 0 {
      assert s.(linkReader := r', linkQueue := queue') == s;
    } else {
      hide Reachable;
      var m, q, step :| ReaderNext(cfg, s.linkTable, s.now, 2, true, step, s.linkReader, s.linkQueue, m, q)
                     && Reads(cfg, s.linkTable, s.now, 2, n - 1, m, q, r', queue');
      var t := s.(linkReader := m, linkQueue := q);
      assert OffLine(s);
      StepReachable(cfg, s, t, LinkStep(step));
      LinkReads(cfg, t, n - 1, r', queue');
      assert t.(linkReader := r', linkQueue := queue') == s.(linkReader := r', linkQueue := queue');
    }
  }

  // ----- one window ---------------------------------------------------------------

  /** A reader of a configuration with one window width, after a window with `rows`. */
  function AfterWindow<T>(cfg: Config, r: Reader<T>, rows: seq<Row<T>>): Reader<T> {
    Reader(r.stopTime, r.stopTime + cfg.maxCall, r.paused, Waiting, r.sent + rows, r.windows + [(r.startTime, r.stopTime)])
  }

  ghost predicate CanRead<T(!new)>(cfg: Config, table: set<Row<T>>, now: int, r: Reader<T>) {
    cfg.Valid() && cfg.threshold == cfg.maxCall && !r.paused && CanCheck(cfg, r, table, now)
  }

  lemma {:induction false} EmptyWindow<T(!new)>(cfg: Config, table: set<Row<T>>, now: int, checks: nat, r: Reader<T>, queue: seq<Row<T>>)
    requires CanRead(cfg, table, now, r) && Window(table, r.startTime, r.stopTime) == {}
    ensures Reads(cfg, table, now, checks, 4, r, queue, AfterWindow(cfg, r, []), queue)
  {
    var a := Check(r);
    var b := Query(a, []);
    var c := Close(b);
    var d := Extend(cfg, c, table, now);
    assert QueryResult(table, r.startTime, r.stopTime, []);
    assert d == AfterWindow(cfg, r, []) by { assert r.sent + [] == r.sent; }
    ReadOne(cfg, table, now, checks, 0, DoExtend, c, queue, d, queue, d, queue);
    ReadOne(cfg, table, now, checks, 1, DoClose, b, queue, c, queue, d, queue);
    ReadOne(cfg, table, now, checks, 2, DoQuery([]), a, queue, b, queue, d, queue);
    ReadOne(cfg, table, now, checks, 3, DoCheck, r, queue, a, queue, d, queue);
  }

  /** The end of a window with one row: push it, close the window, choose the next. */
  lemma {:induction false} LastRow<T(!new)>(cfg: Config, table: set<Row<T>>, now: int, checks: nat, r: Reader<T>, b: Reader<T>, queue: seq<Row<T>>, row: Row<T>)
    requires cfg.threshold == cfg.maxCall && |queue| < cfg.maxQueue && b == r.(phase := Pushing([row], 0, checks))
    ensures Reads(cfg, table, now, checks, 3, b, queue, AfterWindow(cfg, r, [row]), queue + [row])
  {
    var p := Push(b);
    var c := Close(p);
    var d := Extend(cfg, c, table, now);
    var q := queue + [row];
    ReadOne(cfg, table, now, checks, 0, DoExtend, c, q, d, q, d, q);
    ReadOne(cfg, table, now, checks, 1, DoClose, p, q, c, q, d, q);
    ReadOne(cfg, table, now, checks, 2, DoPush, b, queue, p, q, d, q);
  }

  lemma {:induction false} OneRowWindow<T(!new)>(cfg: Config, table: set<Row<T>>, now: int, r: Reader<T>, queue: seq<Row<T>>, row: Row<T>)
    requires CanRead(cfg, table, now, r) && Window(table, r.startTime, r.stopTime) == {row} && |queue| < cfg.maxQueue
    ensures Reads(cfg, table, now, 0, 5, r, queue, AfterWindow(cfg, r, [row]), queue + [row])
  {
    var a := Check(r);
    var b := Query(a, [row]);
    var d, q := AfterWindow(cfg, r, [row]), queue + [row];
    assert QueryResult(table, r.startTime, r.stopTime, [row]);
    LastRow(cfg, table, now, 0, r, b, queue, row);
    ReadOne(cfg, table, now, 0, 3, DoQuery([row]), a, queue, b, queue, d, q);
    ReadOne(cfg, table, now, 0, 4, DoCheck, r, queue, a, queue, d, q);
  }

  /** The link reader's version: two online checks come before the push. */
  lemma {:induction false} OneLinkWindow(cfg: Config, table: set<CallLegLink>, now: int, r: Reader<Link>, queue: seq<CallLegLink>, row: CallLegLink)
    requires CanRead(cfg, table, now, r) && Window(table, r.startTime, r.stopTime) == {row} && |queue| < cfg.maxQueue
    ensures Reads(cfg, table, now, 2, 7, r, queue, AfterWindow(cfg, r, [row]), queue + [row])
  {
    var a := Check(r);
    var b := Query(a, [row]);
    var e := Clear(b);
    var f := Clear(e);
    var d, q := AfterWindow(cfg, r, [row]), queue + [row];
    assert QueryResult(table, r.startTime, r.stopTime, [row]);
    LastRow(cfg, table, now, 2, r, f, queue, row);
    ReadOne(cfg, table, now, 2, 3, DoClear, e, queue, f, queue, d, q);
    ReadOne(cfg, table, now, 2, 4, DoClear, b, queue, e, queue, d, q);
    ReadOne(cfg, table, now, 2, 5, DoQuery([row]), a, queue, b, queue, d, q);
    ReadOne(cfg, table, now, 2, 6, DoCheck, r, queue, a, queue, d, q);
  }

  lemma {:induction false} ReadsTrans<T(!new)>(cfg: Config, table: set<Row<T>>, now: int, checks: nat, n: nat, m: nat,
      a: Reader<T>, p: seq<Row<T>>, b: Reader<T>, q: seq<Row<T>>, c: Reader<T>, t: seq<Row<T>>)
    requires Reads(cfg, table, now, checks, n, a, p, b, q) && Reads(cfg, table, now, checks, m, b, q, c, t)
    ensures Reads(cfg, table, now, checks, n + m, a, p, c, t)
    decreases n
  {
    if n > 0 {
      var x, y, step :| ReaderNext(cfg, table, now, checks, true, step, a, p, x, y) && Reads(cfg, table, now, checks, n - 1, x, y, b, q);
      ReadsTrans(cfg, table, now, checks, n - 1, m, x, y, b, q, c, t);
      ReadOne(cfg, table, now, checks, n - 1 + m, step, a, p, x, y, c, t);
    }
  }

  /** The first row of a window with two. */
  lemma {:induction false} HalfWindow(cfg: Config, table: set<CallLeg>, now: int, r: Reader<Leg>, queue: seq<CallLeg>, a: CallLeg, b: CallLeg)
    requires CanRead(cfg, table, now, r) && Window(table, r.startTime, r.stopTime) == {a, b} && a.id < b.id && |queue| < cfg.maxQueue
    ensures Reads(cfg, table, now, 0, 3, r, queue, r.(phase := Pushing([a, b], 1, 0), sent := r.sent + [a]), queue + [a])
  {
    var c := Check(r);
    var d := Query(c, [a, b]);
    var e := Push(d);
    assert QueryResult(table, r.startTime, r.stopTime, [a, b]) by {
      assert Elems([a, b]) == {a, b};
    }
    ReadOne(cfg, table, now, 0, 0, DoPush, d, queue, e, queue + [a], e, queue + [a]);
    ReadOne(cfg, table, now, 0, 1, DoQuery([a, b]), c, queue, d, queue, e, queue + [a]);
    ReadOne(cfg, table, now, 0, 2, DoCheck, r, queue, c, queue, e, queue + [a]);
  }

  /** The rest of a window with two rows. */
  lemma {:induction false} RestOfWindow(cfg: Config, table: set<CallLeg>, now: int, r: Reader<Leg>, queue: seq<CallLeg>, a: CallLeg, b: CallLeg)
    requires cfg.threshold == cfg.maxCall && r.phase == Pushing([a, b], 1, 0) && |queue| < cfg.maxQueue
    ensures Reads(cfg, table, now, 0, 3, r, queue, AfterWindow(cfg, r, [b]), queue + [b])
  {
    var p := Push(r);
    var c := Close(p);
    var d := Extend(cfg, c, table, now);
    var q := queue + [b];
    ReadOne(cfg, table, now, 0, 0, DoExtend, c, q, d, q, d, q);
    ReadOne(cfg, table, now, 0, 1, DoClose, p, q, c, q, d, q);
    ReadOne(cfg, table, now, 0, 2, DoPush, r, queue, p, q, d, q);
  }

  // ----- windows in the pipeline -----------------------------------------------------

  lemma {:induction false} LegEmpty(cfg: Config, s: State) returns (s': State)
    requires Reachable(cfg, s) && CanRead(cfg, s.legTable, s.now, s.legReader)
    requires Window(s.legTable, s.legReader.startTime, s.legReader.stopTime) == {}
    ensures Reachable(cfg, s') && s' == s.(legReader := AfterWindow(cfg, s.legReader, []))
  {
    hide Reachable, CanRead, AfterWindow;
    EmptyWindow(cfg, s.legTable, s.now, 0, s.legReader, s.legQueue);
    LegReads(cfg, s, 4, AfterWindow(cfg, s.legReader, []), s.legQueue);
    s' := s.(legReader := AfterWindow(cfg, s.legReader, []));
    assert s' == s.(legReader := AfterWindow(cfg, s.legReader, []), legQueue := s.legQueue);
  }

  lemma {:induction false} LegRow(cfg: Config, s: State, row: CallLeg) returns (s': State)
    requires Reachable(cfg, s) && CanRead(cfg, s.legTable, s.now, s.legReader)
    requires Window(s.legTable, s.legReader.startTime, s.legReader.stopTime) == {row} && |s.legQueue| < cfg.maxQueue
    ensures Reachable(cfg, s') && s' == s.(legReader := AfterWindow(cfg, s.legReader, [row]), legQueue := s.legQueue + [row])
  {
    hide Reachable, CanRead, AfterWindow;
    OneRowWindow(cfg, s.legTable, s.now, s.legReader, s.legQueue, row);
    LegReads(cfg, s, 5, AfterWindow(cfg, s.legReader, [row]), s.legQueue + [row]);
    s' := s.(legReader := AfterWindow(cfg, s.legReader, [row]), legQueue := s.legQueue + [row]);
  }

  lemma {:induction false} TwoRowWindow(cfg: Config, table: set<CallLeg>, now: int, r: Reader<Leg>, queue: seq<CallLeg>, a: CallLeg, b: CallLeg)
    requires CanRead(cfg, table, now, r) && Window(table, r.startTime, r.stopTime) == {a, b} && a.id < b.id && |queue| + 1 < cfg.maxQueue
    ensures Reads(cfg, table, now, 0, 6, r, queue, AfterWindow(cfg, r, [a, b]), queue + [a, b])
  {
    hide Reads, CanRead;
    var m := r.(phase := Pushing([a, b], 1, 0), sent := r.sent + [a]);
    HalfWindow(cfg, table, now, r, queue, a, b);
    RestOfWindow(cfg, table, now, m, queue + [a], a, b) by {
      UniformWindows(cfg, table, now, r);
    }
    assert AfterWindow(cfg, m, [b]) == AfterWindow(cfg, r, [a, b]) by {
      assert r.sent + [a] + [b] == r.sent + [a, b];
    }
    assert queue + [a] + [b] == queue + [a, b];
    ReadsTrans(cfg, table, now, 0, 3, 3, r, queue, m, queue + [a], AfterWindow(cfg, r, [a, b]), queue + [a, b]);
  }

  lemma {:induction false} UniformWindows<T(!new)>(cfg: Config, table: set<Row<T>>, now: int, r: Reader<T>)
    requires CanRead(cfg, table, now, r)
    ensures cfg.threshold == cfg.maxCall
  {
  }

  lemma {:induction false} LegRows(cfg: Config, s: State, a: CallLeg, b: CallLeg) returns (s': State)
    requires Reachable(cfg, s) && CanRead(cfg, s.legTable, s.now, s.legReader) && a.id < b.id
    requires Window(s.legTable, s.legReader.startTime, s.legReader.stopTime) == {a, b} && |s.legQueue| + 1 < cfg.maxQueue
    ensures Reachable(cfg, s') && s' == s.(legReader := AfterWindow(cfg, s.legReader, [a, b]), legQueue := s.legQueue + [a, b])
  {
    hide Reachable, CanRead, AfterWindow;
    TwoRowWindow(cfg, s.legTable, s.now, s.legReader, s.legQueue, a, b);
    LegReads(cfg, s, 6, AfterWindow(cfg, s.legReader, [a, b]), s.legQueue + [a, b]);
    s' := s.(legReader := AfterWindow(cfg, s.legReader, [a, b]), legQueue := s.legQueue + [a, b]);
  }

  lemma {:induction false} LinkEmpty(cfg: Config, s: State) returns (s': State)
    requires Reachable(cfg, s) && s.online == {} && CanRead(cfg, s.linkTable, s.now, s.linkReader)
    requires Window(s.linkTable, s.linkReader.startTime, s.linkReader.stopTime) == {}
    ensures Reachable(cfg, s') && s' == s.(linkReader := AfterWindow(cfg, s.linkReader, []))
  {
    hide Reachable, CanRead, AfterWindow;
    EmptyWindow(cfg, s.linkTable, s.now, 2, s.linkReader, s.linkQueue);
    LinkReads(cfg, s, 4, AfterWindow(cfg, s.linkReader, []), s.linkQueue);
    s' := s.(linkReader := AfterWindow(cfg, s.linkReader, []));
    assert s' == s.(linkReader := AfterWindow(cfg, s.linkReader, []), linkQueue := s.linkQueue);
  }

  lemma {:induction false} LinkRow(cfg: Config, s: State, row: CallLegLink) returns (s': State)
    requires Reachable(cfg, s) && s.online == {} && CanRead(cfg, s.linkTable, s.now, s.linkReader)
    requires Window(s.linkTable, s.linkReader.startTime, s.linkReader.stopTime) == {row} && |s.linkQueue| < cfg.maxQueue
    ensures Reachable(cfg, s') && s' == s.(linkReader := AfterWindow(cfg, s.linkReader, [row]), linkQueue := s.linkQueue + [row])
  {
    hide Reachable, CanRead, AfterWindow;
    OneLinkWindow(cfg, s.linkTable, s.now, s.linkReader, s.linkQueue, row);
    LinkReads(cfg, s, 7, AfterWindow(cfg, s.linkReader, [row]), s.linkQueue + [row]);
    s' := s.(linkReader := AfterWindow(cfg, s.linkReader, [row]), linkQueue := s.linkQueue + [row]);
  }

  // ----- rows, and passes over them ------------------------------------------------------

  function OneSecond(): Config {
    Config(1, 1, 0, 10, 0)
  }

  function TwoSeconds(): Config {
    Config(2, 2, 0, 10, 0)
  }

  function Fresh(cfg: Config, legs: set<CallLeg>, links: set<CallLegLink>): State {
    State(100, legs, links, {}, Start(cfg), Start(cfg), [], [], NoCalls(cfg.start),
          [], [], [], [], [], [], [])
  }

  function OrigLeg(id: int, time: int, name: string): CallLeg {
    Row(id, 0, time, Leg(name, true, "", ""))
  }

  function LinkTo(id: int, time: int, orig: string, term: string): CallLegLink {
    Row(id, 0, time, Link(orig, term))
  }

  function NoCalls(start: int): Container {
    Container([], map[], map[], start, start)
  }

  /** Absorbing one originating leg. */
  lemma {:induction false} AbsorbOne(g: CallLeg, start: int)
    requires g.body.orig && start <= g.time
    ensures AbsorbLegs(NoCalls(start), [g]) == Container([Open(g)], map[], map[], g.time, start)
  {
    assert [g][..0] == [];
  }

  lemma {:induction false} AbsorbTwo(g: CallLeg, x: CallLeg, start: int)
    requires g.body.orig && x.body.orig && start <= g.time <= x.time
    ensures AbsorbLegs(NoCalls(start), [g, x]) == Container([Open(g), Open(x)], map[], map[], x.time, start)
  {
    AbsorbOne(g, start);
    assert [g, x][..1] == [g];
  }

  lemma {:induction false} SweepNone(recs: seq<CallRecord>, legs: map<string, CallLeg>)
    requires forall r | r in recs :: r.links == []
    ensures SweepAll(recs, legs, map[]) == Sweep(recs, legs, map[])
  {
    if recs != [] {
      var n := |recs| - 1;
      assert recs == recs[..n] + [recs[n]] && recs[n] in recs;
      SweepNone(recs[..n], legs);
      SweepOneNone(recs[..n], recs[n], legs);
    }
  }

  lemma {:induction false} SweepOneNone(front: seq<CallRecord>, r: CallRecord, legs: map<string, CallLeg>)
    requires r.links == []
    ensures SweepOne(Sweep(front, legs, map[]), r) == Sweep(front + [r], legs, map[])
  {
    assert r.(links := [], legs := r.legs) == r;
  }

  /** A pass over originating legs only emits those that are finished. */
  lemma {:induction false} LegsOnlyPass(c: Container, legs: seq<CallLeg>, d: Container, looks: Looks, maxCall: int, r: CallRecord)
    requires c.Valid() && d == AbsorbLegs(c, legs) && d.legs == map[] && d.links == map[]
    requires forall x | x in d.data :: x.links == []
    ensures r in RunPass(c, legs, [], looks, maxCall).emitted
            <==> r in d.data && Finished(r.startTime, d.maxLegTime - maxCall, looks.AtRecord(r), maxCall)
  {
    assert Absorbed(c, legs, []) == d;
    SweepNone(d.data, map[]);
    SelectMembers(d.data, true, d.maxLegTime - maxCall, looks, maxCall);
    hide SweepAll, Select, Absorbed, AbsorbLegs;
  }

  lemma {:induction false} AbsorbMore(c: Container, g: CallLeg, x: CallLeg)
    requires c.Valid() && g.body.orig && x.body.orig && g.time <= c.maxLegTime <= x.time
    ensures AbsorbLegs(c, [g, x]) == c.(data := c.data + [Open(g), Open(x)], maxLegTime := x.time)
  {
    assert [g, x][..1] == [g] && [g][..0] == [];
    assert AbsorbLegs(c, [g]) == AbsorbLeg(AbsorbLegs(c, []), g);
    assert c.data + [Open(g)] + [Open(x)] == c.data + [Open(g), Open(x)];
  }

  lemma {:induction false} SelectOne(r: CallRecord, done: bool, saveTime: int, looks: Looks, maxCall: int)
    ensures Select([r], done, saveTime, looks, maxCall) == if Finished(r.startTime, saveTime, looks.AtRecord(r), maxCall) == done then [r] else []
  {
    assert [r][..0] == [];
  }

  lemma {:induction false} FourNames()
    ensures "a" != "b" && "a" != "c" && "a" != "d" && "a" != "z" && "b" != "c" && "b" != "d" && "c" != "d"
  {
    assert "a"[0] != "b"[0] && "a"[0] != "c"[0] && "a"[0] != "d"[0] && "a"[0] != "z"[0];
    assert "b"[0] != "c"[0] && "b"[0] != "d"[0] && "c"[0] != "d"[0];
  }
}
