/** A reader sweeps one time-stamped source table in windows (startTime, stopTime]
    and pushes the rows it finds into a bounded queue. Both readers of the source do
    this; the link reader also waits at each row until the row's call is off line. */
module Readers {
  import opened Rows

  /** `maxCall`, `threshold`, `waiting` and `maxQueue` are the settings max_call_time,
      read_threshold_second, read_waiting_second and max_queue_size. */
  datatype Config = Config(maxCall: int, threshold: int, waiting: int, maxQueue: nat, start: int) {
    predicate Valid() {
      0 < threshold <= maxCall && 0 <= waiting && 0 < maxQueue
    }
  }

  /** Where a reader is inside its loop.
      - Waiting: before the two polling waits;
      - Ready: the waits are over, getSQLData is held up by `paused` only;
      - Pushing: the query returned `rows`, of which `next` are in the queue, and the
        row at `next` has passed `cleared` of the two online checks;
      - Extending: startTime has been moved up, the next stopTime is to be chosen. */
  datatype Phase<+T> =
    | Waiting
    | Ready
    | Pushing(rows: seq<Row<T>>, next: nat, cleared: nat)
    | Extending

  /** `sent` and `windows` are histories: every row ever enqueued and every window
      ever closed, in order. */
  datatype Reader<+T> = Reader(
    startTime: int, stopTime: int, paused: bool, phase: Phase<T>,
    sent: seq<Row<T>>, windows: seq<(int, int)>)

  function Start<T>(cfg: Config): Reader<T> {
    Reader(cfg.start, cfg.start + cfg.threshold, false, Waiting, [], [])
  }

  /** `select 1 from ... where time > lo and time <= hi limit 1` returned a row. */
  ghost predicate HasRow<T(!new)>(table: set<Row<T>>, lo: int, hi: int) {
    exists r :: r in table && lo < r.time <= hi
  }

  ghost function Window<T(!new)>(table: set<Row<T>>, lo: int, hi: int): set<Row<T>> {
    set r | r in table && lo < r.time <= hi
  }

  /** A possible result of the window query: the rows of the window, each once, by id. */
  ghost predicate QueryResult<T(!new)>(table: set<Row<T>>, lo: int, hi: int, rows: seq<Row<T>>) {
    && NoDup(rows) && Elems(rows) == Window(table, lo, hi)
    && forall i, j | 0 <= i < j < |rows| :: rows[i].id <= rows[j].id
  }

  ghost predicate CanCheck<T(!new)>(cfg: Config, r: Reader<T>, table: set<Row<T>>, now: int) {
    && r.phase.Waiting? && r.stopTime != 0
    && r.stopTime <= now - cfg.threshold
    && HasRow(table, r.stopTime, now - cfg.waiting)
  }

  function Check<T>(r: Reader<T>): Reader<T> {
    r.(phase := Ready)
  }

  ghost predicate CanQuery<T(!new)>(r: Reader<T>, table: set<Row<T>>, rows: seq<Row<T>>) {
    r.phase.Ready? && !r.paused && QueryResult(table, r.startTime, r.stopTime, rows)
  }

  function Query<T>(r: Reader<T>, rows: seq<Row<T>>): Reader<T> {
    r.(phase := Pushing(rows, 0, 0))
  }

  predicate AtRow<T>(r: Reader<T>) {
    r.phase.Pushing? && r.phase.next < |r.phase.rows|
  }

  function Clear<T>(r: Reader<T>): Reader<T>
    requires AtRow(r)
  {
    r.(phase := r.phase.(cleared := r.phase.cleared + 1))
  }

  function Push<T>(r: Reader<T>): Reader<T>
    requires AtRow(r)
  {
    r.(phase := Pushing(r.phase.rows, r.phase.next + 1, 0), sent := r.sent + [r.phase.rows[r.phase.next]])
  }

  predicate CanClose<T>(r: Reader<T>) {
    r.phase.Pushing? && r.phase.next == |r.phase.rows|
  }

  function Close<T>(r: Reader<T>): Reader<T> {
    r.(phase := Extending, startTime := r.stopTime, windows := r.windows + [(r.startTime, r.stopTime)])
  }

  ghost function Extend<T(!new)>(cfg: Config, r: Reader<T>, table: set<Row<T>>, now: int): Reader<T> {
    var step := if HasRow(table, r.stopTime + cfg.maxCall, now - cfg.waiting) then cfg.maxCall else cfg.threshold;
    r.(phase := Waiting, stopTime := r.stopTime + step)
  }

  // ----- the invariant of a reader ------------------------------------------

  /** Rows that are `waiting` seconds old no longer change. */
  ghost predicate Frozen<T(!new)>(before: set<Row<T>>, after: set<Row<T>>, horizon: int) {
    forall r: Row<T> {:trigger r in before} {:trigger r in after} | r.time <= horizon :: r in before <==> r in after
  }

  /** The rows pushed out of the window being read. */
  function Pushed<T>(r: Reader<T>): seq<Row<T>>
    requires r.phase.Pushing? ==> r.phase.next <= |r.phase.rows|
  {
    if r.phase.Pushing? then r.phase.rows[..r.phase.next] else []
  }

  /** The newest stamp that may have been sent. */
  function Reach<T>(r: Reader<T>): int {
    if r.phase.Pushing? then r.stopTime else r.startTime
  }

  /** The windows read so far are contiguous from `from` to `to`, and each is one of
      the two widths wide. */
  ghost predicate Tiled(cfg: Config, windows: seq<(int, int)>, from: int, to: int) {
    if windows == [] then from == to
    else
      var n := |windows| - 1;
      && windows[n].1 == to
      && (windows[n].1 - windows[n].0 == cfg.threshold || windows[n].1 - windows[n].0 == cfg.maxCall)
      && Tiled(cfg, windows[..n], from, windows[n].0)
  }

  /** The rows of the current window, as far as they were pushed, follow the rows of
      all windows before. */
  ghost predicate Sending<T(!new)>(cfg: Config, r: Reader<T>, table: set<Row<T>>) {
    && (r.phase.Pushing? ==> r.phase.next <= |r.phase.rows| && QueryResult(table, r.startTime, r.stopTime, r.phase.rows))
    && NoDup(r.sent)
    && Elems(r.sent) == Window(table, cfg.start, r.startTime) + Elems(Pushed(r))
  }

  /** An earlier row is never a full window newer than a later one. */
  ghost predicate NearlyOrdered<T(!new)>(cfg: Config, sent: seq<Row<T>>) {
    forall i, j | 0 <= i < j < |sent| :: sent[i].time < sent[j].time + cfg.maxCall
  }

  ghost predicate ReaderInv<T(!new)>(cfg: Config, r: Reader<T>, table: set<Row<T>>, now: int) {
    && cfg.start <= r.startTime <= r.stopTime
    && (r.startTime == cfg.start || r.startTime < now - cfg.waiting)
    && (r.phase.Extending? <==> r.startTime == r.stopTime)
    && (!r.phase.Extending? ==> r.stopTime - r.startTime == cfg.threshold || r.stopTime - r.startTime == cfg.maxCall)
    && (!r.phase.Waiting? ==> r.stopTime < now - cfg.waiting)
    && Tiled(cfg, r.windows, cfg.start, r.startTime)
    && Sending(cfg, r, table)
    && NearlyOrdered(cfg, r.sent)
  }

  lemma {:induction false} StartInv<T(!new)>(cfg: Config, table: set<Row<T>>, now: int)
    requires cfg.Valid()
    ensures ReaderInv(cfg, Start<T>(cfg), table, now)
  {
  }

  /** The clock may advance and rows younger than the horizon may come, go or change. */
  lemma {:induction false} SourceKeepsInv<T(!new)>(cfg: Config, r: Reader<T>, table: set<Row<T>>, now: int, table': set<Row<T>>, now': int)
    requires cfg.Valid() && ReaderInv(cfg, r, table, now)
    requires now <= now' && Frozen(table, table', now - cfg.waiting)
    ensures ReaderInv(cfg, r, table', now')
  {
    assert Window(table', cfg.start, r.startTime) == Window(table, cfg.start, r.startTime);
    if r.phase.Pushing? {
      assert Window(table', r.startTime, r.stopTime) == Window(table, r.startTime, r.stopTime);
    }
  }

  lemma {:induction false} CheckKeepsInv<T(!new)>(cfg: Config, r: Reader<T>, table: set<Row<T>>, now: int)
    requires cfg.Valid() && ReaderInv(cfg, r, table, now) && CanCheck(cfg, r, table, now)
    ensures ReaderInv(cfg, Check(r), table, now)
  {
  }

  lemma {:induction false} QueryKeepsInv<T(!new)>(cfg: Config, r: Reader<T>, table: set<Row<T>>, now: int, rows: seq<Row<T>>)
    requires cfg.Valid() && ReaderInv(cfg, r, table, now) && CanQuery(r, table, rows)
    ensures ReaderInv(cfg, Query(r, rows), table, now)
  {
  }

  lemma {:induction false} ClearKeepsInv<T(!new)>(cfg: Config, r: Reader<T>, table: set<Row<T>>, now: int)
    requires cfg.Valid() && ReaderInv(cfg, r, table, now) && AtRow(r)
    ensures ReaderInv(cfg, Clear(r), table, now)
  {
  }

  /** Nothing sent so far is newer than the window being read. */
  lemma {:induction false} SentBelowReach<T(!new)>(cfg: Config, r: Reader<T>, table: set<Row<T>>, now: int)
    requires cfg.Valid() && ReaderInv(cfg, r, table, now)
    ensures forall x | x in r.sent :: x in table && cfg.start < x.time <= Reach(r)
  {
    forall x | x in r.sent ensures x in table && cfg.start < x.time <= Reach(r) {
      assert x in Elems(r.sent);
      if x in Elems(Pushed(r)) {
        assert x in Elems(r.phase.rows);
        assert x in Window(table, r.startTime, r.stopTime);
      }
    }
  }

  lemma {:induction false} PushKeepsInv<T(!new)>(cfg: Config, r: Reader<T>, table: set<Row<T>>, now: int)
    requires cfg.Valid() && ReaderInv(cfg, r, table, now) && AtRow(r)
    ensures ReaderInv(cfg, Push(r), table, now)
  {
    var rows, n := r.phase.rows, r.phase.next;
    var row, r' := rows[n], Push(r);
    SentBelowReach(cfg, r, table, now);
    assert row in Elems(rows) && row in Window(table, r.startTime, r.stopTime);
    assert Pushed(r') == Pushed(r) + [row];
    assert row !in Pushed(r) by {
      forall i | 0 <= i < n ensures rows[i] != row {}
    }
    assert row !in r.sent by {
      assert row !in Window(table, cfg.start, r.startTime);
      assert row in r.sent ==> row in Elems(r.sent);
    }
    NoDupConcat(r.sent, [row]);
    assert Elems(r'.sent) == Elems(r.sent) + {row};
    assert Elems(Pushed(r')) == Elems(Pushed(r)) + {row};
    forall i, j | 0 <= i < j < |r'.sent| ensures r'.sent[i].time < r'.sent[j].time + cfg.maxCall {
      if j == |r.sent| {
        assert r'.sent[i] in r.sent;
      }
    }
  }

  lemma {:induction false} CloseKeepsInv<T(!new)>(cfg: Config, r: Reader<T>, table: set<Row<T>>, now: int)
    requires cfg.Valid() && ReaderInv(cfg, r, table, now) && CanClose(r)
    ensures ReaderInv(cfg, Close(r), table, now)
  {
    var r' := Close(r);
    assert Pushed(r) == r.phase.rows;
    assert Window(table, cfg.start, r.stopTime) == Window(table, cfg.start, r.startTime) + Window(table, r.startTime, r.stopTime);
    assert r'.windows[..|r.windows|] == r.windows;
  }

  lemma {:induction false} ExtendKeepsInv<T(!new)>(cfg: Config, r: Reader<T>, table: set<Row<T>>, now: int)
    requires cfg.Valid() && ReaderInv(cfg, r, table, now) && r.phase.Extending?
    ensures ReaderInv(cfg, Extend(cfg, r, table, now), table, now)
  {
  }

  // ----- what the invariant says --------------------------------------------

  /** Exactly-once reading: outside a window being pushed, the rows sent are exactly
      the rows after the start and up to startTime, each of them once. */
  lemma {:induction false} ExactlyOnce<T(!new)>(cfg: Config, r: Reader<T>, table: set<Row<T>>, now: int)
    requires cfg.Valid() && ReaderInv(cfg, r, table, now)
    ensures NoDup(r.sent)
    ensures forall x :: x in r.sent && x.time <= r.startTime <==> x in table && cfg.start < x.time <= r.startTime
    ensures !r.phase.Pushing? ==> Elems(r.sent) == Window(table, cfg.start, r.startTime)
  {
    SentBelowReach(cfg, r, table, now);
    forall x | x in table && cfg.start < x.time <= r.startTime ensures x in r.sent {
      assert x in Window(table, cfg.start, r.startTime) && x in Elems(r.sent);
    }
  }

  /** A row still to come is newer than everything sent, less one window. */
  lemma {:induction false} LateRow<T(!new)>(cfg: Config, r: Reader<T>, table: set<Row<T>>, now: int, seen: nat, late: Row<T>)
    requires cfg.Valid() && ReaderInv(cfg, r, table, now) && seen <= |r.sent|
    requires late in table && cfg.start < late.time && late !in r.sent[..seen]
    ensures forall x | x in r.sent[..seen] :: x.time < late.time + cfg.maxCall
  {
    SentBelowReach(cfg, r, table, now);
    forall x | x in r.sent[..seen] ensures x.time < late.time + cfg.maxCall {
      var i :| 0 <= i < seen && r.sent[i] == x;
      assert forall k | 0 <= k < seen :: r.sent[..seen][k] == r.sent[k];
      if late in r.sent {
        var j :| 0 <= j < |r.sent| && r.sent[j] == late;
      } else {
        assert late !in Elems(r.sent) && late !in Window(table, cfg.start, r.startTime);
        assert x in r.sent;
      }
    }
  }
}
