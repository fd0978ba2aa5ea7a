/** Copying a filtered source table to its destination: all of it, or only the rows with
    the keys that are said to have changed, inside a transaction. */
module Pullers {

  datatype Item = Item(key: int, payload: string)

  // ----- conditions and queries ------------------------------------------------------

  /** The text of a condition: nothing, the puller's own filter, a list of keys, or two of
      them in brackets joined by "and". */
  datatype Condition = Nothing | Filter | KeyIn(ids: seq<int>) | Both(first: Condition, second: Condition)

  predicate Holds(c: Condition, filter: Item -> bool, r: Item) {
    match c
    case Nothing => true
    case Filter => filter(r)
    case KeyIn(ids) => r.key in ids
    case Both(a, b) => Holds(a, filter, r) && Holds(b, filter, r)
  }

  /** "in ()" is no SQL. */
  predicate WellFormed(c: Condition) {
    match c
    case KeyIn(ids) => ids != []
    case Both(a, b) => WellFormed(a) && WellFormed(b)
    case _ => true
  }

  function Intersect(first: Condition, second: Condition): (c: Condition)
    ensures forall f, r :: Holds(c, f, r) <==> Holds(first, f, r) && Holds(second, f, r)
    ensures WellFormed(c) <==> WellFormed(first) && WellFormed(second)
  {
    if first == Nothing then second
    else if second == Nothing then first
    else Both(first, second)
  }

  /** How the destination is emptied: as a whole, or where a condition holds. */
  datatype ClearQuery = Truncate | Delete(where: Condition)

  function Selected(table: set<Item>, c: Condition, filter: Item -> bool): set<Item> {
    set r | r in table && Holds(c, filter, r)
  }

  // ----- the destination ---------------------------------------------------------------

  /** A connection. `committed` is what everybody sees, `working` what the open
      transaction sees. A command that fails has no effect. */
  class Database {
    var committed: set<Item>
    var working: set<Item>
    var open: bool

    constructor (rows: set<Item>)
      ensures committed == rows && !open
    {
      committed, working, open := rows, rows, false;
    }

    method Begin(fails: bool) returns (ok: bool)
      modifies this`working, this`open
      ensures ok == !fails && open == (ok || old(open)) && (ok ==> working == committed)
    {
      ok := !fails;
      if ok {
        working, open := committed, true;
      }
    }

    method Commit(fails: bool) returns (ok: bool)
      modifies this`committed, this`open
      ensures ok == !fails
      ensures if ok && old(open) then committed == working && !open else committed == old(committed) && open == old(open)
    {
      ok := !fails;
      if ok && open {
        committed, open := working, false;
      }
    }

    method Rollback(fails: bool) returns (ok: bool)
      modifies this`open
      ensures ok == !fails && open == (old(open) && fails)
    {
      ok := !fails;
      open := open && fails;
    }

    method Clear(q: ClearQuery, fails: bool) returns (ok: bool)
      requires open
      modifies this`working
      ensures ok == (!fails && (q.Delete? ==> WellFormed(q.where)))
      ensures working == if !ok then old(working)
                         else match q
                              case Truncate => {}
                              case Delete(where) => old(working) - Selected(old(working), where, (_: Item) => true)
    {
      ok := !fails && (q.Delete? ==> WellFormed(q.where));
      if ok {
        working := match q
          case Truncate => {}
          case Delete(where) => working - Selected(working, where, (_: Item) => true);
      }
    }
  }

  /** A transaction that is rolled back when it is given up before it was committed. */
  class Transaction {
    const db: Database
    var transaction: bool

    /** `ok` is the outcome of BEGIN; an object for which it failed is never used. */
    constructor (db: Database, ok: bool)
      ensures this.db == db && transaction == ok
    {
      this.db := db;
      transaction := ok;
    }

    method Commit(fails: bool) returns (ok: bool)
      requires transaction && db.open
      modifies this`transaction, db`committed, db`open
      ensures ok == !fails && transaction == !ok
      ensures if ok then db.committed == db.working && !db.open else db.committed == old(db.committed) && db.open
    {
      ok := db.Commit(fails);
      transaction := !ok;
    }

    method Destroy(fails: bool)
      modifies this`transaction, db`open
      ensures !old(transaction) ==> db.open == old(db.open)
      ensures old(transaction) ==> db.open == (old(db.open) && fails)
    {
      if transaction {
        var ok := db.Rollback(fails);
        transaction := !ok;
      }
    }
  }

  // ----- a pull ------------------------------------------------------------------------

  /** What goes wrong during a pull, if anything: which commands fail, and after how many
      callbacks of the copy a transfer fails or the program is told to stop. */
  datatype Faults = Faults(begin: bool, clear: bool, start: bool, transferAt: int, stopAt: int, finish: bool, commit: bool, rollback: bool)

  datatype Outcome = Done | DbError | Stopped

  /** The copy runs into none of the faults. */
  predicate CopyRuns(f: Faults, chunks: nat) {
    !f.start && !f.finish && !(0 <= f.stopAt <= chunks) && !(0 < f.transferAt <= chunks)
  }

  /** The copy is stopped before anything else goes wrong. */
  predicate CopyStops(f: Faults, chunks: nat) {
    !f.start && 0 <= f.stopAt <= chunks && (0 < f.transferAt ==> f.stopAt < f.transferAt)
  }

  function Sum(chunks: seq<nat>): nat {
    if chunks == [] then 0 else Sum(chunks[..|chunks| - 1]) + chunks[|chunks| - 1]
  }

  lemma {:induction false} SumConcat(a: seq<nat>, b: seq<nat>)
    ensures Sum(a + b) == Sum(a) + Sum(b) && forall n: nat :: Sum([n]) == n
  {
    assert forall n: nat :: [n][..0] == [];
    if b == [] {
      assert a + b == a;
    } else {
      var k := |b| - 1;
      SumConcat(a, b[..k]);
      assert (a + b)[..|a| + k] == a + b[..k];
    }
  }

  /** A change of the source to `src`, in rows with the keys `changed` only, and then a
      pull of `ids`, which succeeds if `ok`. */
  datatype Turn = Turn(src: set<Item>, changed: iset<int>, ids: seq<int>, ok: bool) {
    ghost predicate Honest(before: set<Item>) {
      forall r: Item {:trigger r in before} {:trigger r in src} | r.key !in changed :: r in before <==> r in src
    }
  }

  ghost function Source(start: set<Item>, turns: seq<Turn>): set<Item> {
    if turns == [] then start else turns[|turns| - 1].src
  }

  class Puller {
    const keyed: bool
    const hasFilter: bool
    const filter: Item -> bool
    var copiedBytes: nat
    var pullCountFull: nat
    var pullCountPartial: nat
    var pullCountErrors: nat
    var lastCopiedBytes: nat
    var totalCopiedBytes: nat
    var versionsToClean: seq<int>

    constructor (keyed: bool, hasFilter: bool, filter: Item -> bool)
      ensures this.keyed == keyed && this.hasFilter == hasFilter && this.filter == filter && versionsToClean == []
      ensures pullCountFull == 0 && pullCountPartial == 0 && pullCountErrors == 0 && lastCopiedBytes == 0 && totalCopiedBytes == 0
    {
      this.keyed, this.hasFilter, this.filter := keyed, hasFilter, filter;
      copiedBytes, pullCountFull, pullCountPartial, pullCountErrors, lastCopiedBytes, totalCopiedBytes := 0, 0, 0, 0, 0, 0;
      versionsToClean := [];
    }

    function Own(): Condition {
      if hasFilter then Filter else Nothing
    }

    predicate Full(ids: seq<int>) {
      !keyed || 0 in ids
    }

    /** The rows that the destination should mirror. */
    function Mirror(src: set<Item>): set<Item> {
      Selected(src, Own(), filter)
    }

    method IsFullPullRequired(ids: seq<int>) returns (full: bool)
      ensures full == Full(ids) && (full <==> !keyed || 0 in ids)
    {
      if !keyed {
        return true;
      }
      for i := 0 to |ids|
        invariant 0 !in ids[..i]
      {
        if ids[i] == 0 {
          return true;
        }
        assert ids[..i + 1] == ids[..i] + [ids[i]];
      }
      assert ids[..|ids|] == ids;
      return false;
    }

    method CreateUpdateQueries(ids: seq<int>) returns (condition: Condition, clear: ClearQuery)
      ensures if Full(ids) then condition == Own() && clear == Truncate
              else condition == Intersect(Own(), KeyIn(ids)) && clear == Delete(KeyIn(ids))
      ensures forall r :: Holds(condition, filter, r) <==> (hasFilter ==> filter(r)) && (!keyed || 0 in ids || r.key in ids)
      ensures clear == if !keyed || 0 in ids then Truncate else Delete(KeyIn(ids))
    {
      var full := IsFullPullRequired(ids);
      condition, clear := Own(), Delete(Nothing);
      if !full {
        clear := Delete(KeyIn(ids));
        condition := Intersect(condition, KeyIn(ids));
      } else {
        clear := Truncate;
      }
    }

    /** The copy: the callback sees 0 bytes first and then every chunk, and stops the copy
        when the program is stopping. The rows arrive when the copy is ended. */
    method Copy(db: Database, src: set<Item>, condition: Condition, chunks: seq<nat>, faults: Faults)
      returns (outcome: Outcome, bytes: nat)
      requires db.open
      modifies this`copiedBytes, db`working
      ensures outcome.Done? <==> WellFormed(condition) && CopyRuns(faults, |chunks|)
      ensures outcome.Done? ==> bytes == Sum(chunks) && copiedBytes == old(copiedBytes) + bytes
      ensures outcome.Done? ==> db.working == old(db.working) + Selected(src, condition, filter)
      ensures outcome.Stopped? <==> WellFormed(condition) && CopyStops(faults, |chunks|)
    {
      bytes := 0;
      if faults.start || !WellFormed(condition) {
        return DbError, bytes;
      }
      if faults.stopAt == 0 {
        return Stopped, bytes;
      }
      for i := 0 to |chunks|
        invariant bytes == Sum(chunks[..i]) && copiedBytes == old(copiedBytes) + bytes
        invariant db.working == old(db.working) && !(0 <= faults.stopAt <= i) && !(0 < faults.transferAt <= i)
      {
        if faults.transferAt == i + 1 {
          return DbError, bytes;
        }
        assert chunks[..i + 1][..i] == chunks[..i];
        bytes := bytes + chunks[i];
        copiedBytes := copiedBytes + chunks[i];
        if faults.stopAt == i + 1 {
          return Stopped, bytes;
        }
      }
      assert chunks[..|chunks|] == chunks;
      if faults.finish {
        return DbError, bytes;
      }
      db.working := db.working + Selected(src, condition, filter);
      return Done, bytes;
    }

    /** Nothing goes wrong, and there is something to pull: no ids at all make no SQL. */
    predicate Succeeds(ids: seq<int>, faults: Faults, chunks: nat) {
      !faults.begin && !faults.clear && CopyRuns(faults, chunks) && !faults.commit && (Full(ids) || ids != [])
    }

    /** The part of a pull that the catch clause guards. */
    method Transfer(db: Database, src: set<Item>, ids: seq<int>, chunks: seq<nat>, faults: Faults)
      returns (outcome: Outcome, bytes: nat)
      requires !db.open
      modifies this`copiedBytes, db
      ensures outcome.Done? ==> !db.open && db.committed == Pulled(old(db.committed), src, ids)
                                && bytes == Sum(chunks) && copiedBytes == bytes
      ensures outcome.Done? <==> Succeeds(ids, faults, |chunks|)
      ensures outcome.Stopped? <==> !faults.begin && !faults.clear && (Full(ids) || ids != []) && CopyStops(faults, |chunks|)
      ensures !outcome.Done? ==> db.committed == old(db.committed) && (db.open ==> faults.rollback)
    {
      bytes := 0;
      var condition, clear := CreateUpdateQueries(ids);
      copiedBytes := 0;
      var begun := db.Begin(faults.begin);
      if !begun {
        return DbError, bytes;
      }
      var trans := new Transaction(db, begun);
      var cleared := db.Clear(clear, faults.clear);
      if !cleared {
        trans.Destroy(faults.rollback);
        return DbError, bytes;
      }
      outcome, bytes := Copy(db, src, condition, chunks, faults);
      if outcome.Done? {
        var committed := trans.Commit(faults.commit);
        if !committed {
          outcome := DbError;
        }
      }
      trans.Destroy(faults.rollback);
    }

    /** The destination after a pull that succeeds. */
    function Pulled(dst: set<Item>, src: set<Item>, ids: seq<int>): set<Item> {
      if Full(ids) then Mirror(src)
      else (set r | r in dst && r.key !in ids) + (set r | r in Mirror(src) && r.key in ids)
    }

    method Pull(db: Database, src: set<Item>, ids: seq<int>, versions: seq<int>, chunks: seq<nat>, faults: Faults)
      returns (outcome: Outcome)
      requires !db.open
      modifies this, db
      ensures outcome.Done? <==> Succeeds(ids, faults, |chunks|)
      ensures outcome.Stopped? <==> !faults.begin && !faults.clear && (Full(ids) || ids != []) && CopyStops(faults, |chunks|)
      ensures outcome.Done? <==> !faults.begin && !faults.clear && !faults.start && !faults.finish && !faults.commit
                                 && (!keyed || 0 in ids || ids != []) && !(0 < faults.transferAt <= |chunks|)
                                 && !(0 <= faults.stopAt <= |chunks|)
      ensures outcome.Stopped? <==> !faults.begin && !faults.clear && !faults.start && (!keyed || 0 in ids || ids != [])
                                    && 0 <= faults.stopAt <= |chunks| && !(0 < faults.transferAt <= faults.stopAt)
      ensures outcome.Done? ==> db.committed == Pulled(old(db.committed), src, ids)
      ensures outcome.Done? ==> forall r ::
                r in db.committed <==> if keyed && 0 !in ids && r.key !in ids then r in old(db.committed)
                                       else r in src && (hasFilter ==> filter(r))
      ensures outcome.Done? ==> versionsToClean == old(versionsToClean) + versions
                                && pullCountFull == old(pullCountFull) + (if Full(ids) then 1 else 0)
                                && pullCountPartial == old(pullCountPartial) + (if Full(ids) then 0 else |ids|)
                                && lastCopiedBytes == Sum(chunks) && totalCopiedBytes == old(totalCopiedBytes) + Sum(chunks)
      ensures !outcome.Done? ==> db.committed == old(db.committed) && versionsToClean == old(versionsToClean)
                                 && pullCountFull == old(pullCountFull) && pullCountPartial == old(pullCountPartial)
                                 && lastCopiedBytes == old(lastCopiedBytes) && totalCopiedBytes == old(totalCopiedBytes)
      ensures pullCountErrors == old(pullCountErrors) + (if outcome.DbError? then 1 else 0)
    {
      var bytes;
      outcome, bytes := Transfer(db, src, ids, chunks, faults);
      if outcome.DbError? {
        pullCountErrors := pullCountErrors + 1;
      }
      if !outcome.Done? {
        return;
      }
      versionsToClean := versionsToClean + versions;
      var full := IsFullPullRequired(ids);
      if full {
        pullCountFull := pullCountFull + 1;
      } else {
        pullCountPartial := pullCountPartial + |ids|;
      }
      lastCopiedBytes := bytes;
      totalCopiedBytes := totalCopiedBytes + bytes;
    }

    method Clear()
      modifies this`versionsToClean
      ensures versionsToClean == []
    {
      if versionsToClean == [] {
        return;
      }
      versionsToClean := [];
    }

    // ----- incremental synchronisation ---------------------------------------------------

    /** The destination mirrors the source but for rows with some of these keys. */
    ghost predicate AgreeBut(dst: set<Item>, src: set<Item>, keys: iset<int>) {
      forall r: Item {:trigger r in dst} {:trigger r in Mirror(src)} | r.key !in keys :: r in dst <==> r in Mirror(src)
    }

    /** A pull makes the destination a mirror exactly if it pulls everything, or the
        destination was right about all the rows it leaves alone. */
    lemma {:induction false} PullMirrors(dst: set<Item>, src: set<Item>, ids: seq<int>)
      ensures Pulled(dst, src, ids) == Mirror(src) <==> Full(ids) || AgreeBut(dst, src, iset k | k in ids)
    {
      var dst' := Pulled(dst, src, ids);
      if !Full(ids) {
        forall r ensures r in dst' <==> if r.key in ids then r in Mirror(src) else r in dst {}
      }
    }

    /** Incremental equals full: changes to rows with the given keys are all taken over. */
    lemma {:induction false} IncrementalIsFull(before: set<Item>, src: set<Item>, ids: seq<int>, other: seq<int>)
      requires Full(other) && forall r: Item | r.key !in ids :: r in before <==> r in src
      ensures Pulled(Mirror(before), src, ids) == Pulled(Mirror(before), src, other) == Mirror(src)
    {
      assert AgreeBut(Mirror(before), src, iset k | k in ids);
      PullMirrors(Mirror(before), src, ids);
      PullMirrors(Mirror(before), src, other);
    }

    // ----- a history of changes and pulls ---------------------------------------------------

    /** The destination after all of them. */
    ghost function Destination(dst: set<Item>, turns: seq<Turn>): set<Item> {
      if turns == [] then dst
      else
        var d, t := Destination(dst, turns[..|turns| - 1]), turns[|turns| - 1];
        if t.ok then Pulled(d, t.src, t.ids) else d
    }

    /** The keys that changed, or were wrong from the start, since they were last pulled. */
    ghost function Pending(unknown: iset<int>, turns: seq<Turn>): iset<int> {
      if turns == [] then unknown
      else
        var t := turns[|turns| - 1];
        var p := Pending(unknown, turns[..|turns| - 1]) + t.changed;
        if !t.ok then p else if Full(t.ids) then iset{} else iset k | k in p && k !in t.ids
    }

    ghost predicate Honest(start: set<Item>, turns: seq<Turn>) {
      turns != [] ==>
        var n := |turns| - 1;
        Honest(start, turns[..n]) && turns[n].Honest(Source(start, turns[..n]))
    }

    /** Whatever pulls fail: the destination is right about every key that has been pulled
        since it last changed. */
    lemma {:induction false} PullsConverge(start: set<Item>, dst: set<Item>, unknown: iset<int>, turns: seq<Turn>)
      requires AgreeBut(dst, start, unknown) && Honest(start, turns)
      ensures AgreeBut(Destination(dst, turns), Source(start, turns), Pending(unknown, turns))
    {
      if turns != [] {
        var n := |turns| - 1;
        var t, front := turns[n], turns[..n];
        PullsConverge(start, dst, unknown, front);
        TurnAgrees(Destination(dst, front), Source(start, front), Pending(unknown, front), t);
      }
    }

    lemma {:induction false} TurnAgrees(d: set<Item>, before: set<Item>, p: iset<int>, t: Turn)
      requires AgreeBut(d, before, p) && t.Honest(before)
      ensures AgreeBut(d, t.src, p + t.changed)
      ensures Full(t.ids) ==> AgreeBut(Pulled(d, t.src, t.ids), t.src, iset{})
      ensures !Full(t.ids) ==> AgreeBut(Pulled(d, t.src, t.ids), t.src, iset k | k in p + t.changed && k !in t.ids)
    {
      forall r: Item | r.key !in p + t.changed ensures r in d <==> r in Mirror(t.src) {
        assert r in before <==> r in t.src;
        assert r in d <==> r in Mirror(before);
      }
    }
  }
}
