/** A cache of counters that readers share: a load replaces it when its keys change and
    updates it in place when they do not. */
module CountersLoaders {

  datatype Row<V> = Row(id: int, value: V)

  // ----- what a load should do -------------------------------------------------------

  function Added<V>(m: map<int, V>, rows: seq<Row<V>>): map<int, V> {
    if rows == [] then m
    else
      var last := rows[|rows| - 1];
      Added(m, rows[..|rows| - 1])[last.id := last.value]
  }

  function Removed<V>(m: map<int, V>, ids: seq<int>): map<int, V> {
    m - set id | id in ids
  }

  /** Every id that was asked for is gone, but for the rows that came back. */
  function Loaded<V>(m: map<int, V>, ids: seq<int>, rows: seq<Row<V>>): map<int, V> {
    Added(Removed(m, ids), rows)
  }

  /** The rows that came back are rows that were asked for, each once. */
  ghost predicate Answers<V>(ids: seq<int>, rows: seq<Row<V>>) {
    && (forall i | 0 <= i < |rows| :: rows[i].id in ids)
    && forall i, j | 0 <= i < j < |rows| :: rows[i].id != rows[j].id
  }

  // ----- why both ways of loading agree ------------------------------------------------

  lemma {:induction false} AddedSplits<V>(m: map<int, V>, rows: seq<Row<V>>)
    ensures Added(m, rows) == m + Added(map[], rows)
    ensures Added(map[], rows).Keys == set i | 0 <= i < |rows| :: rows[i].id
  {
    if rows != [] {
      var n := |rows| - 1;
      AddedSplits(m, rows[..n]);
      var front := Added(map[], rows[..n]);
      assert (set i | 0 <= i < |rows| :: rows[i].id) == (set i | 0 <= i < n :: rows[..n][i].id) + {rows[n].id};
      assert (m + front)[rows[n].id := rows[n].value] == m + front[rows[n].id := rows[n].value];
    }
  }

  lemma {:induction false} DistinctSize<V>(rows: seq<Row<V>>)
    requires forall i, j | 0 <= i < j < |rows| :: rows[i].id != rows[j].id
    ensures |set i | 0 <= i < |rows| :: rows[i].id| == |rows|
  {
    var s := set i | 0 <= i < |rows| :: rows[i].id;
    if rows == [] {
      assert s == {};
    } else {
      var n := |rows| - 1;
      DistinctSize(rows[..n]);
      var t := set i | 0 <= i < n :: rows[..n][i].id;
      assert s == t + {rows[n].id} && rows[n].id !in t;
    }
  }

  lemma {:induction false} ListSize(ids: seq<int>)
    ensures |set id | id in ids| <= |ids|
  {
    if ids != [] {
      var n := |ids| - 1;
      ListSize(ids[..n]);
      assert ids == ids[..n] + [ids[n]];
      assert (set id | id in ids) == (set id | id in ids[..n]) + {ids[n]};
    } else {
      assert (set id | id in ids) == {};
    }
  }

  lemma {:induction false} SameSet(a: set<int>, b: set<int>)
    requires a <= b && |a| >= |b|
    ensures a == b
  {
    assert b == a + (b - a) && |b| == |a| + |b - a|;
  }

  /** As many rows as ids: every id came back. */
  lemma {:induction false} AllCameBack<V>(ids: seq<int>, rows: seq<Row<V>>)
    requires Answers(ids, rows) && |rows| == |ids|
    ensures (set i | 0 <= i < |rows| :: rows[i].id) == set id | id in ids
  {
    var came, asked := set i | 0 <= i < |rows| :: rows[i].id, set id | id in ids;
    DistinctSize(rows);
    ListSize(ids);
    assert came <= asked;
    SameSet(came, asked);
  }

  /** Adding the rows in place is the whole load if and only if every id that was known came back. */
  lemma {:induction false} InPlaceIsLoaded<V(!new)>(m: map<int, V>, ids: seq<int>, rows: seq<Row<V>>)
    ensures Added(m, rows) == Loaded(m, ids, rows) <==> forall id | id in ids && id in m :: exists i :: 0 <= i < |rows| && rows[i].id == id
    ensures Added(m, rows).Keys == m.Keys <==> forall i | 0 <= i < |rows| :: rows[i].id in m
  {
    AddedSplits(m, rows);
    AddedSplits(Removed(m, ids), rows);
    hide Added;
    var r := Added(map[], rows);
    forall id | id in ids && id in m && id !in r ensures Added(m, rows) != Loaded(m, ids, rows) {
      assert id in m + r && id !in Removed(m, ids) + r;
    }
    if forall id | id in ids && id in m :: id in r {
      assert m + r == Removed(m, ids) + r;
    }
    assert (m + r).Keys == m.Keys + r.Keys;
    if (m + r).Keys == m.Keys {
      forall i | 0 <= i < |rows| ensures rows[i].id in m {
        assert rows[i].id in (m + r).Keys;
      }
    }
  }

  /** When the rows answer the ids, each once, and as many came back as were asked for, that
      is so. */
  lemma {:induction false} InPlaceIsEnough<V(!new)>(m: map<int, V>, ids: seq<int>, rows: seq<Row<V>>)
    requires Answers(ids, rows) && |rows| == |ids| && forall id | id in ids :: id in m
    ensures Added(m, rows) == Loaded(m, ids, rows) && Added(m, rows).Keys == m.Keys
  {
    AllCameBack(ids, rows);
    InPlaceIsLoaded(m, ids, rows);
    var came := set i | 0 <= i < |rows| :: rows[i].id;
    forall id | id in ids && id in m ensures exists i :: 0 <= i < |rows| && rows[i].id == id {
      assert id in came;
      var i :| 0 <= i < |rows| && rows[i].id == id;
    }
  }

  /** The keys after a load. */
  lemma {:induction false} KeysAfterLoad<V>(m: map<int, V>, ids: seq<int>, rows: seq<Row<V>>)
    ensures Loaded(m, ids, rows).Keys == (m.Keys - set id | id in ids) + set i | 0 <= i < |rows| :: rows[i].id
  {
    AddedSplits(Removed(m, ids), rows);
  }

  /** And the values: that of the last row with the key, or else the old one. */
  lemma {:induction false} ValuesAfterLoad<V>(m: map<int, V>, ids: seq<int>, rows: seq<Row<V>>)
    ensures var d := Loaded(m, ids, rows);
            && (forall i | 0 <= i < |rows| && (forall j | i < j < |rows| :: rows[j].id != rows[i].id) ::
                  rows[i].id in d && d[rows[i].id] == rows[i].value)
            && (forall id | id in m && id !in ids && (forall i | 0 <= i < |rows| :: rows[i].id != id) :: id in d && d[id] == m[id])
  {
    LastRowCounts(Removed(m, ids), rows);
  }

  lemma {:induction false} LastRowCounts<V>(m: map<int, V>, rows: seq<Row<V>>)
    ensures var d := Added(m, rows);
            && (forall i | 0 <= i < |rows| && (forall j | i < j < |rows| :: rows[j].id != rows[i].id) ::
                  rows[i].id in d && d[rows[i].id] == rows[i].value)
            && (forall id | id in m && (forall i | 0 <= i < |rows| :: rows[i].id != id) :: id in d && d[id] == m[id])
  {
    if rows != [] {
      var n := |rows| - 1;
      LastRowCounts(m, rows[..n]);
      var d, p := Added(m, rows), Added(m, rows[..n]);
      assert d == p[rows[n].id := rows[n].value];
      forall i | 0 <= i < |rows| && (forall j | i < j < |rows| :: rows[j].id != rows[i].id)
        ensures rows[i].id in d && d[rows[i].id] == rows[i].value
      {
        if i < n {
          assert rows[n].id != rows[i].id && rows[..n][i] == rows[i];
        }
      }
    }
  }

  // ----- the loader -----------------------------------------------------------------------

  class Counter<V> {
    var data: map<int, V>

    constructor (data: map<int, V>)
      ensures this.data == data
    {
      this.data := data;
    }
  }

  class CountersLoader<V(!new)> {
    var counter: Counter?<V>

    constructor ()
      ensures counter == null
    {
      counter := null;
    }

    ghost function Data(): map<int, V>
      reads this, counter
    {
      if counter == null then map[] else counter.data
    }

    method HaveNewRows(ids: seq<int>) returns (r: bool)
      ensures r <==> counter == null || exists i :: 0 <= i < |ids| && ids[i] !in counter.data
    {
      if counter == null {
        return true;
      }
      for k := 0 to |ids|
        invariant forall i | 0 <= i < k :: ids[i] in counter.data
      {
        if ids[k] !in counter.data {
          return true;
        }
      }
      return false;
    }

    /** `rows` is what the database returns for `ids`. The counter is replaced exactly if
        there was none, the numbers differ, or an id is new; then a snapshot obtained before
        keeps everything. Otherwise it is changed in place. If the rows answer the ids, each
        once, both come to the same, and a snapshot keeps its keys. */
    method Load(ids: seq<int>, rows: seq<Row<V>>)
      modifies this, counter
      ensures counter != null
      ensures if old(counter) == null || |rows| != |ids| || exists i :: 0 <= i < |ids| && ids[i] !in old(Data())
              then fresh(counter) && Data() == Loaded(old(Data()), ids, rows)
                   && (old(counter) != null ==> old(counter).data == old(Data()))
              else counter == old(counter) && Data() == Added(old(Data()), rows)
      ensures Answers(ids, rows) ==> Data() == Loaded(old(Data()), ids, rows)
      ensures Answers(ids, rows) && old(counter) != null ==> old(counter).data.Keys == old(Data()).Keys
    {
      var current := counter;
      if current == null {
        current := new Counter(map[]);
      }
      var haveDeletedRows := |rows| != |ids|;
      var haveNewRows := HaveNewRows(ids);
      if counter == null || haveDeletedRows || haveNewRows {
        var renewed := new Counter(current.data);
        Erase(renewed, ids);
        Assign(renewed, rows);
        counter := renewed;
      } else {
        ghost var m := counter.data;
        Assign(counter, rows);
        if Answers(ids, rows) {
          InPlaceIsEnough(m, ids, rows);
        }
      }
    }

    function Get(): Counter?<V>
      reads this
    {
      counter
    }
  }

  method Erase<V>(c: Counter<V>, ids: seq<int>)
    modifies c
    ensures c.data == Removed(old(c.data), ids)
  {
    for k := 0 to |ids|
      invariant c.data == Removed(old(c.data), ids[..k])
    {
      c.data := c.data - {ids[k]};
      assert ids[..k + 1] == ids[..k] + [ids[k]];
    }
    assert ids[..|ids|] == ids;
  }

  method Assign<V>(c: Counter<V>, rows: seq<Row<V>>)
    modifies c
    ensures c.data == Added(old(c.data), rows)
  {
    for k := 0 to |rows|
      invariant c.data == Added(old(c.data), rows[..k])
    {
      c.data := c.data[rows[k].id := rows[k].value];
      assert rows[..k + 1][..k] == rows[..k];
    }
    assert rows[..|rows|] == rows;
  }
}
