/** The replica of the calls on line: a snapshot of the source's table, kept up to date by
    notifications, and the questions that the link reader asks it. */
module OnlineReplica {
  import opened Common
  import opened Rows

  /** A row of the replica; `link` is the pair of ids that it is found by. */
  datatype OnlineRow = OnlineRow(link: Link, channameOrig: string, channameTerm: string, startTime: string)

  datatype Notification =
    | Inserted(row: OnlineRow)
    | Updated(row: OnlineRow)
    | Deleted(link: Link)
    | Unknown

  // ----- rows as a bag of pairs ------------------------------------------------------------

  function Links(rows: seq<OnlineRow>): (links: seq<Link>)
    ensures |links| == |rows| && forall i | 0 <= i < |rows| :: links[i] == rows[i].link
  {
    seq(|rows|, i requires 0 <= i < |rows| => rows[i].link)
  }

  function Pairs(rows: seq<OnlineRow>): multiset<Link> {
    multiset(Links(rows))
  }

  /** What a notification does to the bag. */
  function Replay(bag: multiset<Link>, n: Notification): multiset<Link> {
    match n
    case Inserted(row) => bag + multiset{row.link}
    case Updated(_) => bag
    case Deleted(link) => bag - multiset{link}
    case Unknown => bag
  }

  function ReplayAll(bag: multiset<Link>, ns: seq<Notification>): multiset<Link> {
    if ns == [] then bag else Replay(ReplayAll(bag, ns[..|ns| - 1]), ns[|ns| - 1])
  }

  lemma {:induction false} PairsSnoc(rows: seq<OnlineRow>, r: OnlineRow)
    ensures Pairs(rows + [r]) == Pairs(rows) + multiset{r.link}
  {
    assert Links(rows + [r]) == Links(rows) + [r.link];
  }

  lemma {:induction false} PairsMembers(rows: seq<OnlineRow>, link: Link)
    ensures link in Pairs(rows) <==> exists i :: 0 <= i < |rows| && rows[i].link == link
  {
    if i :| 0 <= i < |rows| && rows[i].link == link {
      assert Links(rows)[i] == link;
    }
  }

  /** The first row with a pair. */
  predicate FirstAt(rows: seq<OnlineRow>, link: Link, i: int) {
    0 <= i < |rows| && rows[i].link == link && forall j | 0 <= j < i :: rows[j].link != link
  }

  lemma {:induction false} PairsWithout(rows: seq<OnlineRow>, i: nat)
    requires i < |rows|
    ensures Pairs(Without(rows, i)) == Pairs(rows) - multiset{rows[i].link} && rows[i].link in Pairs(rows)
  {
    var l := Links(rows);
    assert l == l[..i] + [l[i]] + l[i + 1..];
    assert Links(Without(rows, i)) == l[..i] + l[i + 1..];
  }

  lemma {:induction false} PairsSame(a: seq<OnlineRow>, b: seq<OnlineRow>)
    requires |a| == |b| && forall i | 0 <= i < |a| :: a[i].link == b[i].link
    ensures Pairs(a) == Pairs(b)
  {
    assert Links(a) == Links(b);
  }

  lemma {:induction false} NothingReplayed(bag: multiset<Link>)
    ensures ReplayAll(bag, []) == bag
  {
  }

  lemma {:induction false} ReplayOne(bag: multiset<Link>, ns: seq<Notification>, i: nat)
    requires i < |ns|
    ensures ReplayAll(bag, ns[..i + 1]) == Replay(ReplayAll(bag, ns[..i]), ns[i])
  {
    assert ns[..i + 1][..i] == ns[..i];
  }

  // ----- one watcher -------------------------------------------------------------------------

  class OnlineWatcher {
    var data: seq<OnlineRow>
    var ready: bool

    constructor ()
      ensures data == [] && !ready
    {
      data, ready := [], false;
    }

    /** The rows of the table replace what was known. */
    method Snapshot(rows: seq<OnlineRow>)
      modifies this
      ensures ready && data == rows
    {
      data := [];
      for i := 0 to |rows|
        invariant data == rows[..i]
      {
        data := data + [rows[i]];
      }
      ready := true;
    }

    /** A notification is taken over. A row that is updated keeps its place. */
    method Notify(n: Notification)
      modifies this`data
      ensures Pairs(data) == Replay(Pairs(old(data)), n)
      ensures n.Inserted? ==> data == old(data) + [n.row]
      ensures n.Updated? ==> |data| == |old(data)| && forall i | 0 <= i < |data| ::
                data[i] == if old(data)[i].link == n.row.link && (forall j | 0 <= j < i :: old(data)[j].link != n.row.link)
                           then n.row else old(data)[i]
      ensures n.Deleted? && n.link !in Pairs(old(data)) ==> data == old(data)
      ensures n.Deleted? && n.link in Pairs(old(data)) ==> exists i :: FirstAt(old(data), n.link, i) && data == Without(old(data), i)
      ensures n.Deleted? ==>
                if i :| 0 <= i < |old(data)| && old(data)[i].link == n.link && (forall j | 0 <= j < i :: old(data)[j].link != n.link)
                then data == old(data)[..i] + old(data)[i + 1..] else data == old(data)
    {
      hide Pairs, Links;
      ghost var was := data;
      if n.Inserted? {
        PairsSnoc(data, n.row);
        data := data + [n.row];
      }
      if n.Updated? {
        for i := 0 to |data|
          invariant data == was && forall j | 0 <= j < i :: data[j].link != n.row.link
        {
          if data[i].link == n.row.link {
            data := data[i := data[i].(channameOrig := n.row.channameOrig)];
            data := data[i := data[i].(channameTerm := n.row.channameTerm)];
            data := data[i := data[i].(startTime := n.row.startTime)];
            assert data[i] == n.row;
            break;
          }
        }
        PairsSame(data, was);
      }
      if n.Deleted? {
        PairsMembers(was, n.link);
        for i := 0 to |data|
          invariant data == was && forall j | 0 <= j < i :: data[j].link != n.link
        {
          if data[i].link == n.link {
            PairsWithout(data, i);
            data := Without(data, i);
            break;
          }
        }
      }
    }

    /** The watcher's loop: a snapshot of the table, and then the notifications of its
        changes `cs` as they come. Afterwards the replica is the table, if no update touched
        a pair of ids. */
    method Watch(rows: seq<OnlineRow>, ns: seq<Notification>, ghost cs: seq<Change>)
      modifies this
      ensures ready && Pairs(data) == ReplayAll(Pairs(rows), ns)
      ensures Feed(Pairs(rows), cs, ns) && (forall k | 0 <= k < |cs| :: KeepsPair(cs[k])) ==> Pairs(data) == ChangedAll(Pairs(rows), cs)
    {
      hide KeepsPair, Announces, Possible, ReplayAll, ChangedAll, Pairs, Replay;
      Snapshot(rows);
      NothingReplayed(Pairs(rows));
      for i := 0 to |ns|
        invariant ready && Pairs(data) == ReplayAll(Pairs(rows), ns[..i])
      {
        Notify(ns[i]);
        ReplayOne(Pairs(rows), ns, i);
      }
      assert ns[..|ns|] == ns && cs[..|cs|] == cs;
      if Feed(Pairs(rows), cs, ns) && forall k | 0 <= k < |cs| :: KeepsPair(cs[k]) {
        KeptPairsAreFollowed(Pairs(rows), cs, ns, |cs|);
      }
    }

    method CheckUniqueIdOrig(id: string) returns (result: bool)
      requires ready
      ensures result <==> id != "" && exists l :: l in Pairs(data) && l.uniqueidOrig == id
      ensures result <==> id != "" && exists i :: 0 <= i < |data| && data[i].link.uniqueidOrig == id
    {
      result := false;
      if id != "" {
        for i := 0 to |data|
          invariant !result && forall j | 0 <= j < i :: data[j].link.uniqueidOrig != id
        {
          PairsMembers(data, data[i].link);
          if data[i].link.uniqueidOrig != "" && data[i].link.uniqueidOrig == id {
            result := true;
            break;
          }
        }
        AnyPair(data);
      }
    }

    method CheckUniqueIdTerm(id: string) returns (result: bool)
      requires ready
      ensures result <==> id != "" && exists l :: l in Pairs(data) && l.uniqueidTerm == id
      ensures result <==> id != "" && exists i :: 0 <= i < |data| && data[i].link.uniqueidTerm == id
    {
      result := false;
      if id != "" {
        for i := 0 to |data|
          invariant !result && forall j | 0 <= j < i :: data[j].link.uniqueidTerm != id
        {
          PairsMembers(data, data[i].link);
          if data[i].link.uniqueidTerm != "" && data[i].link.uniqueidTerm == id {
            result := true;
            break;
          }
        }
        AnyPair(data);
      }
    }
  }

  lemma {:induction false} AnyPair(rows: seq<OnlineRow>)
    ensures forall l | l in Pairs(rows) :: exists i :: 0 <= i < |rows| && rows[i].link == l
  {
    forall l | l in Pairs(rows) ensures exists i :: 0 <= i < |rows| && rows[i].link == l {
      PairsMembers(rows, l);
    }
  }

  // ----- all watchers ---------------------------------------------------------------------------

  class MergeOnline {
    const watchers: seq<OnlineWatcher>

    constructor (watchers: seq<OnlineWatcher>)
      ensures this.watchers == watchers
    {
      this.watchers := watchers;
    }

    ghost predicate Ready()
      reads watchers
    {
      forall i | 0 <= i < |watchers| :: watchers[i].ready
    }

    /** The calls that some watcher sees on line. */
    ghost function Online(): set<Link>
      reads watchers
    {
      set i, l | 0 <= i < |watchers| && l in Pairs(watchers[i].data) :: l
    }

    /** The question before a link is enqueued; an empty id is never on line. */
    method CheckUniqueIdOrig(id: string) returns (result: bool)
      requires Ready()
      ensures result <==> id != "" && exists l :: l in Online() && l.uniqueidOrig == id
      ensures result <==> id != "" && exists k, i ::
                0 <= k < |watchers| && 0 <= i < |watchers[k].data| && watchers[k].data[i].link.uniqueidOrig == id
    {
      hide Pairs, Links;
      if id == "" {
        return false;
      }
      for k := 0 to |watchers|
        invariant forall i, l | 0 <= i < k && l in Pairs(watchers[i].data) :: l.uniqueidOrig != id
        invariant forall j, i | 0 <= j < k && 0 <= i < |watchers[j].data| :: watchers[j].data[i].link.uniqueidOrig != id
      {
        var found := watchers[k].CheckUniqueIdOrig(id);
        if found {
          var l :| l in Pairs(watchers[k].data) && l.uniqueidOrig == id;
          assert l in Online();
          return true;
        }
      }
      return false;
    }

    method CheckUniqueIdTerm(id: string) returns (result: bool)
      requires Ready()
      ensures result <==> id != "" && exists l :: l in Online() && l.uniqueidTerm == id
      ensures result <==> id != "" && exists k, i ::
                0 <= k < |watchers| && 0 <= i < |watchers[k].data| && watchers[k].data[i].link.uniqueidTerm == id
    {
      hide Pairs, Links;
      if id == "" {
        return false;
      }
      for k := 0 to |watchers|
        invariant forall i, l | 0 <= i < k && l in Pairs(watchers[i].data) :: l.uniqueidTerm != id
        invariant forall j, i | 0 <= j < k && 0 <= i < |watchers[j].data| :: watchers[j].data[i].link.uniqueidTerm != id
      {
        var found := watchers[k].CheckUniqueIdTerm(id);
        if found {
          var l :| l in Pairs(watchers[k].data) && l.uniqueidTerm == id;
          assert l in Online();
          return true;
        }
      }
      return false;
    }
  }

  // ----- the replica and the table ------------------------------------------------------------------

  /** A change of the source's table. */
  datatype Change =
    | Insert(link: Link)
    | Update(before: Link, after: Link)
    | Delete(link: Link)

  predicate Possible(table: multiset<Link>, c: Change) {
    match c
    case Insert(_) => true
    case Update(before, _) => before in table
    case Delete(link) => link in table
  }

  function Changed(table: multiset<Link>, c: Change): multiset<Link> {
    match c
    case Insert(link) => table + multiset{link}
    case Update(before, after) => table - multiset{before} + multiset{after}
    case Delete(link) => table - multiset{link}
  }

  function ChangedAll(table: multiset<Link>, cs: seq<Change>): multiset<Link> {
    if cs == [] then table else Changed(ChangedAll(table, cs[..|cs| - 1]), cs[|cs| - 1])
  }

  /** A notification of a change carries the row as it is afterwards. */
  predicate Announces(n: Notification, c: Change) {
    match c
    case Insert(link) => n.Inserted? && n.row.link == link
    case Update(_, after) => n.Updated? && n.row.link == after
    case Delete(link) => n.Deleted? && n.link == link
  }

  ghost predicate Feed(table: multiset<Link>, cs: seq<Change>, ns: seq<Notification>) {
    |cs| == |ns| && forall i | 0 <= i < |cs| :: Announces(ns[i], cs[i]) && Possible(ChangedAll(table, cs[..i]), cs[i])
  }

  /** One change: a replica that was right stays right exactly if the change is no update
      of a pair of ids. */
  lemma {:induction false} ChangeIsFollowed(table: multiset<Link>, c: Change, n: Notification)
    requires Possible(table, c) && Announces(n, c)
    ensures Replay(table, n) == Changed(table, c) <==> (c.Update? ==> c.before == c.after)
  {
    if c.Update? && c.before != c.after {
      assert Changed(table, c)[c.after] == table[c.after] + 1;
    }
  }

  predicate KeepsPair(c: Change) {
    c.Update? ==> c.before == c.after
  }

  /** A replica that was right before the last change. */
  lemma {:induction false} LastChange(table: multiset<Link>, cs: seq<Change>, ns: seq<Notification>, i: nat)
    requires Feed(table, cs, ns) && i < |cs| && ReplayAll(table, ns[..i]) == ChangedAll(table, cs[..i])
    ensures ReplayAll(table, ns[..i + 1]) == ChangedAll(table, cs[..i + 1]) <==> KeepsPair(cs[i])
  {
    assert cs[..i + 1][..i] == cs[..i] && ns[..i + 1][..i] == ns[..i];
    ChangeIsFollowed(ChangedAll(table, cs[..i]), cs[i], ns[i]);
  }

  lemma {:induction false} KeptPairsAreFollowed(table: multiset<Link>, cs: seq<Change>, ns: seq<Notification>, i: nat)
    requires Feed(table, cs, ns) && i <= |cs| && forall k | 0 <= k < i :: KeepsPair(cs[k])
    ensures ReplayAll(table, ns[..i]) == ChangedAll(table, cs[..i])
  {
    if i > 0 {
      KeptPairsAreFollowed(table, cs, ns, i - 1);
      LastChange(table, cs, ns, i - 1);
    }
  }

  /** Exactly when the replica is right at every moment, after a snapshot of the table and
      whatever changes: if no update touches a pair of ids. */
  lemma {:induction false} ReplicaFollows(table: multiset<Link>, cs: seq<Change>, ns: seq<Notification>)
    requires Feed(table, cs, ns)
    ensures (forall i | 0 <= i <= |cs| :: ReplayAll(table, ns[..i]) == ChangedAll(table, cs[..i]))
            <==> forall k | 0 <= k < |cs| :: KeepsPair(cs[k])
  {
    hide KeepsPair, ReplayAll, ChangedAll, Announces, Possible;
    if forall i | 0 <= i <= |cs| :: ReplayAll(table, ns[..i]) == ChangedAll(table, cs[..i]) {
      forall k | 0 <= k < |cs| ensures KeepsPair(cs[k]) {
        assert ReplayAll(table, ns[..k + 1]) == ChangedAll(table, cs[..k + 1]);
        LastChange(table, cs, ns, k);
      }
    }
    if forall k | 0 <= k < |cs| :: KeepsPair(cs[k]) {
      forall i | 0 <= i <= |cs| ensures ReplayAll(table, ns[..i]) == ChangedAll(table, cs[..i]) {
        KeptPairsAreFollowed(table, cs, ns, i);
      }
    }
  }
}
