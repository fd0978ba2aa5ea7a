/** The streaming join: open a record per originating leg, attach links and
    terminating legs, emit a record once both watermarks have passed it, and drop
    legs and links that came too early for any record. The functions say what one
    pass of the container's loop computes; the class in MergeLoop computes it in place. */
module MergeContainers {
  import opened Rows

  datatype CallRecord = CallRecord(
    orig: string, startTime: int, legs: map<string, CallLeg>, links: seq<CallLegLink>)

  function Open(leg: CallLeg): CallRecord {
    CallRecord(leg.body.uniqueid, leg.time, map[leg.body.uniqueid := leg], [])
  }

  type LinkGroups = map<string, seq<CallLegLink>>

  function Group(links: LinkGroups, orig: string): seq<CallLegLink> {
    if orig in links then links[orig] else []
  }

  /** A group is never empty and only holds links of its own call. */
  ghost predicate Grouped(links: LinkGroups) {
    forall k | k in links :: links[k] != [] && forall l | l in links[k] :: l.body.uniqueidOrig == k
  }

  /** A terminating leg waits under its own id. */
  ghost predicate Keyed(legs: map<string, CallLeg>) {
    forall k | k in legs :: legs[k].body.uniqueid == k && !legs[k].body.orig
  }

  datatype Container = Container(
    data: seq<CallRecord>, legs: map<string, CallLeg>, links: LinkGroups,
    maxLegTime: int, maxLinkTime: int)
  {
    ghost predicate Valid() {
      Grouped(links) && Keyed(legs)
    }
  }

  function Max(a: int, b: int): int {
    if a < b then b else a
  }

  function AbsorbLeg(c: Container, leg: CallLeg): Container {
    var d := if leg.body.orig
             then c.(data := c.data + [Open(leg)])
             else c.(legs := c.legs[leg.body.uniqueid := leg]);
    d.(maxLegTime := Max(c.maxLegTime, leg.time))
  }

  function AbsorbLegs(c: Container, legs: seq<CallLeg>): (d: Container)
    requires c.Valid()
    ensures d.Valid() && d.links == c.links && d.maxLinkTime == c.maxLinkTime
  {
    if legs == [] then c else AbsorbLeg(AbsorbLegs(c, legs[..|legs| - 1]), legs[|legs| - 1])
  }

  function AbsorbLink(c: Container, link: CallLegLink): Container {
    var o := link.body.uniqueidOrig;
    c.(links := c.links[o := Group(c.links, o) + [link]], maxLinkTime := Max(c.maxLinkTime, link.time))
  }

  function AbsorbLinks(c: Container, links: seq<CallLegLink>): (d: Container)
    requires c.Valid()
    ensures d.Valid() && d.data == c.data && d.legs == c.legs && d.maxLegTime == c.maxLegTime
  {
    if links == [] then c else AbsorbLink(AbsorbLinks(c, links[..|links| - 1]), links[|links| - 1])
  }

  /** The two watermark tests of the sweep. `saveTime` trails the newest leg by
      `maxCall`; `linkTime` is how far the link reader has got. */
  predicate Finished(startTime: int, saveTime: int, linkTime: int, maxCall: int) {
    startTime < saveTime && linkTime > startTime + maxCall
  }

  /** What a pass sees of the link reader's clock. It looks again for every record and every
      waiting leg, and meanwhile the clock goes on. */
  datatype Looks = Looks(clock: int, records: map<CallRecord, int>, legs: map<string, int>) {
    function AtRecord(r: CallRecord): int {
      if r in records then records[r] else clock
    }

    function AtLeg(k: string): int {
      if k in legs then legs[k] else clock
    }

    /** No look came later than when the clock stood at `time`. */
    ghost predicate By(time: int) {
      && clock <= time
      && (forall r | r in records :: records[r] <= time)
      && forall k | k in legs :: legs[k] <= time
    }
  }

  /** The clock stands still. */
  function Steady(clock: int): Looks {
    Looks(clock, map[], map[])
  }

  /** Moves the leg that `link` names, if it waits, into a record. */
  function AttachLeg(link: CallLegLink, own: map<string, CallLeg>, waiting: map<string, CallLeg>)
    : (map<string, CallLeg>, map<string, CallLeg>)
  {
    var term := link.body.uniqueidTerm;
    if term in waiting then (own[waiting[term].body.uniqueid := waiting[term]], waiting - {term}) else (own, waiting)
  }

  function AttachLegs(links: seq<CallLegLink>, own: map<string, CallLeg>, waiting: map<string, CallLeg>)
    : (map<string, CallLeg>, map<string, CallLeg>)
  {
    if links == [] then (own, waiting)
    else
      var (o, w) := AttachLegs(links[..|links| - 1], own, waiting);
      AttachLeg(links[|links| - 1], o, w)
  }

  /** The sweep so far: the records it has visited, in order, and what still waits. */
  datatype Sweep = Sweep(swept: seq<CallRecord>, legs: map<string, CallLeg>, links: LinkGroups)

  function Attached(rec: CallRecord, links: LinkGroups): seq<CallLegLink> {
    rec.links + Group(links, rec.orig)
  }

  function SweepOne(s: Sweep, rec: CallRecord): Sweep {
    var attached := Attached(rec, s.links);
    var (own, waiting) := AttachLegs(attached, rec.legs, s.legs);
    Sweep(s.swept + [rec.(links := attached, legs := own)], waiting, s.links - {rec.orig})
  }

  function SweepAll(recs: seq<CallRecord>, legs: map<string, CallLeg>, links: LinkGroups): (s: Sweep)
    ensures |s.swept| == |recs|
  {
    if recs == [] then Sweep([], legs, links)
    else SweepOne(SweepAll(recs[..|recs| - 1], legs, links), recs[|recs| - 1])
  }

  /** The swept records that both watermarks have passed (`done`), or the others. */
  function Select(recs: seq<CallRecord>, done: bool, saveTime: int, looks: Looks, maxCall: int): seq<CallRecord> {
    if recs == [] then []
    else
      var front, last := Select(recs[..|recs| - 1], done, saveTime, looks, maxCall), recs[|recs| - 1];
      if Finished(last.startTime, saveTime, looks.AtRecord(last), maxCall) == done then front + [last] else front
  }

  lemma {:induction false} SelectMembers(recs: seq<CallRecord>, done: bool, saveTime: int, looks: Looks, maxCall: int)
    ensures forall x :: x in Select(recs, done, saveTime, looks, maxCall)
                   <==> x in recs && Finished(x.startTime, saveTime, looks.AtRecord(x), maxCall) == done
  {
    if recs != [] {
      var n := |recs| - 1;
      SelectMembers(recs[..n], done, saveTime, looks, maxCall);
      assert recs == recs[..n] + [recs[n]];
    }
  }

  function FreshLegs(legs: map<string, CallLeg>, saveTime: int, looks: Looks, maxCall: int): map<string, CallLeg> {
    map k | k in legs && !Finished(legs[k].time, saveTime, looks.AtLeg(k), maxCall) :: legs[k]
  }

  predicate StaleGroup(group: seq<CallLegLink>, saveTime: int)
    requires group != []
  {
    group[0].time < saveTime
  }

  function FreshLinks(links: LinkGroups, saveTime: int): LinkGroups
    requires Grouped(links)
  {
    map k | k in links && !StaleGroup(links[k], saveTime) :: links[k]
  }

  function StaleLinks(links: LinkGroups, saveTime: int): LinkGroups
    requires Grouped(links)
  {
    map k | k in links && StaleGroup(links[k], saveTime) :: links[k]
  }

  datatype Pass = Pass(container: Container, emitted: seq<CallRecord>, dropped: LinkGroups)

  function Absorbed(c: Container, legsIn: seq<CallLeg>, linksIn: seq<CallLegLink>): (d: Container)
    requires c.Valid()
    ensures d.Valid()
  {
    AbsorbLinks(AbsorbLegs(c, legsIn), linksIn)
  }

  /** Attaching takes exactly the named legs out of the waiting map. */
  lemma {:induction false} AttachLegsWaiting(links: seq<CallLegLink>, own: map<string, CallLeg>, waiting: map<string, CallLeg>)
    ensures AttachLegs(links, own, waiting).1 == waiting - Terms(links)
  {
    if links != [] {
      var n := |links| - 1;
      AttachLegsWaiting(links[..n], own, waiting);
      assert links == links[..n] + [links[n]];
      assert Terms(links) == Terms(links[..n]) + {links[n].body.uniqueidTerm};
    }
  }

  /** The terminating ids that `links` name. */
  function Terms(links: seq<CallLegLink>): set<string> {
    set l | l in links :: l.body.uniqueidTerm
  }

  lemma {:induction false} SweepValid(recs: seq<CallRecord>, legs: map<string, CallLeg>, links: LinkGroups)
    requires Grouped(links) && Keyed(legs)
    ensures var s := SweepAll(recs, legs, links); Grouped(s.links) && Keyed(s.legs)
  {
    if recs != [] {
      var p := SweepAll(recs[..|recs| - 1], legs, links);
      SweepValid(recs[..|recs| - 1], legs, links);
      var rec := recs[|recs| - 1];
      AttachLegsWaiting(Attached(rec, p.links), rec.legs, p.legs);
    }
  }

  /** The second half of a pass: sweep the records, then evict legs and link groups. */
  function SettleAt(d: Container, saveTime: int, looks: Looks, maxCall: int): (p: Pass)
    requires d.Valid()
    ensures p.container.Valid()
    ensures p.container.maxLegTime == d.maxLegTime && p.container.maxLinkTime == d.maxLinkTime
  {
    SweepValid(d.data, d.legs, d.links);
    var s := SweepAll(d.data, d.legs, d.links);
    Pass(Container(Select(s.swept, false, saveTime, looks, maxCall),
                   FreshLegs(s.legs, saveTime, looks, maxCall), FreshLinks(s.links, saveTime),
                   d.maxLegTime, d.maxLinkTime),
         Select(s.swept, true, saveTime, looks, maxCall), StaleLinks(s.links, saveTime))
  }

  function Settle(d: Container, looks: Looks, maxCall: int): (p: Pass)
    requires d.Valid()
    ensures p.container.Valid()
    ensures p.container.maxLegTime == d.maxLegTime && p.container.maxLinkTime == d.maxLinkTime
  {
    SettleAt(d, d.maxLegTime - maxCall, looks, maxCall)
  }

  /** One pass of the container's loop over what it dequeued. */
  function RunPass(c: Container, legsIn: seq<CallLeg>, linksIn: seq<CallLegLink>, looks: Looks, maxCall: int): (p: Pass)
    requires c.Valid()
    ensures p.container.Valid()
  {
    Settle(Absorbed(c, legsIn, linksIn), looks, maxCall)
  }
}
