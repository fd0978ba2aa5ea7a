/** Where the terminating legs of a call are: each one that was dequeued waits until the
    record of the call takes it, however late it starts, whatever the order in which legs
    come, and whatever the rows of other calls. */
module LegInvariant {
  import opened Rows
  import opened Readers
  import opened MergeContainers
  import opened ContainerLaws
  import opened Pipeline
  import opened SplitRuns
  import opened Records
  import opened LinkCompleteness

  // ----- the assumptions on the rows of a call -----------------------------------

  /** `l` names the terminating leg `x`. An originating leg is no terminating leg, even if
      a link has its id. */
  ghost predicate NamesLeg(s: State, l: CallLegLink, x: CallLeg) {
    l in s.linkTable && x in s.legTable && !x.body.orig && l.body.uniqueidTerm == x.body.uniqueid
  }

  /** And it does so as a link of the call that `g` originates. */
  ghost predicate Names(s: State, g: CallLeg, l: CallLegLink, x: CallLeg) {
    g in s.legTable && g.body.orig && l.body.uniqueidOrig == g.body.uniqueid && NamesLeg(s, l, x)
  }

  /** No leg that the links of the call `c` name starts before its originating leg. */
  ghost predicate LegsFollow(s: State, c: string) {
    forall g, l, x | Names(s, g, l, x) && g.body.uniqueid == c :: g.time <= x.time
  }

  /** The terminating legs that the links of the call name are named by no other call. */
  ghost predicate OneCall(s: State, c: string) {
    forall l, m, x | NamesLeg(s, l, x) && NamesLeg(s, m, x) && l.body.uniqueidOrig == c :: m.body.uniqueidOrig == c
  }

  ghost predicate LegsTimely(cfg: Config, s: State, c: string) {
    CallTimely(cfg, s, c) && LegsFollow(s, c) && OneCall(s, c)
  }

  // ----- terminating legs that were dequeued ----------------------------------------

  /** The terminating legs among `legs`, by id. */
  function Terminating(legs: seq<CallLeg>): map<string, CallLeg> {
    if legs == [] then map[]
    else
      var front, last := Terminating(legs[..|legs| - 1]), legs[|legs| - 1];
      if last.body.orig then front else front[last.body.uniqueid := last]
  }

  lemma {:induction false} TerminatingMembers(legs: seq<CallLeg>)
    ensures Keyed(Terminating(legs))
    ensures forall k | k in Terminating(legs) :: Terminating(legs)[k] in legs
    ensures forall x | x in legs && !x.body.orig :: x.body.uniqueid in Terminating(legs)
  {
    if legs != [] {
      var n := |legs| - 1;
      TerminatingMembers(legs[..n]);
      assert legs == legs[..n] + [legs[n]];
    }
  }

  lemma {:induction false} TerminatingConcat(a: seq<CallLeg>, b: seq<CallLeg>)
    ensures Terminating(a + b) == Terminating(a) + Terminating(b)
  {
    if b == [] {
      assert a + b == a && Terminating(b) == map[];
    } else {
      var n := |b| - 1;
      TerminatingConcat(a, b[..n]);
      assert (a + b)[..|a| + n] == a + b[..n];
    }
  }

  lemma {:induction false} AbsorbLegsWaiting(c: Container, legs: seq<CallLeg>)
    requires c.Valid()
    ensures AbsorbLegs(c, legs).legs == c.legs + Terminating(legs)
  {
    if legs == [] {
      assert Terminating(legs) == map[];
    } else {
      var n := |legs| - 1;
      AbsorbLegsWaiting(c, legs[..n]);
      var p := AbsorbLegs(c, legs[..n]);
      assert AbsorbLegs(c, legs) == AbsorbLeg(p, legs[n]);
      var t := Terminating(legs[..n]);
      assert Terminating(legs) == if legs[n].body.orig then t else t[legs[n].body.uniqueid := legs[n]];
      hide AbsorbLegs, Terminating;
    }
  }

  function Seen(s: State): map<string, CallLeg> {
    Terminating(s.legSeen)
  }

  lemma {:induction false} SeenMembers(cfg: Config, s: State, k: string)
    requires Reached(cfg, s) && k in Seen(s)
    ensures var x := Seen(s)[k];
            x in s.legSeen && x in s.legTable && !x.body.orig && x.body.uniqueid == k && cfg.start < x.time < s.now - cfg.waiting
  {
    TerminatingMembers(s.legSeen);
    SeenIsOld(cfg, s);
  }

  // ----- the invariant ---------------------------------------------------------------

  /** A record holds its originating leg, and every leg seen that its links name. */
  ghost predicate HasLegs(s: State, r: CallRecord) {
    && r.orig in r.legs && r.legs[r.orig] in s.legSeen && r.legs[r.orig].body.orig && r.legs[r.orig].body.uniqueid == r.orig
    && r.legs == map[r.orig := r.legs[r.orig]] + Named(r.links, Seen(s))
  }

  /** The links of the call `c`, as the source has them in the end, that start by `time` were
      dequeued. */
  ghost predicate CaughtUp(cfg: Config, seen: seq<CallLegLink>, t: State, c: string, time: int) {
    forall l | l in t.linkTable && l.body.uniqueidOrig == c && cfg.start < l.time <= time :: l in seen
  }

  /** The leg of id `k` starts long before the newest leg, and so long ago that nothing is
      missing that the call `c` could claim it with. */
  ghost predicate Stale(cfg: Config, s: State, t: State, c: string, k: string)
    requires k in Seen(s)
  {
    var x := Seen(s)[k];
    x.time + cfg.maxCall < s.container.maxLegTime && CaughtUp(cfg, s.linkSeen, t, c, x.time + cfg.maxCall + 1)
  }

  ghost predicate ClaimedIn(s: State, k: string) {
    exists r :: IsRecord(s, r) && k in Terms(r.links)
  }

  ghost predicate WaitingAreSeen(s: State) {
    forall k | k in s.container.legs :: k in Seen(s) && s.container.legs[k] == Seen(s)[k]
  }

  /** The waiting legs are those seen, less those a record has taken and those evicted. */
  ghost predicate WaitingInv(cfg: Config, s: State, t: State, c: string) {
    WaitingAreSeen(s) && forall k | k in Seen(s) && k !in s.container.legs :: ClaimedIn(s, k) || Stale(cfg, s, t, c, k)
  }

  ghost predicate LegInv(cfg: Config, s: State, t: State, c: string) {
    WaitingInv(cfg, s, t, c) && forall r | r in s.container.data && r.orig == c :: HasLegs(s, r)
  }

  /** A state with unique leg ids of which everything about records is known. */
  ghost predicate Sound(cfg: Config, s: State) {
    Reached(cfg, s) && RecordsInv(s) && UniqueLegs(s.legTable)
  }

  /** A state, and a later one in which the call `c` is judged. */
  ghost predicate Judged(cfg: Config, s: State, t: State, c: string) {
    Sound(cfg, s) && Sound(cfg, t) && Grows(cfg, s, t) && LegsTimely(cfg, t, c)
  }

  /** And everything is known about the call. */
  ghost predicate Known(cfg: Config, s: State, t: State, c: string) {
    Judged(cfg, s, t, c) && CallInv(cfg, s, c) && LegInv(cfg, s, t, c)
  }

  lemma {:induction false} KnownGives(cfg: Config, s: State, t: State, c: string)
    requires Known(cfg, s, t, c)
    ensures Judged(cfg, s, t, c) && Sound(cfg, s) && Reached(cfg, s) && UniqueLegs(s.legTable) && WaitingInv(cfg, s, t, c) && CallInv(cfg, s, c)
  {
  }

  /** What was sent is still there in the end. */
  lemma {:induction false} SeenLater(cfg: Config, s: State, t: State)
    requires Reached(cfg, s) && Grows(cfg, s, t)
    ensures forall x | x in s.legSeen || x in s.legQueue :: x in t.legTable && cfg.start < x.time < s.now - cfg.waiting
    ensures forall l | l in s.linkSeen || l in s.linkQueue :: l in t.linkTable && cfg.start < l.time
  {
    hide PipeInv, SendsOn;
    SeenIsOld(cfg, s);
  }

  /** A link that a record has is a dequeued link of its call. */
  lemma {:induction false} RecordLink(s: State, r: CallRecord, m: CallLegLink)
    requires LinksInv(s) && IsRecord(s, r) && m in r.links
    ensures m in s.linkSeen && m.body.uniqueidOrig == r.orig
  {
    if r in s.emitted {
      CountInAtLeast(s.emitted, r, m);
    } else {
      CountInAtLeast(s.container.data, r, m);
    }
    assert multiset(r.links)[m] > 0;
    assert multiset(s.linkSeen)[m] > 0;
  }

  lemma {:induction false} RecordIsOpened(s: State, r: CallRecord)
    requires RecordsInv(s) && IsRecord(s, r)
    ensures r.orig in OrigIds(s.legSeen)
  {
    assert r.orig in Origs(s.container.data) + Origs(s.emitted);
  }

  /** A leg that a link of a call names waits, once it has been seen, until the record of
      that call is there and the link has been dequeued. */
  lemma {:induction false} NamedLegIsKept(cfg: Config, s: State, t: State, g: CallLeg, l: CallLegLink, x: CallLeg)
    requires Known(cfg, s, t, g.body.uniqueid) && Names(t, g, l, x) && cfg.start < g.time && x in s.legSeen
    ensures x.body.uniqueid in s.container.legs
         || (g.body.uniqueid in OrigIds(s.legSeen) && x.body.uniqueid in Terms(LinksOf(s.linkSeen, g.body.uniqueid)))
  {
    hide PipeInv, RecordsInv, CallInv, LegsTimely, Terminating, Grows;
    var k := x.body.uniqueid;
    TerminatingMembers(s.legSeen);
    SeenMembers(cfg, s, k);
    SeenIsOld(cfg, s);
    SameUniqueLeg(s.legTable, x, Seen(s)[k]);
    if k !in s.container.legs {
      if Stale(cfg, s, t, g.body.uniqueid, k) {
        StaleIsTaken(cfg, s, t, g, l, x);
      } else {
        ClaimedIsTaken(cfg, s, t, g, l, x);
      }
    }
  }

  lemma {:induction false} StaleIsTaken(cfg: Config, s: State, t: State, g: CallLeg, l: CallLegLink, x: CallLeg)
    requires Known(cfg, s, t, g.body.uniqueid) && Names(t, g, l, x) && cfg.start < g.time
    requires x.body.uniqueid in Seen(s) && Seen(s)[x.body.uniqueid] == x && Stale(cfg, s, t, g.body.uniqueid, x.body.uniqueid)
    ensures g.body.uniqueid in OrigIds(s.legSeen) && x.body.uniqueid in Terms(LinksOf(s.linkSeen, g.body.uniqueid))
  {
    assert g.time <= x.time && InTime(cfg, g, l);
    hide CallInv, LegsTimely, LegInv, LinksInv, RecordsInv, Terminating, LinksOf, ReaderInv, SendsOn;
    assert g in s.legSeen by {
      SeenMembers(cfg, s, x.body.uniqueid);
      assert g in s.legTable;
      assert s.legReader.sent[..|s.legSeen|] == s.legSeen;
      if g !in s.legSeen {
        LateLeg(cfg, s, |s.legSeen|, s.container.maxLegTime, g);
      }
    }
    assert l in LinksOf(s.linkSeen, g.body.uniqueid);
  }

  lemma {:induction false} ClaimedIsTaken(cfg: Config, s: State, t: State, g: CallLeg, l: CallLegLink, x: CallLeg)
    requires Known(cfg, s, t, g.body.uniqueid) && Names(t, g, l, x) && ClaimedIn(s, x.body.uniqueid)
    ensures g.body.uniqueid in OrigIds(s.legSeen) && x.body.uniqueid in Terms(LinksOf(s.linkSeen, g.body.uniqueid))
  {
    hide ReadersInv, MaximaInv, QueuesInv, RecordsInv, CallInv, LegsFollow, LegInv, CallTimely, OrigIds, IsRecord, Grows;
    SeenLater(cfg, s, t);
    var r :| IsRecord(s, r) && x.body.uniqueid in Terms(r.links);
    var m :| m in r.links && m.body.uniqueidTerm == x.body.uniqueid;
    RecordLink(s, r, m);
    RecordIsOpened(s, r);
    assert NamesLeg(t, l, x) && NamesLeg(t, m, x);
    assert m in LinksOf(s.linkSeen, r.orig);
  }

  // ----- a pass ------------------------------------------------------------------------

  /** A pass over a state of which everything so far is known. */
  ghost predicate LegPass(cfg: Config, s: State, t: State, d: Container, w: Sweep, c: string) {
    Known(cfg, s, t, c) && Swept(cfg, s, d, w)
  }

  /** The legs seen once the queue has been dequeued. */
  function SeenAfter(s: State): map<string, CallLeg> {
    Terminating(s.legSeen + s.legQueue)
  }

  lemma {:induction false} SeenAfterMembers(cfg: Config, s: State, k: string)
    requires Reached(cfg, s) && k in SeenAfter(s)
    ensures var x := SeenAfter(s)[k]; x in s.legSeen + s.legQueue && x in s.legTable && !x.body.orig && x.body.uniqueid == k && cfg.start < x.time
  {
    hide PipeInv;
    TerminatingMembers(s.legSeen + s.legQueue);
    SeenIsOld(cfg, s);
  }

  /** A leg keeps its place among the legs seen. */
  lemma {:induction false} SeenGrows(cfg: Config, s: State)
    requires Reached(cfg, s) && UniqueLegs(s.legTable)
    ensures SeenAfter(s) == Seen(s) + Terminating(s.legQueue)
    ensures forall k | k in Seen(s) :: k in SeenAfter(s) && SeenAfter(s)[k] == Seen(s)[k]
  {
    hide Terminating, PipeInv;
    TerminatingConcat(s.legSeen, s.legQueue);
    forall k | k in Seen(s) ensures k in SeenAfter(s) && SeenAfter(s)[k] == Seen(s)[k] {
      SeenMembers(cfg, s, k);
      SeenAfterMembers(cfg, s, k);
    }
  }

  lemma {:induction false} AbsorbedLegs(cfg: Config, s: State, d: Container)
    requires Passing(cfg, s, d) && WaitingAreSeen(s)
    ensures Keyed(d.legs)
    ensures d.legs == s.container.legs + Terminating(s.legQueue)
    ensures forall k | k in d.legs :: k in SeenAfter(s) && d.legs[k] == SeenAfter(s)[k]
    ensures forall k | k in SeenAfter(s) && k !in d.legs :: k in Seen(s) && k !in s.container.legs
  {
    hide Terminating, Absorbed, PipeInv, RecordsInv, UniqueLegs, Seen, SeenAfter;
    AbsorbedIsValid(cfg, s, d);
    SeenGrows(cfg, s);
    AbsorbLegsWaiting(s.container, s.legQueue);
    AbsorbedIs(s, d);
    SubmapUnion(s.container.legs, Terminating(s.legQueue), Seen(s), SeenAfter(s));
  }

  lemma {:induction false} SubmapUnion<K, V>(part: map<K, V>, add: map<K, V>, whole: map<K, V>, after: map<K, V>)
    requires after == whole + add && forall k | k in part :: k in whole && part[k] == whole[k]
    ensures forall k | k in part + add :: k in after && (part + add)[k] == after[k]
    ensures forall k | k in after && k !in part + add :: k in whole && k !in part
  {
  }

  lemma {:induction false} AbsorbedIs(s: State, d: Container)
    requires s.container.Valid() && d == Absorbed(s.container, s.legQueue, s.linkQueue)
    ensures d.legs == AbsorbLegs(s.container, s.legQueue).legs
  {
  }

  /** The links of a record are sent links of its call, before and after the sweep. */
  lemma {:induction false} AttachedLink(cfg: Config, s: State, d: Container, r: CallRecord, l: CallLegLink)
    requires Passing(cfg, s, d) && r in d.data && l in Attached(r, d.links)
    ensures (l in s.linkSeen || l in s.linkQueue) && l.body.uniqueidOrig == r.orig
  {
    AbsorbedIsValid(cfg, s, d);
    hide ReadersInv, MaximaInv, QueuesInv, RecordsInv, UniqueLegs, Absorbed;
    if l in r.links {
      AbsorbedRecords(cfg, s, d);
      RecordLink(s, r, l);
    } else {
      AbsorbedGroup(s, d, r.orig);
      if l in Group(s.container.links, r.orig) {
        GroupSeen(s, r.orig, l);
      }
    }
  }

  lemma {:induction false} TermsMember(links: seq<CallLegLink>, k: string)
    ensures k in Terms(links) <==> exists l :: l in links && l.body.uniqueidTerm == k
  {
  }

  lemma {:induction false} OneCaller(s: State, c: string, l: CallLegLink, m: CallLegLink, x: CallLeg)
    requires OneCall(s, c) && l in s.linkTable && m in s.linkTable && x in s.legTable && !x.body.orig
    requires l.body.uniqueidTerm == x.body.uniqueid == m.body.uniqueidTerm && l.body.uniqueidOrig == c
    ensures m.body.uniqueidOrig == c
  {
    assert NamesLeg(s, l, x) && NamesLeg(s, m, x);
  }

  /** No record but that of the call claims a leg that its links name. */
  lemma {:induction false} SameClaimant(cfg: Config, s: State, t: State, d: Container, c: string, a: CallRecord, b: CallRecord, k: string)
    requires Passing(cfg, s, d) && WaitingAreSeen(s) && Judged(cfg, s, t, c)
    requires a in d.data && a.orig == c && b in d.data && k in d.legs
    requires k in Terms(Attached(a, d.links)) && k in Terms(Attached(b, d.links))
    ensures b.orig == c
  {
    hide PipeInv, RecordsInv, UniqueLegs, WaitingAreSeen, OneCall, CallTimely, LegsFollow, Attached, SeenAfter, Terms, Absorbed, Grows;
    TermsMember(Attached(a, d.links), k);
    TermsMember(Attached(b, d.links), k);
    AbsorbedLegs(cfg, s, d);
    SeenAfterMembers(cfg, s, k);
    SeenLater(cfg, s, t);
    var l :| l in Attached(a, d.links) && l.body.uniqueidTerm == k;
    var m :| m in Attached(b, d.links) && m.body.uniqueidTerm == k;
    AttachedLink(cfg, s, d, a, l);
    AttachedLink(cfg, s, d, b, m);
    OneCaller(t, c, l, m, SeenAfter(s)[k]);
  }

  lemma {:induction false} CallClaimsAlone(cfg: Config, s: State, t: State, d: Container, c: string, i: nat)
    requires Passing(cfg, s, d) && WaitingAreSeen(s) && Judged(cfg, s, t, c) && i < |d.data| && d.data[i].orig == c
    ensures OnlyClaim(d.data, i, d.legs, d.links)
  {
    hide PipeInv, RecordsInv, UniqueLegs, WaitingAreSeen, Judged, Attached, Terms, Absorbed;
    AbsorbedRecords(cfg, s, d);
    forall j | 0 <= j < |d.data| && j != i
      ensures forall k | k in Terms(Attached(d.data[i], d.links)) && k in Terms(Attached(d.data[j], d.links)) :: k !in d.legs
    {
      forall k | k in Terms(Attached(d.data[i], d.links)) && k in Terms(Attached(d.data[j], d.links)) ensures k !in d.legs {
        if k in d.legs {
          SameClaimant(cfg, s, t, d, c, d.data[i], d.data[j], k);
        }
      }
    }
  }

  /** What the sweep leaves waiting and attaches. */
  lemma {:induction false} SweptLegs(cfg: Config, s: State, d: Container, w: Sweep)
    requires Swept(cfg, s, d, w)
    ensures w.legs == d.legs - Claimed(d.data, d.links) && |w.swept| == |d.data|
    ensures forall i | 0 <= i < |d.data| :: w.swept[i].orig == d.data[i].orig && w.swept[i].links == Attached(d.data[i], d.links)
  {
    hide Passing, SweepAll, Claimed, DistinctOrigs;
    AbsorbedRecords(cfg, s, d);
    SweepLeaves(d.data, d.legs, d.links);
    SweptParts(cfg, s, d, w);
  }

  lemma {:induction false} SweptTakes(cfg: Config, s: State, t: State, d: Container, w: Sweep, c: string, i: nat)
    requires LegPass(cfg, s, t, d, w, c) && i < |d.data| && d.data[i].orig == c && i < |w.swept|
    ensures w.swept[i].legs == d.data[i].legs + Named(Attached(d.data[i], d.links), d.legs)
  {
    hide PipeInv, RecordsInv, UniqueLegs, CallInv, Judged, SweepAll, Absorbed, WaitingAreSeen, HasLegs, Named, Attached, OnlyClaim;
    AbsorbedRecords(cfg, s, d);
    AbsorbedLegs(cfg, s, d);
    CallClaimsAlone(cfg, s, t, d, c, i);
    OnlyClaimTakes(d.data, i, d.legs, d.links);
  }

  /** What the record of the call holds before the sweep, be it old or new. */
  lemma {:induction false} HeldBefore(cfg: Config, s: State, t: State, d: Container, c: string, r: CallRecord) returns (g: CallLeg)
    requires Known(cfg, s, t, c) && Passing(cfg, s, d) && r in d.data && r.orig == c
    ensures g in s.legSeen + s.legQueue && g in s.legTable && g.body.orig && g.body.uniqueid == c && cfg.start < g.time
    ensures r.legs == map[c := g] + Named(r.links, Seen(s))
    ensures c in OrigIds(s.legSeen) ==> r.links == LinksOf(s.linkSeen, c)
  {
    hide PipeInv, RecordsInv, AwaitedInv, LegsTimely, Grows, WaitingInv, Terminating, Seen, LinksOf, Absorbed;
    AbsorbedRecords(cfg, s, d);
    SeenIsOld(cfg, s);
    if r in s.container.data {
      assert HasLegs(s, r);
      g := r.legs[r.orig];
    } else {
      g :| g in s.legQueue && g.body.orig && r == Open(g);
      QueueIsNew(cfg, s);
      assert Named(r.links, Seen(s)) == map[];
    }
  }

  lemma {:induction false} JudgedSees(cfg: Config, s: State, t: State, c: string)
    requires Judged(cfg, s, t, c)
    ensures forall x | x in s.legSeen || x in s.legQueue :: x in t.legTable
    ensures forall l | l in s.linkSeen || l in s.linkQueue :: l in t.linkTable
  {
    hide PipeInv, Grows, LegsTimely;
    SeenLater(cfg, s, t);
  }

  /** The legs that a sweep adds to the record are exactly those it was still missing. */
  lemma {:induction false} MissingLegs(cfg: Config, s: State, t: State, d: Container, c: string, r: CallRecord, k: string)
    requires Known(cfg, s, t, c) && Passing(cfg, s, d) && r in d.data && r.orig == c
    requires k in SeenAfter(s) && k in Terms(Attached(r, d.links))
    ensures k in d.legs || (k in Seen(s) && k in Terms(r.links))
  {
    hide Known, Judged, PipeInv, RecordsInv, UniqueLegs, Absorbed, Attached, SeenAfter, Seen, OrigIds, LinksOf, ClaimedIn, Stale;
    KnownGives(cfg, s, t, c);
    hide CallInv;
    if k !in d.legs {
      AbsorbedLegs(cfg, s, d);
      SeenMembers(cfg, s, k);
      JudgedSees(cfg, s, t, c);
      var g := HeldBefore(cfg, s, t, d, c, r);
      var l :| l in Attached(r, d.links) && l.body.uniqueidTerm == k;
      AttachedLink(cfg, s, d, r, l);
      NamedLegIsKept(cfg, s, t, g, l, Seen(s)[k]);
    }
  }

  lemma {:induction false} SweptHasLegs(cfg: Config, s: State, t: State, d: Container, w: Sweep, c: string, i: nat)
    requires LegPass(cfg, s, t, d, w, c) && i < |w.swept| && i < |d.data| && d.data[i].orig == c
    ensures var r := w.swept[i];
            && r.orig in r.legs && r.legs[r.orig] in s.legSeen + s.legQueue && r.legs[r.orig].body.orig && r.legs[r.orig].body.uniqueid == r.orig
            && r.legs == map[r.orig := r.legs[r.orig]] + Named(r.links, SeenAfter(s))
  {
    hide Known, Judged, SweepAll, Absorbed, Attached, SeenAfter, Seen, Terms, OrigIds, LinksOf, UniqueLegs, PipeInv, RecordsInv, ClaimedIn, Stale;
    var r0, r := d.data[i], w.swept[i];
    KnownGives(cfg, s, t, c);
    hide CallInv;
    var g := HeldBefore(cfg, s, t, d, c, r0);
    SweptLegs(cfg, s, d, w);
    SweptTakes(cfg, s, t, d, w, c, i);
    SeenGrows(cfg, s);
    AbsorbedLegs(cfg, s, d);
    var attached := Attached(r0, d.links);
    AttachedGrows(r0, d.links);
    forall k | k in SeenAfter(s) && k in Terms(attached) && k !in d.legs ensures k in Seen(s) && k in Terms(r0.links) {
      MissingLegs(cfg, s, t, d, c, r0, k);
    }
    JoinNamed(r0.links, Seen(s), attached, d.legs, SeenAfter(s));
    assert c !in SeenAfter(s) by {
      if c in SeenAfter(s) {
        var x := SeenAfter(s)[c];
        SeenAfterMembers(cfg, s, c);
        SameUniqueLeg(s.legTable, g, x);
      }
    }
    JoinOrig(c, g, Named(r0.links, Seen(s)), Named(attached, d.legs), Named(attached, SeenAfter(s)));
  }

  /** What a record had and what it takes add up to all that its links name. */
  lemma {:induction false} JoinNamed(
    before: seq<CallLegLink>, seen: map<string, CallLeg>, now: seq<CallLegLink>, waiting: map<string, CallLeg>, after: map<string, CallLeg>)
    requires Terms(before) <= Terms(now)
    requires forall k | k in seen :: k in after && after[k] == seen[k]
    requires forall k | k in waiting :: k in after && after[k] == waiting[k]
    requires forall k | k in after && k in Terms(now) && k !in waiting :: k in seen && k in Terms(before)
    ensures Named(before, seen) + Named(now, waiting) == Named(now, after)
  {
    hide Terms;
  }

  lemma {:induction false} JoinOrig(orig: string, g: CallLeg, before: map<string, CallLeg>, taken: map<string, CallLeg>, all: map<string, CallLeg>)
    requires before + taken == all && orig !in all
    ensures map[orig := g] + before + taken == map[orig := g] + all && (map[orig := g] + all)[orig] == g
  {
  }

  lemma {:induction false} AttachedGrows(r: CallRecord, links: LinkGroups)
    ensures Terms(r.links) <= Terms(Attached(r, links))
  {
    forall l | l in r.links ensures l in Attached(r, links) {}
  }

  /** The state after a pass. */
  ghost predicate LegPassed(cfg: Config, s: State, d: Container, w: Sweep, looks: Looks, s': State) {
    && Passed(cfg, s, d, w, looks, s')
    && s'.container.legs == FreshLegs(w.legs, d.maxLegTime - cfg.maxCall, looks, cfg.maxCall)
  }

  lemma {:induction false} LegPassParts(cfg: Config, s: State, d: Container, w: Sweep, looks: Looks)
    requires Swept(cfg, s, d, w) && s.container.Valid()
    ensures LegPassed(cfg, s, d, w, looks, MergeAt(cfg, s, looks))
  {
    hide SweepAll, Select, Absorbed, Passing, Throttle, FreshLegs, FreshLinks, StaleLinks, Passed;
    PassParts(cfg, s, d, w, looks);
    AbsorbedIsValid(cfg, s, d);
    PassDrains(cfg, s, looks);
  }

  lemma {:induction false} SweptHolds(cfg: Config, s: State, t: State, d: Container, w: Sweep, s': State, c: string, r: CallRecord)
    requires LegPass(cfg, s, t, d, w, c) && s'.legSeen == s.legSeen + s.legQueue && r in w.swept && r.orig == c
    ensures HasLegs(s', r)
  {
    hide Known, Passing, SweepAll, Named, Terminating;
    assert Seen(s') == SeenAfter(s);
    SweptLegs(cfg, s, d, w);
    var i :| 0 <= i < |w.swept| && w.swept[i] == r;
    SweptHasLegs(cfg, s, t, d, w, c, i);
  }

  /** A claim that a record has made stays made. */
  lemma {:induction false} ClaimStays(cfg: Config, s: State, d: Container, w: Sweep, looks: Looks, s': State, k: string)
    requires Swept(cfg, s, d, w) && Passed(cfg, s, d, w, looks, s')
    requires ClaimedIn(s, k) || k in Claimed(d.data, d.links)
    ensures ClaimedIn(s', k)
  {
    hide SweepAll, Select, FreshLinks, Terms, Passing, Attached;
    SweptLegs(cfg, s, d, w);
    if i: nat :| i < |d.data| && k in Terms(Attached(d.data[i], d.links)) {
      PassMembers(cfg, s, d, w, looks, s', w.swept[i]);
      assert w.swept[i] in w.swept;
    } else {
      ClaimedMember(d.data, d.links, k);
      var r :| IsRecord(s, r) && k in Terms(r.links);
      if r in s.emitted {
        assert IsRecord(s', r);
      } else {
        AbsorbedIsValid(cfg, s, d);
        LiveIsSwept(s, d, r);
        var i :| 0 <= i < |d.data| && d.data[i] == r;
        AttachedGrows(r, d.links);
        assert false;
      }
    }
  }

  lemma {:induction false} LiveIsSwept(s: State, d: Container, r: CallRecord)
    requires s.container.Valid() && d == Absorbed(s.container, s.legQueue, s.linkQueue) && r in s.container.data
    ensures r in d.data
  {
    AbsorbLegsKeeps(s.container, s.legQueue);
  }

  lemma {:induction false} AbsorbLegsKeeps(c: Container, legs: seq<CallLeg>)
    requires c.Valid()
    ensures forall r | r in c.data :: r in AbsorbLegs(c, legs).data
  {
    if legs != [] {
      AbsorbLegsKeeps(c, legs[..|legs| - 1]);
    }
  }

  lemma {:induction false} StaleStays(cfg: Config, s: State, t: State, d: Container, w: Sweep, looks: Looks, s': State, c: string, k: string)
    requires Swept(cfg, s, d, w) && Passed(cfg, s, d, w, looks, s') && k in Seen(s) && Stale(cfg, s, t, c, k)
    ensures k in Seen(s') && Stale(cfg, s', t, c, k)
  {
    hide SweepAll, Select, FreshLinks, PipeInv, RecordsInv, Terminating, Absorbed;
    SeenGrows(cfg, s);
    assert Seen(s') == SeenAfter(s);
    PassMaxLeg(cfg, s, d);
  }

  lemma {:induction false} WorkWaiting(cfg: Config, s: State, t: State, d: Container, w: Sweep, looks: Looks, s': State, c: string, time: int)
    requires Swept(cfg, s, d, w) && WaitingInv(cfg, s, t, c) && LegPassed(cfg, s, d, w, looks, s')
    requires looks.By(time) && CaughtUp(cfg, s.linkSeen + s.linkQueue, t, c, time)
    ensures WaitingInv(cfg, s', t, c)
  {
    hide Passing, SweepAll, Select, Terminating, ClaimedIn;
    assert Seen(s') == SeenAfter(s);
    hide Seen, SeenAfter;
    AbsorbedLegs(cfg, s, d);
    SweptLegs(cfg, s, d, w);
    forall k | k in Seen(s') && k !in s'.container.legs ensures ClaimedIn(s', k) || Stale(cfg, s', t, c, k) {
      if k in d.legs {
        if k in Claimed(d.data, d.links) {
          ClaimStays(cfg, s, d, w, looks, s', k);
        } else {
          assert Finished(d.legs[k].time, d.maxLegTime - cfg.maxCall, looks.AtLeg(k), cfg.maxCall);
        }
      } else if ClaimedIn(s, k) {
        ClaimStays(cfg, s, d, w, looks, s', k);
      } else {
        StaleStays(cfg, s, t, d, w, looks, s', c, k);
      }
    }
  }

  lemma {:induction false} WorkLegs(cfg: Config, s: State, t: State, looks: Looks, c: string, time: int)
    requires Known(cfg, s, t, c) && s.container.Valid()
    requires looks.By(time) && CaughtUp(cfg, s.linkSeen + s.linkQueue, t, c, time)
    ensures LegInv(cfg, MergeAt(cfg, s, looks), t, c)
  {
    hide PipeInv, RecordsInv, UniqueLegs, CallInv, LegsTimely, Grows, WaitingInv, HasLegs, SweepAll, Absorbed, MergeAt, Passed, CaughtUp;
    var d := Absorbed(s.container, s.legQueue, s.linkQueue);
    var w := SweepAll(d.data, d.legs, d.links);
    var s' := MergeAt(cfg, s, looks);
    LegPassParts(cfg, s, d, w, looks);
    WorkWaiting(cfg, s, t, d, w, looks, s', c, time);
    forall r | r in s'.container.data && r.orig == c ensures HasLegs(s', r) {
      PassMembers(cfg, s, d, w, looks, s', r);
      PassedSees(cfg, s, d, w, looks, s');
      SweptHolds(cfg, s, t, d, w, s', c, r);
    }
  }

  lemma {:induction false} PassedSees(cfg: Config, s: State, d: Container, w: Sweep, looks: Looks, s': State)
    requires Passed(cfg, s, d, w, looks, s')
    ensures s'.legSeen == s.legSeen + s.legQueue
  {
  }

  lemma {:induction false} OtherLegs(cfg: Config, s: State, s': State, t: State, c: string)
    requires LegInv(cfg, s, t, c)
    requires s'.container == s.container && s'.emitted == s.emitted && s'.legSeen == s.legSeen && s'.linkSeen == s.linkSeen
    ensures LegInv(cfg, s', t, c)
  {
    hide Terminating, CaughtUp;
    assert Seen(s') == Seen(s);
    assert forall r :: IsRecord(s', r) <==> IsRecord(s, r);
    hide Seen, IsRecord;
    forall k | k in Seen(s') && k !in s'.container.legs ensures ClaimedIn(s', k) || Stale(cfg, s', t, c, k) {
      if ClaimedIn(s, k) {
        var r :| IsRecord(s, r) && k in Terms(r.links);
        assert IsRecord(s', r);
      }
    }
    forall r | r in s'.container.data && r.orig == c ensures HasLegs(s', r) {
      assert HasLegs(s, r);
    }
  }

  lemma {:induction false} HappensKeepsLegs(cfg: Config, s: State, s': State, t: State, e: Event, c: string, time: int)
    requires Known(cfg, s, t, c) && Happens(cfg, s, s', e)
    requires e.Works? ==> e.looks.By(time) && CaughtUp(cfg, s.linkSeen + s.linkQueue, t, c, time)
    ensures LegInv(cfg, s', t, c)
  {
    hide PipeInv, RecordsInv, UniqueLegs, CallInv, LegsTimely, Grows, LegInv, Next, MergeAt, CaughtUp;
    if e.Works? {
      WorkLegs(cfg, s, t, e.looks, c, time);
    } else {
      WorkOnly(cfg, s, s', e);
      OtherLegs(cfg, s, s', t, c);
    }
  }

  // ----- every run -----------------------------------------------------------------------

  /** A run in which the links of the call `c` are timely, judged in state `j`, when no pass
      among the first `n` events was disturbed. */
  ghost predicate LegRun(cfg: Config, run: seq<State>, events: seq<Event>, n: nat, j: nat, c: string) {
    CallRun(cfg, run, events, c) && n <= j < |run| && LegsFollow(run[j], c) && OneCall(run[j], c) && Undisturbed(run, events, n, j, c)
  }

  /** Such a pass had all the links that the clock has passed when it looks for the last time. */
  lemma {:induction false} UndisturbedCaughtUp(cfg: Config, run: seq<State>, events: seq<Event>, i: nat, k: nat, j: nat, c: string)
    requires UniqueRun(cfg, run, events) && LookedBy(run, events, i, k, c) && k <= j < |run|
    ensures CaughtUp(cfg, run[i].linkSeen + run[i].linkQueue, run[j], c, run[k].linkReader.startTime)
  {
    hide UniqueRun, RecordsInv, UniqueLegs, Happens, MaximaInv, LinksInv, QueuesInv, ReaderInv, Grows, Init;
    RunFacts(cfg, run, events, i);
    RunFacts(cfg, run, events, j);
    ValidRun(cfg, run, events);
    hide IsSplitRun;
    RunGrows(cfg, run, events, i, k);
    RunGrows(cfg, run, events, k, j);
    SentCatchesUp(cfg, run[i], run[k], run[j], c);
  }

  lemma {:induction false} LookedByGives(run: seq<State>, events: seq<Event>, i: nat, k: nat, c: string)
    requires LookedBy(run, events, i, k, c)
    ensures events[i].looks.By(run[k].linkReader.startTime)
  {
  }

  lemma {:induction false} SentCatchesUp(cfg: Config, s: State, k: State, t: State, c: string)
    requires Reached(cfg, t) && Grows(cfg, s, k) && Grows(cfg, k, t) && |s.linkReader.sent| <= |k.linkReader.sent|
    requires forall l | l in k.linkReader.sent[|s.linkReader.sent|..] :: l.body.uniqueidOrig != c
    ensures CaughtUp(cfg, s.linkReader.sent, t, c, k.linkReader.startTime)
  {
    hide MaximaInv, LinksInv, QueuesInv;
    ExactlyOnce(cfg, t.linkReader, t.linkTable, t.now);
    hide ReaderInv;
    var sent := t.linkReader.sent;
    assert k.linkReader.sent == s.linkReader.sent + k.linkReader.sent[|s.linkReader.sent|..];
    assert sent == k.linkReader.sent + sent[|k.linkReader.sent|..];
    forall l | l in t.linkTable && l.body.uniqueidOrig == c && cfg.start < l.time <= k.linkReader.startTime ensures l in s.linkReader.sent {
      assert l in sent;
    }
  }

  lemma {:induction false} RunJudged(cfg: Config, run: seq<State>, events: seq<Event>, n: nat, j: nat, c: string, i: nat)
    requires LegRun(cfg, run, events, n, j, c) && i <= j
    ensures Judged(cfg, run[i], run[j], c) && CallInv(cfg, run[i], c)
  {
    hide UniqueRun, Reached, RecordsInv, UniqueLegs, CallInv, Grows, LinksTimely, LegsFollow, OneCall, Undisturbed;
    RunFacts(cfg, run, events, i);
    RunFacts(cfg, run, events, j);
    RunCall(cfg, run, events, c, i);
    ValidRun(cfg, run, events);
    RunGrows(cfg, run, events, i, j);
  }

  lemma {:induction false} RunLegs(cfg: Config, run: seq<State>, events: seq<Event>, n: nat, j: nat, c: string, i: nat)
    requires LegRun(cfg, run, events, n, j, c) && i <= n
    ensures i <= j < |run| && Known(cfg, run[i], run[j], c)
  {
    hide CallRun, Judged, CallInv, LegInv, LegsFollow, OneCall, Happens, CaughtUp, LookedBy, Reached, RecordsInv, UniqueLegs;
    RunJudged(cfg, run, events, n, j, c, i);
    CallIsUniqueRun(cfg, run, events, c);
    hide IsSplitRun, UniqueRun;
    if i == 0 {
      RunFacts(cfg, run, events, i);
      InitLegs(cfg, run[0], run[j], c);
    } else {
      RunLegs(cfg, run, events, n, j, c, i - 1);
      hide Known;
      RunFacts(cfg, run, events, i - 1);
      var k: nat := j;
      if events[i - 1].Works? {
        k :| k <= j && LookedBy(run, events, i - 1, k, c);
        UndisturbedCaughtUp(cfg, run, events, i - 1, k, j, c);
        LookedByGives(run, events, i - 1, k, c);
      }
      HappensKeepsLegs(cfg, run[i - 1], run[i], run[j], events[i - 1], c, run[k].linkReader.startTime);
    }
    KnownIs(cfg, run[i], run[j], c);
  }

  lemma {:induction false} InitLegs(cfg: Config, s: State, t: State, c: string)
    requires Init(cfg, s)
    ensures LegInv(cfg, s, t, c)
  {
  }

  lemma {:induction false} KnownIs(cfg: Config, s: State, t: State, c: string)
    requires Judged(cfg, s, t, c) && CallInv(cfg, s, c) && LegInv(cfg, s, t, c)
    ensures Known(cfg, s, t, c)
  {
  }

  /** Where a named leg is: it waits, the record of its call has it, or that record is gone. */
  ghost predicate Kept(s: State, g: CallLeg, x: CallLeg) {
    || x.body.uniqueid in s.container.legs
    || (exists r :: r in s.container.data && r.orig == g.body.uniqueid
                    && x.body.uniqueid in r.legs && r.legs[x.body.uniqueid] == x)
    || g.body.uniqueid in Origs(s.emitted)
  }

  lemma {:induction false} NamedIsKept(cfg: Config, s: State, t: State, g: CallLeg, l: CallLegLink, x: CallLeg)
    requires Known(cfg, s, t, g.body.uniqueid) && Names(t, g, l, x) && cfg.start < g.time && x in s.legSeen
    ensures Kept(s, g, x)
  {
    hide PipeInv, LegsTimely, WaitingInv, Terminating, AwaitedInv, DistinctOrigs, Grows;
    var c, k := g.body.uniqueid, x.body.uniqueid;
    NamedLegIsKept(cfg, s, t, g, l, x);
    if k !in s.container.legs && c !in Origs(s.emitted) {
      assert c in Origs(s.container.data);
      var r :| r in s.container.data && r.orig == c;
      assert HasLegs(s, r) && r.links == LinksOf(s.linkSeen, c);
      TerminatingMembers(s.legSeen);
      SeenMembers(cfg, s, k);
      SeenIsOld(cfg, s);
      SameUniqueLeg(s.legTable, x, Seen(s)[k]);
      assert k in Named(r.links, Seen(s)) && r.legs[k] == x;
    }
  }

  /** In every run in which the links of the call are timely and no pass so far was disturbed,
      whatever the other calls, whatever the order of legs and however late the leg starts,
      eviction does not lose it: once dequeued, a leg that a link of the call names waits
      until it is attached to the record of the call, for as long as that record has not been
      emitted. */
  lemma {:induction false} NamedLegsAreKept(cfg: Config, run: seq<State>, events: seq<Event>, i: nat, j: nat, g: CallLeg, l: CallLegLink, x: CallLeg)
    requires LegRun(cfg, run, events, i, j, g.body.uniqueid)
    requires Names(run[j], g, l, x) && cfg.start < g.time && x in run[i].legSeen
    ensures Kept(run[i], g, x)
  {
    hide LegRun, Known, Kept;
    RunLegs(cfg, run, events, i, j, g.body.uniqueid, i);
    NamedIsKept(cfg, run[i], run[j], g, l, x);
  }
}
