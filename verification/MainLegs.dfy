/** Which leg a report takes for the main one, and how many legs it lists. */
module MainLegs {
  import opened Common
  import opened Rows
  import opened MergeContainers
  import opened Readers
  import opened Pipeline
  import opened SplitRuns
  import opened Records
  import opened PostProcess

  /** No leg but the one that the record is named after is an originating one. */
  ghost predicate OnlyOrig(r: CallRecord) {
    forall k | k in r.legs && k != r.orig :: !r.legs[k].body.orig
  }

  ghost predicate OnlyOrigs(recs: seq<CallRecord>) {
    forall r | r in recs :: OnlyOrig(r)
  }

  // ----- every pass of the container keeps this, whatever the rows ---------------------------

  lemma {:induction false} AbsorbOnlyOrigs(c: Container, legs: seq<CallLeg>)
    requires c.Valid() && OnlyOrigs(c.data)
    ensures OnlyOrigs(AbsorbLegs(c, legs).data)
  {
    if legs != [] {
      var n := |legs| - 1;
      AbsorbOnlyOrigs(c, legs[..n]);
      assert OnlyOrig(Open(legs[n]));
    }
  }

  lemma {:induction false} AttachKeepsOnlyOrig(links: seq<CallLegLink>, own: map<string, CallLeg>, waiting: map<string, CallLeg>, orig: string)
    requires Keyed(waiting) && forall k | k in own && k != orig :: !own[k].body.orig
    ensures var (o, w) := AttachLegs(links, own, waiting); Keyed(w) && forall k | k in o && k != orig :: !o[k].body.orig
  {
    if links != [] {
      AttachKeepsOnlyOrig(links[..|links| - 1], own, waiting, orig);
    }
  }

  lemma {:induction false} SweepOnlyOrigs(recs: seq<CallRecord>, legs: map<string, CallLeg>, links: LinkGroups)
    requires Grouped(links) && Keyed(legs) && OnlyOrigs(recs)
    ensures OnlyOrigs(SweepAll(recs, legs, links).swept)
  {
    if recs != [] {
      var n := |recs| - 1;
      var rec, p := recs[n], SweepAll(recs[..n], legs, links);
      assert recs == recs[..n] + [rec];
      SweepOnlyOrigs(recs[..n], legs, links);
      SweepValid(recs[..n], legs, links);
      assert OnlyOrig(rec);
      AttachKeepsOnlyOrig(Attached(rec, p.links), rec.legs, p.legs, rec.orig);
    }
  }

  lemma {:induction false} PassKeepsOnlyOrig(c: Container, legsIn: seq<CallLeg>, linksIn: seq<CallLegLink>, looks: Looks, maxCall: int)
    requires c.Valid() && OnlyOrigs(c.data)
    ensures var p := RunPass(c, legsIn, linksIn, looks, maxCall); OnlyOrigs(p.container.data) && OnlyOrigs(p.emitted)
  {
    var d := Absorbed(c, legsIn, linksIn);
    AbsorbOnlyOrigs(c, legsIn);
    SweepOnlyOrigs(d.data, d.legs, d.links);
    var s, saveTime := SweepAll(d.data, d.legs, d.links), d.maxLegTime - maxCall;
    SelectMembers(s.swept, false, saveTime, looks, maxCall);
    SelectMembers(s.swept, true, saveTime, looks, maxCall);
    hide SweepAll, Select, Absorbed, Finished, OnlyOrig;
  }

  lemma {:induction false} OnlyOrigsConcat(a: seq<CallRecord>, b: seq<CallRecord>)
    requires OnlyOrigs(a) && OnlyOrigs(b)
    ensures OnlyOrigs(a + b)
  {
    hide OnlyOrig;
  }

  /** In every run, whatever the rows: no record, live or emitted, holds an originating leg
      under another id than its own. */
  lemma {:induction false} RunOnlyOrigs(cfg: Config, run: seq<State>, events: seq<Event>, i: nat)
    requires cfg.Valid() && IsSplitRun(cfg, run, events) && i < |run|
    ensures OnlyOrigs(run[i].container.data) && OnlyOrigs(run[i].emitted)
  {
    hide ReadersInv, MaximaInv, LinksInv, QueuesInv, Next, MergeAt, OnlyOrigs, IsSplitRun;
    if i == 0 {
      NoOrigs(cfg, run, events);
    } else {
      RunOnlyOrigs(cfg, run, events, i - 1);
      EventOf(cfg, run, events, i);
      if events[i - 1].Works? {
        WorkOnlyOrigs(cfg, run[i - 1], events[i - 1].looks);
      } else {
        WorkOnly(cfg, run[i - 1], run[i], events[i - 1]);
      }
    }
  }

  lemma {:induction false} NoOrigs(cfg: Config, run: seq<State>, events: seq<Event>)
    requires IsSplitRun(cfg, run, events)
    ensures run[0].container.data == [] && run[0].emitted == [] && run[0].container.legs == map[]
    ensures OnlyOrigs([])
  {
  }

  lemma {:induction false} WorkOnlyOrigs(cfg: Config, s: State, looks: Looks)
    requires QueuesInv(cfg, s) && s.container.Valid() && OnlyOrigs(s.container.data) && OnlyOrigs(s.emitted)
    ensures var s' := MergeAt(cfg, s, looks); OnlyOrigs(s'.container.data) && OnlyOrigs(s'.emitted)
  {
    hide OnlyOrigs, RunPass, Throttle;
    PassDrains(cfg, s, looks);
    PassKeepsOnlyOrig(s.container, s.legQueue, s.linkQueue, looks, cfg.maxCall);
    OnlyOrigsConcat(s.emitted, PassAt(cfg, s, looks).emitted);
  }

  // ----- with unique ids no record loses its originating leg --------------------------------------

  /** The originating leg of a record, as it was dequeued. */
  ghost predicate HasOrig(seen: seq<CallLeg>, r: CallRecord) {
    r.orig in r.legs && r.legs[r.orig] in seen && r.legs[r.orig].body.orig && r.legs[r.orig].body.uniqueid == r.orig
  }

  ghost predicate OrigInv(s: State) {
    && (forall r | r in s.container.data || r in s.emitted :: HasOrig(s.legSeen, r))
    && forall k | k in s.container.legs :: s.container.legs[k] in s.legSeen
  }

  ghost predicate HaveOrigs(seen: seq<CallLeg>, recs: seq<CallRecord>) {
    forall r | r in recs :: HasOrig(seen, r)
  }

  lemma {:induction false} AbsorbHaveOrigs(c: Container, legs: seq<CallLeg>, seen: seq<CallLeg>)
    requires c.Valid() && HaveOrigs(seen, c.data) && forall k | k in c.legs :: c.legs[k] in seen
    ensures var d := AbsorbLegs(c, legs); HaveOrigs(seen + legs, d.data) && forall k | k in d.legs :: d.legs[k] in seen + legs
  {
    if legs == [] {
      assert seen + [] == seen;
    } else {
      var n := |legs| - 1;
      AbsorbHaveOrigs(c, legs[..n], seen);
      AbsorbOneHasOrig(AbsorbLegs(c, legs[..n]), legs[n], seen + legs[..n]);
      assert seen + legs == (seen + legs[..n]) + [legs[n]];
    }
  }

  lemma {:induction false} AbsorbOneHasOrig(c: Container, leg: CallLeg, seen: seq<CallLeg>)
    requires HaveOrigs(seen, c.data) && forall k | k in c.legs :: c.legs[k] in seen
    ensures var d := AbsorbLeg(c, leg); HaveOrigs(seen + [leg], d.data) && forall k | k in d.legs :: d.legs[k] in seen + [leg]
  {
    forall r | r in AbsorbLeg(c, leg).data ensures HasOrig(seen + [leg], r) {
      if r in c.data {
        assert HasOrig(seen, r);
      }
    }
  }

  /** Attaching leaves alone what is under an id that no waiting leg has. */
  lemma {:induction false} AttachKeeps(links: seq<CallLegLink>, own: map<string, CallLeg>, waiting: map<string, CallLeg>, orig: string)
    requires Keyed(waiting) && orig in own && orig !in waiting
    ensures var (o, w) := AttachLegs(links, own, waiting); orig in o && o[orig] == own[orig] && Keyed(w) && w.Keys <= waiting.Keys
  {
    if links != [] {
      AttachKeeps(links[..|links| - 1], own, waiting, orig);
    }
  }

  lemma {:induction false} SweepHaveOrigs(recs: seq<CallRecord>, legs: map<string, CallLeg>, links: LinkGroups, seen: seq<CallLeg>)
    requires Grouped(links) && Keyed(legs) && HaveOrigs(seen, recs) && forall r | r in recs :: r.orig !in legs
    ensures var s := SweepAll(recs, legs, links);
            HaveOrigs(seen, s.swept) && Keyed(s.legs) && s.legs.Keys <= legs.Keys && forall k | k in s.legs :: s.legs[k] == legs[k]
  {
    if recs != [] {
      var n := |recs| - 1;
      var rec, p := recs[n], SweepAll(recs[..n], legs, links);
      assert recs == recs[..n] + [rec];
      SweepHaveOrigs(recs[..n], legs, links, seen);
      SweepOneHasOrig(p, rec, seen);
    }
  }

  lemma {:induction false} SweepOneHasOrig(p: Sweep, rec: CallRecord, seen: seq<CallLeg>)
    requires HaveOrigs(seen, p.swept) && HasOrig(seen, rec) && Keyed(p.legs) && rec.orig !in p.legs
    ensures var s := SweepOne(p, rec); HaveOrigs(seen, s.swept) && Keyed(s.legs) && s.legs.Keys <= p.legs.Keys
    ensures var s := SweepOne(p, rec); forall k | k in s.legs :: s.legs[k] == p.legs[k]
  {
    AttachKeeps(Attached(rec, p.links), rec.legs, p.legs, rec.orig);
    AttachLegsWaiting(Attached(rec, p.links), rec.legs, p.legs);
    hide AttachLegs, Attached;
  }

  /** A pass, when no two legs dequeued so far have the same id. */
  lemma {:induction false} PassHasOrigs(c: Container, legsIn: seq<CallLeg>, linksIn: seq<CallLegLink>, looks: Looks, maxCall: int, seen: seq<CallLeg>)
    requires c.Valid() && HaveOrigs(seen, c.data) && forall k | k in c.legs :: c.legs[k] in seen
    requires forall a, b | a in seen + legsIn && b in seen + legsIn && a.body.uniqueid == b.body.uniqueid :: a == b
    ensures var p := RunPass(c, legsIn, linksIn, looks, maxCall);
            && HaveOrigs(seen + legsIn, p.container.data) && HaveOrigs(seen + legsIn, p.emitted)
            && forall k | k in p.container.legs :: p.container.legs[k] in seen + legsIn
  {
    hide SweepAll, Select, Finished, HasOrig;
    var d := Absorbed(c, legsIn, linksIn);
    AbsorbHaveOrigs(c, legsIn, seen);
    forall r | r in d.data ensures r.orig !in d.legs {
      NoLegHasItsId(d, seen + legsIn, r);
    }
    SweepHaveOrigs(d.data, d.legs, d.links, seen + legsIn);
    var s, saveTime := SweepAll(d.data, d.legs, d.links), d.maxLegTime - maxCall;
    SelectMembers(s.swept, false, saveTime, looks, maxCall);
    SelectMembers(s.swept, true, saveTime, looks, maxCall);
  }

  lemma {:induction false} NoLegHasItsId(d: Container, seen: seq<CallLeg>, r: CallRecord)
    requires d.Valid() && r in d.data && HaveOrigs(seen, d.data) && forall k | k in d.legs :: d.legs[k] in seen
    requires forall a, b | a in seen && b in seen && a.body.uniqueid == b.body.uniqueid :: a == b
    ensures r.orig !in d.legs
  {
    assert HasOrig(seen, r);
  }

  lemma {:induction false} WorkOrigInv(cfg: Config, s: State, looks: Looks)
    requires QueuesInv(cfg, s) && s.container.Valid() && OrigInv(s)
    requires forall a, b | a in s.legSeen + s.legQueue && b in s.legSeen + s.legQueue && a.body.uniqueid == b.body.uniqueid :: a == b
    ensures OrigInv(MergeAt(cfg, s, looks))
  {
    hide RunPass, HasOrig, Throttle;
    PassDrains(cfg, s, looks);
    PassHasOrigs(s.container, s.legQueue, s.linkQueue, looks, cfg.maxCall, s.legSeen);
    forall r | r in s.emitted ensures HasOrig(s.legSeen + s.legQueue, r) {
      HasOrigGrows(s.legSeen, s.legQueue, r);
    }
  }

  lemma {:induction false} QueuedIsUnique(cfg: Config, s: State)
    requires cfg.Valid() && PipeInv(cfg, s) && UniqueLegs(s.legTable)
    ensures forall a, b | a in s.legSeen + s.legQueue && b in s.legSeen + s.legQueue && a.body.uniqueid == b.body.uniqueid :: a == b
  {
    hide ReaderInv, LinksInv, MaximaInv;
    SeenIsOld(cfg, s);
  }

  lemma {:induction false} HasOrigGrows(seen: seq<CallLeg>, more: seq<CallLeg>, r: CallRecord)
    requires HasOrig(seen, r)
    ensures HasOrig(seen + more, r)
  {
  }

  lemma {:induction false} RunOrigInv(cfg: Config, run: seq<State>, events: seq<Event>, i: nat)
    requires UniqueRun(cfg, run, events) && i < |run|
    ensures OrigInv(run[i])
  {
    hide ReadersInv, MaximaInv, LinksInv, QueuesInv, Next, UniqueLegs, MergeAt, IsSplitRun, HasOrig;
    if i == 0 {
      NoOrigs(cfg, run, events);
    } else {
      RunOrigInv(cfg, run, events, i - 1);
      EventOf(cfg, run, events, i);
      if events[i - 1].Works? {
        QueuedIsUnique(cfg, run[i - 1]);
        WorkOrigInv(cfg, run[i - 1], events[i - 1].looks);
      } else {
        WorkOnly(cfg, run[i - 1], run[i], events[i - 1]);
      }
    }
  }

  // ----- the main leg --------------------------------------------------------------------------

  lemma {:induction false} MainOfNone(legs: Legs, keys: seq<string>, a: Option<CallLeg>)
    requires forall k | k in keys :: k in legs && !legs[k].body.orig
    ensures MainLeg(legs, keys, a) == a
  {
    if keys != [] {
      MainOfNone(legs, keys[1..], a);
    }
  }

  lemma {:induction false} MainIsOrig(legs: Legs, keys: seq<string>, orig: string, a: Option<CallLeg>)
    requires orig in keys && NoDup(keys) && legs.Keys >= (set k | k in keys)
    requires forall k | k in keys :: legs[k].body.orig <==> k == orig
    ensures MainLeg(legs, keys, a) == Some(legs[orig])
  {
    assert keys == [keys[0]] + keys[1..];
    assert forall i | 0 <= i < |keys| - 1 :: keys[1..][i] == keys[i + 1];
    if keys[0] == orig {
      MainOfNone(legs, keys[1..], Some(legs[orig]));
    } else {
      MainIsOrig(legs, keys[1..], orig, a);
    }
  }

  /** The main leg of a record, whatever the rows: its originating leg if that is still
      there, and otherwise none, so that the report is left with an unset leg. */
  lemma {:induction false} MainLegOf(r: CallRecord)
    requires OnlyOrig(r)
    ensures MainLeg(r.legs, KeyOrder(r.legs.Keys), None)
            == if r.orig in r.legs && r.legs[r.orig].body.orig then Some(r.legs[r.orig]) else None
  {
    var keys := KeyOrder(r.legs.Keys);
    KeyOrderIsOnce(r.legs.Keys);
    if r.orig in r.legs && r.legs[r.orig].body.orig {
      MainIsOrig(r.legs, keys, r.orig, None);
    } else {
      MainOfNone(r.legs, keys, None);
    }
  }

  /** In every run with unique leg ids, and nothing else assumed of the rows: each record
      that is emitted still has its originating leg, and that is the main leg. */
  lemma {:induction false} EmittedHasMainLeg(cfg: Config, run: seq<State>, events: seq<Event>, i: nat, r: CallRecord)
    requires UniqueRun(cfg, run, events) && i < |run| && r in run[i].emitted
    ensures r.orig in r.legs && r.legs[r.orig] in run[i].legSeen && r.legs[r.orig].body.orig && r.legs[r.orig].body.uniqueid == r.orig
    ensures MainLeg(r.legs, KeyOrder(r.legs.Keys), None) == Some(r.legs[r.orig])
  {
    hide IsSplitRun, UniqueLegs, KeyOrder, MainLeg;
    RunOnlyOrigs(cfg, run, events, i);
    RunOrigInv(cfg, run, events, i);
    assert HasOrig(run[i].legSeen, r) && OnlyOrig(r);
    MainLegOf(r);
  }

  /** The number of legs listed: one for each leg that is linked to another. */
  lemma {:induction false} LinkedCount(legs: Legs, keys: set<string>)
    requires keys <= legs.Keys
    ensures |Linked(legs, KeyOrder(keys))| == |set k | k in keys && legs[k].body.lastLinkedId != ""|
  {
    var some := set k | k in keys && legs[k].body.lastLinkedId != "";
    if keys != {} {
      HasLeast(keys);
      var order := KeyOrder(keys);
      var k := order[0];
      var rest := set j | j in keys - {k} && legs[j].body.lastLinkedId != "";
      LinkedCount(legs, keys - {k});
      assert order[1..] == KeyOrder(keys - {k});
      assert some == if legs[k].body.lastLinkedId == "" then rest else rest + {k};
    } else {
      assert some == {};
    }
  }
}
