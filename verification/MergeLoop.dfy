/** The container as the object it is: one pass of its loop changes the lists and maps
    in place, and computes what `RunPass` and `Throttle` say. */
module MergeLoop {
  import opened Common
  import opened Rows
  import opened Readers
  import opened MergeContainers
  import opened Pipeline
  import opened ReaderLoops

  /** The legs of a map that are not in `left` have been looked at, and the stale ones are gone. */
  ghost predicate LegsEvicted(was: map<string, CallLeg>, legs: map<string, CallLeg>, left: set<string>, saveTime: int, looks: Looks, maxCall: int) {
    && left <= legs.Keys <= was.Keys && (forall k | k in legs :: legs[k] == was[k])
    && forall k | k in was && k !in left :: k in legs <==> !Finished(was[k].time, saveTime, looks.AtLeg(k), maxCall)
  }

  ghost predicate LinksEvicted(was: LinkGroups, links: LinkGroups, left: set<string>, saveTime: int)
    requires Grouped(was)
  {
    && left <= links.Keys <= was.Keys && (forall k | k in links :: links[k] == was[k])
    && forall k | k in was && k !in left :: k in links <==> !StaleGroup(was[k], saveTime)
  }

  /** One record further in the sweep. */
  lemma {:induction false} SweepStep(recs: seq<CallRecord>, k: nat, legs: map<string, CallLeg>, links: LinkGroups,
                                     done: bool, saveTime: int, looks: Looks, maxCall: int)
    requires k < |recs|
    ensures var s, t := SweepAll(recs[..k], legs, links), SweepAll(recs[..k + 1], legs, links);
            var one := SweepOne(Sweep([], s.legs, s.links), recs[k]);
            && t.legs == one.legs && t.links == one.links
            && Select(t.swept, done, saveTime, looks, maxCall)
               == Select(s.swept, done, saveTime, looks, maxCall)
                  + if Finished(one.swept[0].startTime, saveTime, looks.AtRecord(one.swept[0]), maxCall) == done then [one.swept[0]] else []
  {
    assert recs[..k + 1][..k] == recs[..k];
    var s, t := SweepAll(recs[..k], legs, links), SweepAll(recs[..k + 1], legs, links);
    var one := SweepOne(Sweep([], s.legs, s.links), recs[k]);
    assert t.swept == s.swept + one.swept;
    assert t.swept[..k] == s.swept;
  }

  lemma {:induction false} SweepNothing(legs: map<string, CallLeg>, links: LinkGroups, saveTime: int, looks: Looks, maxCall: int)
    ensures SweepAll([], legs, links) == Sweep([], legs, links)
    ensures forall done :: Select([], done, saveTime, looks, maxCall) == []
  {
  }

  class MergeContainer {
    var data: seq<CallRecord>
    var legs: map<string, CallLeg>
    var links: LinkGroups
    var maxLegTime: int
    var maxLinkTime: int
    const legReader: ReadCallLeg
    const linkReader: ReadCallLegLink

    ghost function View(): Container
      reads this
    {
      Container(data, legs, links, maxLegTime, maxLinkTime)
    }

    constructor (cfg: Config)
      ensures View() == Container([], map[], map[], cfg.start, cfg.start) && View().Valid()
      ensures fresh(legReader) && legReader.View() == Start(cfg) && fresh(linkReader) && linkReader.View() == Start(cfg)
    {
      data, legs, links, maxLegTime, maxLinkTime := [], map[], map[], cfg.start, cfg.start;
      legReader := new ReadCallLeg(cfg);
      linkReader := new ReadCallLegLink(cfg);
    }

    /** The pause flags after a pass: both readers run while the maxima are at most two calls
        apart; otherwise, unless one was paused before, the one that is ahead is paused. */
    ghost predicate Throttled(maxCall: int, legWas: bool, linkWas: bool)
      reads this`maxLegTime, this`maxLinkTime, legReader`paused, linkReader`paused
    {
      if maxLegTime - maxLinkTime <= maxCall * 2 && maxLinkTime - maxLegTime <= maxCall * 2
      then !legReader.paused && !linkReader.paused
      else if legWas || linkWas then legReader.paused == legWas && linkReader.paused == linkWas
      else (legReader.paused <==> maxLegTime > maxLinkTime) && (linkReader.paused <==> maxLegTime <= maxLinkTime)
    }

    method TakeLegs(legsIn: seq<CallLeg>)
      requires View().Valid()
      modifies this`data, this`legs, this`maxLegTime
      ensures View() == AbsorbLegs(old(View()), legsIn)
    {
      for i := 0 to |legsIn|
        invariant View() == AbsorbLegs(old(View()), legsIn[..i])
      {
        var leg := legsIn[i];
        assert legsIn[..i + 1][..i] == legsIn[..i];
        if leg.body.orig {
          data := data + [Open(leg)];
        } else {
          legs := legs[leg.body.uniqueid := leg];
        }
        if maxLegTime < leg.time {
          maxLegTime := leg.time;
        }
      }
      assert legsIn[..|legsIn|] == legsIn;
    }

    method TakeLinks(linksIn: seq<CallLegLink>)
      requires View().Valid()
      modifies this`links, this`maxLinkTime
      ensures View() == AbsorbLinks(old(View()), linksIn)
    {
      for i := 0 to |linksIn|
        invariant View() == AbsorbLinks(old(View()), linksIn[..i])
      {
        var link := linksIn[i];
        assert linksIn[..i + 1][..i] == linksIn[..i];
        var orig := link.body.uniqueidOrig;
        if orig !in links {
          links := links[orig := [link]];
          assert [] + [link] == [link];
        } else {
          links := links[orig := links[orig] + [link]];
        }
        if maxLinkTime < link.time {
          maxLinkTime := link.time;
        }
      }
      assert linksIn[..|linksIn|] == linksIn;
    }

    /** These records started before `saveTime`, and the link reader is more than `maxCall` past them. */
    ghost predicate AllDue(recs: seq<CallRecord>, saveTime: int, maxCall: int)
      reads linkReader`startTime
    {
      forall r | r in recs :: r.startTime < saveTime && r.startTime + maxCall < linkReader.startTime
    }

    /** No record and no leg that waits is due so, and no group begins before `saveTime`. */
    ghost predicate NoneDue(saveTime: int, maxCall: int)
      reads this`data, this`legs, this`links, linkReader`startTime
    {
      && (forall r | r in data :: saveTime <= r.startTime || linkReader.startTime <= r.startTime + maxCall)
      && (forall k | k in legs :: saveTime <= legs[k].time || linkReader.startTime <= legs[k].time + maxCall)
      && (forall k | k in links :: links[k] != [] && saveTime <= links[k][0].time)
    }

    method PauseOrResume(maxCall: int)
      modifies legReader`paused, linkReader`paused
      ensures (legReader.paused, linkReader.paused)
              == Throttle(maxCall, maxLegTime, maxLinkTime, old(legReader.paused), old(linkReader.paused))
      ensures Throttled(maxCall, old(legReader.paused), old(linkReader.paused))
    {
      if Abs(maxLegTime - maxLinkTime) > maxCall * 2 {
        if !legReader.paused && !linkReader.paused {
          if maxLegTime > maxLinkTime {
            legReader.Pause();
          } else {
            linkReader.Pause();
          }
        }
      } else {
        legReader.Resume();
        linkReader.Resume();
      }
    }

    /** Gives the record at `i` the links and legs that wait for it. */
    method Attach(i: nat)
      requires i < |data|
      modifies this`data, this`legs, this`links
      ensures var s := SweepOne(Sweep([], old(legs), old(links)), old(data)[i]);
              data == old(data)[i := s.swept[0]] && legs == s.legs && links == s.links
    {
      var record := data[i];
      var attached := record.links;
      if record.orig in links {
        attached := attached + links[record.orig];
        links := links - {record.orig};
      }
      assert attached == Attached(record, old(links)) && links == old(links) - {record.orig};
      var own := record.legs;
      for k := 0 to |attached|
        invariant (own, legs) == AttachLegs(attached[..k], record.legs, old(legs))
        invariant links == old(links) - {record.orig} && data == old(data)
      {
        assert attached[..k + 1][..k] == attached[..k];
        var term := attached[k].body.uniqueidTerm;
        if term in legs {
          own := own[legs[term].body.uniqueid := legs[term]];
          legs := legs - {term};
        }
      }
      assert attached[..|attached|] == attached;
      data := data[i := record.(links := attached, legs := own)];
    }

    /** Visits every record; the finished ones leave `data` and are handed on in order. */
    method SweepRecords(saveTime: int, maxCall: int) returns (emitted: seq<CallRecord>)
      modifies this`data, this`legs, this`links
      ensures var s := SweepAll(old(data), old(legs), old(links));
              && legs == s.legs && links == s.links
              && data == Select(s.swept, false, saveTime, Steady(linkReader.startTime), maxCall)
              && emitted == Select(s.swept, true, saveTime, Steady(linkReader.startTime), maxCall)
      ensures AllDue(emitted, saveTime, maxCall)
      ensures forall r | r in data :: saveTime <= r.startTime || linkReader.startTime <= r.startTime + maxCall
    {
      hide SweepAll, Select, SweepOne;
      emitted := [];
      var i := 0;
      ghost var k, recs, looks := 0, data, Steady(linkReader.startTime);
      SweepNothing(legs, links, saveTime, looks, maxCall);
      assert recs[..0] == [];
      while i < |data|
        invariant 0 <= i <= |data| && 0 <= k <= |recs| && data[i..] == recs[k..]
        invariant var s := SweepAll(recs[..k], old(legs), old(links));
                  && legs == s.legs && links == s.links
                  && data[..i] == Select(s.swept, false, saveTime, looks, maxCall)
                  && emitted == Select(s.swept, true, saveTime, looks, maxCall)
        invariant AllDue(emitted, saveTime, maxCall)
        invariant forall r | r in data[..i] :: saveTime <= r.startTime || linkReader.startTime <= r.startTime + maxCall
        decreases |data| - i
      {
        SweepStep(recs, k, old(legs), old(links), false, saveTime, looks, maxCall);
        SweepStep(recs, k, old(legs), old(links), true, saveTime, looks, maxCall);
        assert data[i] == data[i..][0] && data[i + 1..] == data[i..][1..] && recs[k + 1..] == recs[k..][1..];
        ghost var front, back := data[..i], data[i + 1..];
        Attach(i);
        assert data[..i] == front && data[i + 1..] == back;
        if data[i].startTime < saveTime && linkReader.GetTime() > data[i].startTime + maxCall {
          emitted := emitted + [data[i]];
          data := Without(data, i);
        } else {
          assert data[..i + 1] == front + [data[i]];
          i := i + 1;
        }
        k := k + 1;
      }
      assert data[..i] == data && recs[..k] == recs;
    }

    method EvictLegs(saveTime: int, maxCall: int)
      modifies this`legs
      ensures legs == FreshLegs(old(legs), saveTime, Steady(linkReader.startTime), maxCall)
      ensures forall k | k in old(legs) ::
                k in legs <==> saveTime <= old(legs)[k].time || linkReader.startTime <= old(legs)[k].time + maxCall
      ensures forall k | k in legs :: k in old(legs) && legs[k] == old(legs)[k]
    {
      var left := legs.Keys;
      while left != {}
        invariant LegsEvicted(old(legs), legs, left, saveTime, Steady(linkReader.startTime), maxCall)
        decreases |left|
      {
        var k :| k in left;
        left := left - {k};
        var stamp := legs[k].time;
        if stamp < saveTime && linkReader.GetTime() > stamp + maxCall {
          legs := legs - {k};
        }
      }
    }

    method EvictLinks(saveTime: int)
      requires Grouped(links)
      modifies this`links
      ensures links == FreshLinks(old(links), saveTime)
      ensures forall k | k in old(links) :: k in links <==> saveTime <= old(links)[k][0].time
      ensures forall k | k in links :: k in old(links) && links[k] == old(links)[k]
    {
      var left := links.Keys;
      while left != {}
        invariant LinksEvicted(old(links), links, left, saveTime)
        decreases |left|
      {
        var k :| k in left;
        left := left - {k};
        if links[k][0].time < saveTime {
          links := links - {k};
        }
      }
    }

    /** One pass over the dequeued rows. The time below which a record may leave is
        held in 32 bits. */
    method RunOnce(cfg: Config, legsIn: seq<CallLeg>, linksIn: seq<CallLegLink>) returns (emitted: seq<CallRecord>)
      requires View().Valid()
      modifies this, legReader`paused, linkReader`paused
      ensures var d := Absorbed(old(View()), legsIn, linksIn);
              var p := SettleAt(d, ToInt32(d.maxLegTime - cfg.maxCall), Steady(linkReader.startTime), cfg.maxCall);
              View() == p.container && emitted == p.emitted
      ensures var p := RunPass(old(View()), legsIn, linksIn, Steady(linkReader.startTime), cfg.maxCall);
              InInt32(maxLegTime - cfg.maxCall) ==> View() == p.container && emitted == p.emitted
      ensures View().Valid()
      ensures InInt32(maxLegTime - cfg.maxCall) ==> AllDue(emitted, maxLegTime - cfg.maxCall, cfg.maxCall) && NoneDue(maxLegTime - cfg.maxCall, cfg.maxCall)
      ensures Throttled(cfg.maxCall, old(legReader.paused), old(linkReader.paused))
      ensures (legReader.paused, linkReader.paused)
              == Throttle(cfg.maxCall, maxLegTime, maxLinkTime, old(legReader.paused), old(linkReader.paused))
    {
      hide SweepAll, Select, FreshLegs, FreshLinks, AbsorbLegs, AbsorbLinks, Throttle, Throttled, AllDue, Keyed, ToInt32, InInt32;
      TakeLegs(legsIn);
      TakeLinks(linksIn);
      ghost var d := View();
      assert d == Absorbed(old(View()), legsIn, linksIn);
      var saveTime := ToInt32(maxLegTime - cfg.maxCall);
      NarrowKeeps(maxLegTime - cfg.maxCall);
      PauseOrResume(cfg.maxCall);
      SweepValid(data, legs, links);
      emitted := SweepRecords(saveTime, cfg.maxCall);
      EvictLegs(saveTime, cfg.maxCall);
      EvictLinks(saveTime);
    }
  }

  // ----- a time in 32 bits -----------------------------------------------------------------

  predicate InInt32(x: int) {
    -0x8000_0000 <= x < 0x8000_0000
  }

  lemma {:induction false} NarrowKeeps(x: int)
    ensures ToInt32(x) == x <==> InInt32(x)
  {
  }

  lemma {:induction false} SweepKeepsTimes(recs: seq<CallRecord>, legs: map<string, CallLeg>, links: LinkGroups)
    ensures var s := SweepAll(recs, legs, links);
            && (forall i | 0 <= i < |recs| :: s.swept[i].startTime == recs[i].startTime)
            && s.links.Keys <= links.Keys && forall k | k in s.links :: s.links[k] == links[k]
  {
    if recs != [] {
      SweepKeepsTimes(recs[..|recs| - 1], legs, links);
    }
  }

  lemma {:induction false} SelectAll(recs: seq<CallRecord>, saveTime: int, looks: Looks, maxCall: int)
    requires forall i | 0 <= i < |recs| :: !Finished(recs[i].startTime, saveTime, looks.AtRecord(recs[i]), maxCall)
    ensures Select(recs, true, saveTime, looks, maxCall) == [] && Select(recs, false, saveTime, looks, maxCall) == recs
  {
    if recs != [] {
      SelectAll(recs[..|recs| - 1], saveTime, looks, maxCall);
    }
  }

  lemma {:induction false} NothingLeaves(d: Container, saveTime: int, looks: Looks, maxCall: int)
    requires d.Valid() && saveTime < 0
    requires (forall r | r in d.data :: r.startTime >= 0) && forall k | k in d.links :: d.links[k][0].time >= 0
    ensures var s, p := SweepAll(d.data, d.legs, d.links), SettleAt(d, saveTime, looks, maxCall);
            p.emitted == [] && p.container.data == s.swept && p.container.links == s.links && p.dropped == map[]
  {
    hide SweepAll, Select, FreshLegs, Keyed;
    var s := SweepAll(d.data, d.legs, d.links);
    SweepKeepsTimes(d.data, d.legs, d.links);
    SweepValid(d.data, d.legs, d.links);
    forall i | 0 <= i < |s.swept| ensures !Finished(s.swept[i].startTime, saveTime, looks.AtRecord(s.swept[i]), maxCall) {
      assert d.data[i] in d.data;
    }
    SelectAll(s.swept, saveTime, looks, maxCall);
    assert StaleLinks(s.links, saveTime) == map[] && FreshLinks(s.links, saveTime) == s.links;
  }

  /** Once the newest leg is more than `maxCall` past 2038-01-19 03:14:07 the narrowed time
      is negative, and until it has wrapped around again no pass lets any record go and
      none drops any link. */
  lemma {:induction false} NothingLeavesAfter2038(d: Container, looks: Looks, maxCall: int)
    requires d.Valid() && 0x8000_0000 <= d.maxLegTime - maxCall < 0x1_0000_0000
    requires (forall r | r in d.data :: r.startTime >= 0) && forall k | k in d.links :: d.links[k][0].time >= 0
    ensures var s, p := SweepAll(d.data, d.legs, d.links), SettleAt(d, ToInt32(d.maxLegTime - maxCall), looks, maxCall);
            p.emitted == [] && p.container.data == s.swept && p.container.links == s.links && p.dropped == map[]
  {
    hide SweepAll, Select, SettleAt;
    NothingLeaves(d, ToInt32(d.maxLegTime - maxCall), looks, maxCall);
  }
}
