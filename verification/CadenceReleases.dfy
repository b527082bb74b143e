/**
 What giving a reservation back restores, with nothing in between. The allocation horizon rolls
 back by one interval, so a bucket stays held until the instant admitted if that lay beyond both
 its horizon and the present.
 */
module CadenceReleases {
  import opened Basics
  import opened Cadence
  import opened CadenceRuns

  /** From `seen` on the two buckets admit alike: a horizon that lies in the past holds nobody up. */
  predicate SameHeadroom(b: Bucket, c: Bucket, seen: Instant) {
    Max(b.rtat, seen) == Max(c.rtat, seen)
  }

  /** Same headroom is what later requests can tell: how long each waits and what it leaves behind. */
  lemma SameHeadroomMeans(b: Bucket, c: Bucket, seen: Instant)
    requires c == b.(rtat := c.rtat)
    ensures SameHeadroom(b, c, seen) <==> forall t: Instant | seen <= t :: AdvanceReserve(b, t) == AdvanceReserve(c, t)
    ensures SameHeadroom(b, c, seen) ==>
              forall t: Instant | seen <= t :: Max(Slack(b, Allocating, t), 0) == Max(Slack(c, Allocating, t), 0)
  {
    assert AdvanceReserve(b, seen).rtat == AdvanceReserve(c, seen).rtat <==> SameHeadroom(b, c, seen);
  }

  /** Reserving and releasing leaves the horizon at the instant reserved, if that lay beyond it. */
  lemma ReleaseUndoesReserve(b: Bucket, t: Instant)
    requires b.tat <= b.rtat
    ensures ReleaseReserve(AdvanceReserve(b, t)) == b.(rtat := Max(b.rtat, t))
    ensures ReleaseReserve(AdvanceReserve(b, t)) == b <==> t <= b.rtat
    ensures forall seen: Instant ::
              SameHeadroom(ReleaseReserve(AdvanceReserve(b, t)), b, seen) <==> t <= Max(b.rtat, seen)
  {
  }

  lemma ReturnedBuckets(buckets: seq<Bucket>, t: Instant)
    requires forall b | b in buckets :: b.tat <= b.rtat
    ensures var after := MapBuckets(MapBuckets(buckets, b => AdvanceReserve(b, t)), b => ReleaseReserve(b));
            after == buckets <==> forall b | b in buckets :: t <= b.rtat
  {
    var after := MapBuckets(MapBuckets(buckets, b => AdvanceReserve(b, t)), b => ReleaseReserve(b));
    forall i | 0 <= i < |buckets| ensures after[i] == buckets[i] <==> t <= buckets[i].rtat {
      assert buckets[i] in buckets;
      ReleaseUndoesReserve(buckets[i], t);
    }
    hide ReleaseReserve, AdvanceReserve;
    if after == buckets {
      forall b | b in buckets ensures t <= b.rtat {
        var i :| 0 <= i < |buckets| && buckets[i] == b;
        assert after[i] == buckets[i];
      }
    }
  }

  /** No touched bucket's allocation horizon lies before its commit horizon. */
  ghost predicate Ordered(e: Engine, picks: seq<nat>)
    requires Picks(e.pools, picks)
  {
    forall b | b in Touched(e, picks) :: b.tat <= b.rtat
  }

  /** A touched bucket, by its address, is among the buckets touched. */
  lemma AddressIsTouched(e: Engine, picks: seq<nat>, a: Address)
    requires Picks(e.pools, picks) && Has(e, a) && Touches(picks, a)
    ensures Lookup(e, a) in Touched(e, picks)
  {
    if a.Private? { PickedContains(e.pools, picks, a.pool, a.index); }
  }

  /** Every bucket touched has an address. */
  lemma TouchedHasAddress(e: Engine, picks: seq<nat>, b: Bucket)
    requires Picks(e.pools, picks) && b in Touched(e, picks)
    ensures exists a: Address | Has(e, a) && Touches(picks, a) :: Lookup(e, a) == b
  {
    if b in e.shared {
      var i :| 0 <= i < |e.shared| && e.shared[i] == b;
      assert Lookup(e, Shared(i)) == b;
    } else {
      PickedHasAddress(e.pools, picks, b);
      var p, i :| 0 <= p < |e.pools| && 0 <= i < |e.pools[p][picks[p]].buckets| && e.pools[p][picks[p]].buckets[i] == b;
      assert Lookup(e, Private(p, picks[p], i)) == b;
    }
  }

  /** Admitting and releasing changes the touched buckets alone, each as if it stood alone. */
  lemma ReturnedAt(e: Engine, picks: seq<nat>, t: Instant, a: Address)
    requires Picks(e.pools, picks) && Has(e, a)
    ensures Picks(Admit(e, picks, t).pools, picks)
    ensures var after := Release(Admit(e, picks, t), picks);
            && Has(after, a)
            && Lookup(after, a) == if Touches(picks, a) then ReleaseReserve(AdvanceReserve(Lookup(e, a), t)) else Lookup(e, a)
  {
    ChangeTouchedAt(e, picks, b => AdvanceReserve(b, t), a);
    ChangeTouchedAt(Admit(e, picks, t), picks, b => ReleaseReserve(b), a);
  }

  /** Every bucket admits as before, from `seen` on. */
  ghost predicate SameEverywhere(e: Engine, f: Engine, seen: Instant) {
    forall a | Has(e, a) :: Has(f, a) && SameHeadroom(Lookup(f, a), Lookup(e, a), seen)
  }

  lemma ReturnedHeadroom(e: Engine, picks: seq<nat>, t: Instant, seen: Instant)
    requires Picks(e.pools, picks) && Ordered(e, picks)
    ensures Picks(Admit(e, picks, t).pools, picks)
    ensures SameEverywhere(e, Release(Admit(e, picks, t), picks), seen)
       <==> forall b | b in Touched(e, picks) :: t <= Max(b.rtat, seen)
  {
    hide Touched, Admit, Release, ReleaseReserve, AdvanceReserve, SameHeadroom;
    AdmitsPicks(e, picks, t);
    var after := Release(Admit(e, picks, t), picks);
    forall a | Has(e, a)
      ensures && Has(after, a)
              && (SameHeadroom(Lookup(after, a), Lookup(e, a), seen) <==> (Touches(picks, a) ==> t <= Max(Lookup(e, a).rtat, seen)))
    {
      ReturnedAt(e, picks, t, a);
      if Touches(picks, a) {
        AddressIsTouched(e, picks, a);
        ReleaseUndoesReserve(Lookup(e, a), t);
      } else {
        SameAsItself(Lookup(e, a), seen);
      }
    }
    forall b | b in Touched(e, picks) ensures exists a: Address | Has(e, a) && Touches(picks, a) :: Lookup(e, a) == b {
      TouchedHasAddress(e, picks, b);
    }
    forall a | Has(e, a) && Touches(picks, a) ensures Lookup(e, a) in Touched(e, picks) { AddressIsTouched(e, picks, a); }
  }

  lemma AdmitsPicks(e: Engine, picks: seq<nat>, t: Instant)
    requires Picks(e.pools, picks)
    ensures Picks(Admit(e, picks, t).pools, picks)
  {
  }

  lemma SameAsItself(b: Bucket, seen: Instant)
    ensures SameHeadroom(b, b, seen)
  {
  }

  /** Admitting and releasing leaves the very same engine only if no horizon moved at all. */
  lemma ReturnedEngine(e: Engine, picks: seq<nat>, t: Instant)
    requires Picks(e.pools, picks) && Ordered(e, picks)
    ensures Picks(Admit(e, picks, t).pools, picks)
    ensures Release(Admit(e, picks, t), picks) == e <==> forall b | b in Touched(e, picks) :: t <= b.rtat
  {
    var after := Release(Admit(e, picks, t), picks);
    ReturnedBuckets(e.shared, t);
    forall p | 0 <= p < |e.pools|
      ensures after.pools[p] == e.pools[p]
         <==> forall b | b in e.pools[p][picks[p]].buckets :: t <= b.rtat
    {
      forall b | b in e.pools[p][picks[p]].buckets ensures b in Touched(e, picks) {
        var i :| 0 <= i < |e.pools[p][picks[p]].buckets| && e.pools[p][picks[p]].buckets[i] == b;
        PickedContains(e.pools, picks, p, i);
      }
      ReturnedPool(e.pools[p], picks[p], t);
    }
    hide MapBuckets, ChangePool, PickedBuckets;
    forall b | b in PickedBuckets(e.pools, picks)
      ensures exists p | 0 <= p < |e.pools| :: b in e.pools[p][picks[p]].buckets
    {
      PickedHasAddress(e.pools, picks, b);
    }
    forall p, i | 0 <= p < |e.pools| && 0 <= i < |e.pools[p][picks[p]].buckets|
      ensures e.pools[p][picks[p]].buckets[i] in Touched(e, picks)
    {
      PickedContains(e.pools, picks, p, i);
    }
    assert after.pools == e.pools <==> forall p | 0 <= p < |e.pools| :: after.pools[p] == e.pools[p];
  }

  lemma ReturnedPool(pool: Pool, pick: nat, t: Instant)
    requires pick < |pool| && forall b | b in pool[pick].buckets :: b.tat <= b.rtat
    ensures var after := ChangePool(ChangePool(pool, pick, b => AdvanceReserve(b, t)), pick, b => ReleaseReserve(b));
            after == pool <==> forall b | b in pool[pick].buckets :: t <= b.rtat
  {
    ReturnedBuckets(pool[pick].buckets, t);
    hide MapBuckets;
    var after := ChangePool(ChangePool(pool, pick, b => AdvanceReserve(b, t)), pick, b => ReleaseReserve(b));
    if after == pool { assert after[pick] == pool[pick]; }
  }

  /**
   A reservation dropped with nothing in between gives its headroom back, as seen from any instant
   on, exactly if that is not before the instant admitted or the instant admitted lies within the
   horizon of every bucket touched. So one that did not have to wait always does, at once. The
   engine itself is as before only in the second case.
   */
  lemma DropRestoresHeadroomIff(h: Handle, demand: seq<Pin>, deadline: Instant, now: Instant, seen: Instant)
    requires Admissible(h.engine, demand, deadline, now).Some?
    requires Ordered(h.engine, Admissible(h.engine, demand, deadline, now).value.picks)
    ensures var slot := Admissible(h.engine, demand, deadline, now).value;
            var dropped := Apply(Apply(h, Reserve(demand, deadline, now)), GiveBack(|h.reservations|));
            var within := forall b | b in Touched(h.engine, slot.picks) :: slot.at <= b.rtat;
            && (SameEverywhere(h.engine, dropped.engine, seen) <==> slot.at <= seen || within)
            && (dropped.engine == h.engine <==> within)
  {
    var slot := Admissible(h.engine, demand, deadline, now).value;
    ReturnedHeadroom(h.engine, slot.picks, slot.at, seen);
    ReturnedEngine(h.engine, slot.picks, slot.at);
    hide Admit, Release, Touched, Admissible, SameEverywhere;
  }

  /** Two shared buckets, the second busy until instant 5. */
  function Busy(): Handle {
    Handle(Engine([Bucket("idle", 1, 0, 0, 0), Bucket("busy", 10, 0, 5, 5)], []), [])
  }

  /** Without pools the shared buckets alone decide. */
  lemma SharedOnly(e: Engine, demand: seq<Pin>, deadline: Instant, now: Instant)
    requires e.pools == [] && demand == []
    ensures var at := now + Max(MaxSlack(e.shared, Allocating, now), 0);
            Admissible(e, demand, deadline, now) == if at > deadline then None else Some(Peek([], at))
  {
    hide MaxSlack;
  }

  lemma BusyPeek()
    ensures Admissible(Busy().engine, [], 5, 0) == Some(Peek([], 5))
  {
    hide Admissible;
    var e := Busy().engine;
    SharedOnly(e, [], 5, 0);
    assert e.shared[1..] == [e.shared[1]] && MaxSlack(e.shared, Allocating, 0) == 5;
  }

  /** The busy bucket makes the reservation wait; dropping it leaves the idle one held until then. */
  lemma DropKeepsHeadroom()
    ensures var reserved := Apply(Busy(), Reserve([], 5, 0));
            var dropped := Apply(reserved, GiveBack(0));
            && |reserved.reservations| == 1
            && |dropped.engine.shared| == 2 && Busy().engine.shared[0].rtat == 0 && dropped.engine.shared[0].rtat == 5
            && !SameHeadroom(dropped.engine.shared[0], Busy().engine.shared[0], 0)
            && Slack(dropped.engine.shared[0], Allocating, 0) == 5
  {
    hide Admissible;
    BusyPeek();
    var b := Busy().engine.shared[0];
    ReleaseUndoesReserve(b, 5);
  }
}
