/** Who gains from queueing: an owner's balance plus deposits rises only where something is
    queued for free. */
module QueueGains {
  import opened Constants
  import opened QueueModel
  import opened QueueCounting
  import opened QueueLaws
  import opened QueueAccounts

  // ---------------------------------------------------------------------
  // An exempt owner's money never moves
  // ---------------------------------------------------------------------

  lemma GiveLeaves(w: World, money: map<Dbref, int>, who: Dbref, pennies: int, o: Dbref)
    requires w.exempt(o)
    ensures At(GiveTo(w, money, who, pennies), o) == At(money, o)
  {
  }

  lemma {:induction false} PayBackLeaves(w: World, s: State, hits: seq<Entry>, i: nat, o: Dbref)
    requires w.exempt(o)
    ensures At(PayBack(w, s, hits, i).money, o) == At(s.money, o)
  {
    hide GiveTo, Take;
    if i > 0 {
      PayBackLeaves(w, s, hits, i - 1, o);
      var tally := Size(hits, OwnedBy(w, i - 1));
      GiveLeaves(w, PayBack(w, s, hits, i - 1).money, i - 1, w.waitcost * tally, o);
    }
  }

  lemma {:induction false} RefundLeaves(w: World, s: State, es: seq<Entry>, o: Dbref)
    requires w.exempt(o)
    ensures At(Refund(w, s, es).money, o) == At(s.money, o)
  {
    hide GiveTo;
    if es != [] {
      var n := |es| - 1;
      RefundLeaves(w, s, es[..n], o);
      GiveLeaves(w, Refund(w, s, es[..n]).money, es[n].player, w.waitcost, o);
    }
  }

  lemma HaltLeaves(w: World, s: State, p: Dbref, ob: Dbref, o: Dbref)
    requires w.exempt(o)
    ensures At(HaltQue(w, s, p, ob).money, o) == At(s.money, o)
  {
    hide GiveTo, PayBack, Take, Mark, Release;
    if p == NOTHING && ob == NOTHING {
      PayBackLeaves(w, Sweep(w, s, p, ob), Hits(w, s, p, ob), w.dbTop, o);
    } else {
      GiveLeaves(w, s.money, if p == NOTHING then w.owner(ob) else p, w.waitcost * NumHalted(w, s, p, ob), o);
    }
  }

  lemma SetupLeaves(w: World, s: State, player: Dbref, coin: bool, o: Dbref)
    requires w.exempt(o)
    ensures At(Setup(w, s, player, coin).money, o) == At(s.money, o)
  {
    hide HaltQue;
    if Judge(w, s, player, coin) == Runaway {
      HaltLeaves(w, Charged(w, s, player, coin), w.owner(player), NOTHING, o);
    }
  }

  lemma WaitQueLeaves(w: World, s: State, player: Dbref, cause: Dbref, wait: int, sem: Dbref, attr: int,
                      coin: bool, clock: int, o: Dbref)
    requires w.exempt(o)
    ensures At(WaitQue(w, s, player, cause, wait, sem, attr, coin, clock).money, o) == At(s.money, o)
  {
    if s.interp {
      WaitQueFrame(w, s, player, cause, wait, sem, attr, coin, clock);
      SetupLeaves(w, s, player, coin, o);
    }
    hide Setup, Judge, Insert, GiveQue;
  }

  lemma NotifyLeaves(w: World, s: State, sem: Dbref, attr: int, key: NotifyKey, count: int, o: Dbref)
    requires w.exempt(o)
    ensures At(NfyQue(w, s, sem, attr, key, count).money, o) == At(s.money, o)
  {
    hide Refund, GiveAll, NotifyScan;
    var r := NotifyScan(s, sem, attr, key, count);
    RefundLeaves(w, s.(sq := r.1), r.0, o);
    GiveAllLedger(w, s.(sq := r.1), r.0);
  }

  lemma ExemptStays(w: World, s: State, a: Action, o: Dbref)
    requires w.exempt(o)
    ensures At(Do(w, s, a).money, o) == At(s.money, o)
  {
    hide WaitQue, HaltQue, NfyQue, DoSecond;
    match a
    case Queue(player, cause, wait, qattr, coin, clock) =>
      WaitQueLeaves(w, s, player, cause, wait, NOTHING, qattr, coin, clock, o);
    case SemWait(player, cause, thing, attr, howlong, coin, clock) =>
      var s1 := s.(sem := Add(s.sem, (thing, attr), 1));
      WaitQueLeaves(w, s1, player, cause, 0, NOTHING, attr, coin, clock, o);
      WaitQueLeaves(w, s1, player, cause, howlong, thing, attr, coin, clock, o);
    case Notify(sem, attr, key, count) => NotifyLeaves(w, s, sem, attr, key, count, o);
    case Halt(p, ob) => HaltLeaves(w, s, p, ob, o);
    case Destroyed(obj) =>
      HaltLeaves(w, s, NOTHING, obj, o);
      NotifyLeaves(w, HaltQue(w, s, NOTHING, obj), obj, 0, Drain, 0, o);
    case Second => SecondLedger(w, s);
    case WarpTime(i) => SecondLedger(w, s.(wq := WarpWait(s.wq, i), sq := WarpSem(s.sq, i), dequeue := true));
    case Tick(t) =>
    case SetFlags(h, i, d) =>
  }

  // ---------------------------------------------------------------------
  // Live entries come from accepted commands only
  // ---------------------------------------------------------------------

  /** Is this an accepted command of `o`'s? */
  ghost predicate Queues(w: World, s: State, a: Action, o: Dbref) {
    (a.Queue? || a.SemWait?) && s.interp && w.owner(a.player) == o && Judge(w, s, a.player, a.coin) == Accepted
  }

  lemma LiveWaitQue(w: World, s: State, player: Dbref, cause: Dbref, wait: int, sem: Dbref, attr: int,
                    coin: bool, clock: int, o: Dbref)
    requires w.Sound() && At(s.count, o) == Live(w, s, o) && player >= 0
    ensures var s' := WaitQue(w, s, player, cause, wait, sem, attr, coin, clock);
      if s.interp && w.owner(player) == o && Judge(w, s, player, coin) == Accepted then Live(w, s', o) == Live(w, s, o) + 1
      else Live(w, s', o) <= Live(w, s, o)
  {
    if s.interp {
      SetupEffect(w, s, player, coin, o);
      TotalWaitQue(w, s, player, cause, wait, sem, attr, coin, clock, LiveOf(w, o));
      if Judge(w, s, player, coin) == Accepted { SameLive(w, s, Setup(w, s, player, coin), o); }
    }
    hide Setup, Judge, Insert, GiveQue, Take;
  }

  lemma LiveStep(w: World, s: State, a: Action, o: Dbref)
    requires w.Sound() && Shape(w, s) && Enabled(w, a) && At(s.count, o) == Live(w, s, o)
    ensures var s' := Do(w, s, a);
      if Queues(w, s, a, o) then Live(w, s', o) == Live(w, s, o) + 1 else Live(w, s', o) <= Live(w, s, o)
  {
    hide WaitQue, HaltQue, NfyQue, DoSecond, Total;
    match a
    case Queue(player, cause, wait, qattr, coin, clock) =>
      LiveWaitQue(w, s, player, cause, wait, NOTHING, qattr, coin, clock, o);
    case SemWait(player, cause, thing, attr, howlong, coin, clock) =>
      var s1 := s.(sem := Add(s.sem, (thing, attr), 1));
      SameLive(w, s, s1, o);
      LiveWaitQue(w, s1, player, cause, 0, NOTHING, attr, coin, clock, o);
      LiveWaitQue(w, s1, player, cause, howlong, thing, attr, coin, clock, o);
    case Notify(sem, attr, key, count) => NotifyEffect(w, s, sem, attr, key, count, o);
    case Halt(p, ob) => HaltEffect(w, s, p, ob, o);
    case Destroyed(obj) => DestroyEffect(w, s, obj, o);
    case Second => TotalSecond(w, s, LiveOf(w, o));
    case WarpTime(i) => TotalWarp(w, s, i, LiveOf(w, o));
    case Tick(t) => SameLive(w, s, Do(w, s, a), o);
    case SetFlags(h, i, d) => SameLive(w, s, Do(w, s, a), o);
  }

  // ---------------------------------------------------------------------
  // Exactly when balance plus deposits rises
  // ---------------------------------------------------------------------

  /** An accepted command of `o`'s for which nobody paid the deposit. */
  ghost predicate Gains(w: World, s: State, a: Action, o: Dbref) {
    Queues(w, s, a, o) && w.Free(a.player) && w.waitcost > 0
  }

  lemma Product(a: nat, b: nat)
    ensures a * b >= 0
  {
  }

  lemma ForfeitSign(w: World, s: State, a: Action, o: Dbref)
    requires Payer(w, o)
    ensures Forfeit(w, s, a, o) < 0 <==> Gains(w, s, a, o)
  {
    hide Judge, HaltQue, NotifyScan, Take;
    match a
    case Notify(sem, attr, key, count) =>
      Product(w.waitcost, Size(NotifyScan(s, sem, attr, key, count).0, ExemptOf(w, o)));
    case Destroyed(obj) =>
      Product(w.waitcost, Size(NotifyScan(HaltQue(w, s, NOTHING, obj), obj, 0, Drain, 0).0, ExemptOf(w, o)));
    case _ =>
  }

  /** For every owner but `GOD`, whether it pays or not, balance plus deposits rises if and only
      if a command is accepted for which nobody paid the deposit. */
  lemma GainsExactlyWhenFree(w: World, s: State, a: Action, o: Dbref)
    requires w.Sound() && Shape(w, s) && Enabled(w, a) && At(s.count, o) == Live(w, s, o) <= w.queueMax(o)
    requires o != GOD
    ensures Worth(w, Do(w, s, a), o) > Worth(w, s, o) <==> Gains(w, s, a, o)
  {
    hide Do, Shape, Live, Enabled, Judge, Forfeit;
    var s' := Do(w, s, a);
    if w.exempt(o) {
      ExemptStays(w, s, a, o);
      LiveStep(w, s, a, o);
      Distribute(w.waitcost, Live(w, s, o), 1);
      Monotone(w.waitcost, Live(w, s', o), Live(w, s, o));
    } else {
      AccountStep(w, s, a, o);
      ForfeitSign(w, s, a, o);
    }
  }

  lemma Monotone(c: nat, x: nat, y: nat)
    requires x <= y + 1
    ensures x <= y ==> c * x <= c * y
  {
    if x <= y { Distribute(c, y, x); Product(c, y - x); }
  }
}
