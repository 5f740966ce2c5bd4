/** Queue counts and deposits: what every owner is charged, refunded and limited to. */
module QueueAccounts {
  import opened Constants
  import opened QueueModel
  import opened QueueCounting
  import opened QueueLaws

  ghost function Live(w: World, s: State, o: Dbref): nat {
    Total(s, LiveOf(w, o))
  }

  /** Each owner's queue count is the number of its live entries, within its limit. */
  ghost predicate Accounts(w: World, s: State) {
    forall o: Dbref :: At(s.count, o) == Live(w, s, o) <= w.queueMax(o)
  }

  /** An owner's balance together with the deposits it would get back. */
  ghost function Worth(w: World, s: State, o: Dbref): int {
    At(s.money, o) + w.waitcost * Live(w, s, o)
  }

  /** Owners that pay for what they queue. `GOD` is set apart because wiped entries look like his. */
  ghost predicate Payer(w: World, o: Dbref) {
    o != GOD && !w.exempt(o)
  }

  lemma Distribute(a: int, x: int, y: int)
    ensures a * (x + y) == a * x + a * y && a * (x - y) == a * x - a * y
  {
  }

  // ---------------------------------------------------------------------
  // halt_que
  // ---------------------------------------------------------------------

  ghost function Hits(w: World, s: State, p: Dbref, ob: Dbref): seq<Entry> {
    var f := Wanted(w, p, ob);
    Take(s.pq, f) + Take(s.oq, f) + Take(s.wq, f) + Take(s.sq, f)
  }

  lemma HitsWanted(w: World, s: State, p: Dbref, ob: Dbref)
    ensures forall e :: e in Hits(w, s, p, ob) ==> Wanted(w, p, ob)(e)
    ensures |Hits(w, s, p, ob)| == NumHalted(w, s, p, ob)
  {
    var f := Wanted(w, p, ob);
    TakeSubset(s.pq, f);
    TakeSubset(s.oq, f);
    TakeSubset(s.wq, f);
    TakeSubset(s.sq, f);
  }

  lemma SizeHits(w: World, s: State, p: Dbref, ob: Dbref, g: Entry -> bool)
    ensures var f := Wanted(w, p, ob);
      Size(Hits(w, s, p, ob), g)
      == Size(Take(s.pq, f), g) + Size(Take(s.oq, f), g) + Size(Take(s.wq, f), g) + Size(Take(s.sq, f), g)
  {
    var f := Wanted(w, p, ob);
    TakeAppend(Take(s.pq, f) + Take(s.oq, f) + Take(s.wq, f), Take(s.sq, f), g);
    TakeAppend(Take(s.pq, f) + Take(s.oq, f), Take(s.wq, f), g);
    TakeAppend(Take(s.pq, f), Take(s.oq, f), g);
  }

  lemma HaltLive(w: World, s: State, p: Dbref, ob: Dbref, o: Dbref)
    ensures Live(w, HaltQue(w, s, p, ob), o) == Live(w, s, o) - Size(Hits(w, s, p, ob), LiveOf(w, o))
  {
    hide Mark, Take, Release, PayBack, GiveTo, Hits;
    var f := Wanted(w, p, ob);
    var l := LiveOf(w, o);
    Partition(s.pq, f, l);
    Partition(s.oq, f, l);
    Partition(s.wq, f, l);
    Partition(s.sq, f, l);
    MarkLive(w, s.pq, f, o);
    MarkLive(w, s.oq, f, o);
    SizeHits(w, s, p, ob, l);
    HaltKeeps(w, s, p, ob);
  }

  /** `@halt/all`: nothing lives on, every count is zero, every payer has its deposits back. */
  lemma HaltEverything(w: World, s: State, o: Dbref)
    requires w.Sound()
    ensures var s' := HaltQue(w, s, NOTHING, NOTHING);
      && Live(w, s', o) == 0
      && (At(s.count, o) == Live(w, s, o) ==> At(s'.count, o) == 0)
      && (Payer(w, o) ==> At(s'.money, o) == At(s.money, o) + w.waitcost * Live(w, s, o))
  {
    var hits := Hits(w, s, NOTHING, NOTHING);
    var f := Wanted(w, NOTHING, NOTHING);
    HaltLive(w, s, NOTHING, NOTHING, o);
    AllTaken(s.pq, f);
    AllTaken(s.oq, f);
    AllTaken(s.wq, f);
    AllTaken(s.sq, f);
    SizeHits(w, s, NOTHING, NOTHING, LiveOf(w, o));
    PayBackAmounts(w, Sweep(w, s, NOTHING, NOTHING), hits, w.dbTop, o);
    LiveIsOwned(w, hits, o);
    if Size(hits, OwnedBy(w, o)) != 0 { SomeOwned(hits, w, o); }
  }

  /** Apart from wiped entries, being charged to an owner is being owned by it. */
  lemma {:induction false} LiveIsOwned(w: World, q: seq<Entry>, o: Dbref)
    requires w.Sound()
    ensures Size(q, LiveOf(w, o)) <= Size(q, OwnedBy(w, o))
    ensures o != GOD ==> Size(q, LiveOf(w, o)) == Size(q, OwnedBy(w, o))
  {
    if q != [] { LiveIsOwned(w, q[..|q| - 1], o); }
  }

  /** Halting one owner: its entries are gone, nobody else's. */
  lemma HaltOwner(w: World, s: State, p: Dbref, o: Dbref)
    requires w.Sound() && p != NOTHING
    ensures var s' := HaltQue(w, s, p, NOTHING);
      && (if o == p then Live(w, s', o) == 0 && At(s'.count, o) == 0
          else Live(w, s', o) == Live(w, s, o) && At(s'.count, o) == At(s.count, o))
      && (Payer(w, o) ==> At(s'.money, o) == At(s.money, o) + w.waitcost * (Live(w, s, o) - Live(w, s', o)))
  {
    hide Take, Mark, Release;
    var hits := Hits(w, s, p, NOTHING);
    HaltLive(w, s, p, NOTHING, o);
    HitsWanted(w, s, p, NOTHING);
    if o == p {
      var s1 := Sweep(w, s, p, NOTHING);
      var f := Wanted(w, p, NOTHING);
      OthersLeft(w, s.pq, p);
      OthersLeft(w, s.oq, p);
      OthersLeft(w, s.wq, p);
      OthersLeft(w, s.sq, p);
      MarkLive(w, s.pq, f, o);
      MarkLive(w, s.oq, f, o);
      LiveIsOwned(w, hits, o);
      AllTaken(hits, OwnedBy(w, o));
    } else {
      NoneTaken(hits, LiveOf(w, o));
    }
    var n: int := |hits|;
    var s' := HaltQue(w, s, p, NOTHING);
    assert s'.money == GiveTo(w, s.money, p, w.waitcost * n);
    if hits != [] {
      assert hits[0] in hits;
      assert w.owner(p) == p;
    } else {
      assert w.waitcost * n == 0;
    }
    if Payer(w, o) {
      var gone := Live(w, s, o) - Live(w, s', o);
      assert gone == if o == p then n else 0;
      assert w.waitcost * gone == if o == p then w.waitcost * n else 0;
    }
  }

  lemma OthersLeft(w: World, q: seq<Entry>, p: Dbref)
    ensures Size(Take(q, Not(Wanted(w, p, NOTHING))), LiveOf(w, p)) == 0
    requires p != NOTHING
  {
    var left := Take(q, Not(Wanted(w, p, NOTHING)));
    TakeSubset(q, Not(Wanted(w, p, NOTHING)));
    NoneTaken(left, LiveOf(w, p));
  }

  /** Halting one object lowers its owner's count by what was removed. */
  lemma HaltObject(w: World, s: State, p: Dbref, ob: Dbref, o: Dbref)
    requires w.Sound() && ob != NOTHING
    ensures var s' := HaltQue(w, s, p, ob); var gone := Live(w, s, o) - Live(w, s', o);
      && gone >= 0
      && At(s'.count, o) == At(s.count, o) - gone
      && (Payer(w, o) ==> At(s'.money, o) == At(s.money, o) + w.waitcost * gone)
  {
    hide Live, Hits;
    var hits := Hits(w, s, p, ob);
    HaltLive(w, s, p, ob, o);
    HitsWanted(w, s, p, ob);
    HitsOfOneObject(w, hits, p, ob, o);
    var n: int := |hits|;
    var s' := HaltQue(w, s, p, ob);
    var pl := if p == NOTHING then w.owner(ob) else p;
    assert s'.money == GiveTo(w, s.money, pl, w.waitcost * n) && s'.count == Add(s.count, pl, -n);
    if hits != [] {
      assert hits[0] in hits;
      assert w.owner(ob) == pl && w.owner(pl) == pl;
    } else {
      assert w.waitcost * n == 0;
    }
    var gone := Live(w, s, o) - Live(w, s', o);
    assert gone == if o == w.owner(ob) then n else 0;
    assert w.waitcost * gone == if o == w.owner(ob) then w.waitcost * n else 0;
  }

  lemma HitsOfOneObject(w: World, hits: seq<Entry>, p: Dbref, ob: Dbref, o: Dbref)
    requires w.Sound() && ob != NOTHING && forall e :: e in hits ==> Wanted(w, p, ob)(e)
    ensures Size(hits, LiveOf(w, o)) == if o == w.owner(ob) then |hits| else 0
  {
    if o == w.owner(ob) {
      AllTaken(hits, LiveOf(w, o));
    } else {
      NoneTaken(hits, LiveOf(w, o));
    }
  }

  lemma HaltEffect(w: World, s: State, p: Dbref, ob: Dbref, o: Dbref)
    requires w.Sound() && At(s.count, o) == Live(w, s, o)
    ensures var s' := HaltQue(w, s, p, ob);
      && At(s'.count, o) == Live(w, s', o) <= Live(w, s, o)
      && (Payer(w, o) ==> Worth(w, s', o) == Worth(w, s, o))
  {
    var s' := HaltQue(w, s, p, ob);
    if p == NOTHING && ob == NOTHING {
      HaltEverything(w, s, o);
    } else if ob == NOTHING {
      HaltOwner(w, s, p, o);
    } else {
      HaltObject(w, s, p, ob, o);
    }
    Distribute(w.waitcost, Live(w, s, o), Live(w, s', o));
  }

  // ---------------------------------------------------------------------
  // Queueing a command
  // ---------------------------------------------------------------------

  /** What `o` loses for good when `player` queues a command: the coin of the machine
      cost, or the whole charge of a runaway.  An exempt object of a paying owner
      loses a negative amount: its entry was free, but its refund is not. */
  ghost function WaitForfeit(w: World, s: State, player: Dbref, coin: bool, o: Dbref): int {
    if !s.interp || w.owner(player) != o then 0
    else match Judge(w, s, player, coin)
      case Accepted => (if w.exempt(player) then 0 else Charge(w, coin)) - w.waitcost
      case Runaway => if w.exempt(player) then 0 else Charge(w, coin)
      case _ => 0
  }

  lemma ChargedEffect(w: World, s: State, player: Dbref, coin: bool, o: Dbref)
    requires PayFor(w, s.money, player, Charge(w, coin)).Some?
    ensures var s1 := Charged(w, s, player, coin);
      && At(s1.count, o) == At(s.count, o) + (if w.owner(player) == o then 1 else 0)
      && Live(w, s1, o) == Live(w, s, o)
      && (Payer(w, o) ==>
            At(s1.money, o) + (if w.owner(player) == o && !w.exempt(player) then Charge(w, coin) else 0) == At(s.money, o))
  {
    hide Charge;
    SameLive(w, s, Charged(w, s, player, coin), o);
  }

  lemma SetupEffect(w: World, s: State, player: Dbref, coin: bool, o: Dbref)
    requires w.Sound() && At(s.count, o) == Live(w, s, o) && s.interp
    ensures var s' := Setup(w, s, player, coin);
      var entry := if Judge(w, s, player, coin) == Accepted && o == w.owner(player) then 1 else 0;
      && At(s'.count, o) == Live(w, s', o) + entry
      && (Live(w, s', o) <= Live(w, s, o))
      && (entry == 1 ==> Live(w, s', o) + 1 <= w.queueMax(o))
      && (Payer(w, o) ==> Worth(w, s', o) + w.waitcost * entry + WaitForfeit(w, s, player, coin, o) == Worth(w, s, o))
  {
    hide Take, HaltQue, Setup, Charged, PayFor, Charge;
    SetupCases(w, s, player, coin);
    match Judge(w, s, player, coin)
    case Accepted => ChargedEffect(w, s, player, coin, o);
    case Runaway =>
      ChargedEffect(w, s, player, coin, o);
      var s1 := Charged(w, s, player, coin);
      var p := w.owner(player);
      HaltOwner(w, s1, p, o);
      var s2 := HaltQue(w, s1, p, NOTHING);
      SameLive(w, s2, s2.(halted := s2.halted + {player}), o);
      Distribute(w.waitcost, Live(w, s, o), Live(w, s2, o));
    case _ =>
  }

  /** The entry an accepted command becomes adds one to every count it belongs to. */
  lemma TotalWaitQue(w: World, s: State, player: Dbref, cause: Dbref, wait: int, sem: Dbref, attr: int,
                     coin: bool, clock: int, f: Entry -> bool)
    requires Blind(f) && s.interp
    ensures var s1 := Setup(w, s, player, coin);
      var e := NewEntry(s1, player, cause, wait, sem, attr, clock);
      Total(WaitQue(w, s, player, cause, wait, sem, attr, coin, clock), f)
      == Total(s1, f) + if Judge(w, s, player, coin) == Accepted && f(e) then 1 else 0
  {
    hide Take, Enqueue, Setup, Judge, Blind;
    WaitCases(w, s, player, cause, wait, sem, attr, coin, clock);
    var s1 := Setup(w, s, player, coin);
    var e := NewEntry(s1, player, cause, wait, sem, attr, clock);
    var s2 := s1.(nextId := s1.nextId + 1);
    TotalEnqueue(w, s2, e, wait, f);
    assert Total(s2, f) == Total(s1, f);
  }

  lemma TotalEnqueue(w: World, s: State, e: Entry, wait: int, f: Entry -> bool)
    requires Blind(f)
    ensures Total(Enqueue(w, s, e, wait), f) == Total(s, f) + if f(e) then 1 else 0
  {
    hide Take, Insert, GiveQue, Enqueue, Blind;
    EnqueueFrame(w, s, e, wait);
    if e.sem != NOTHING {
      TakeSnoc(s.sq, e, f);
    } else if wait <= 0 {
      TotalGive(w, s, e, f);
    } else {
      InsertSize(s.wq, e, f);
    }
  }

  lemma WaitQueFrame(w: World, s: State, player: Dbref, cause: Dbref, wait: int, sem: Dbref, attr: int,
                     coin: bool, clock: int)
    requires s.interp
    ensures var s1 := Setup(w, s, player, coin);
      var s' := WaitQue(w, s, player, cause, wait, sem, attr, coin, clock);
      s'.money == s1.money && s'.count == s1.count
  {
    hide Setup, Judge, Enqueue;
    WaitCases(w, s, player, cause, wait, sem, attr, coin, clock);
    var s1 := Setup(w, s, player, coin);
    EnqueueFrame(w, s1.(nextId := s1.nextId + 1), NewEntry(s1, player, cause, wait, sem, attr, clock), wait);
  }

  lemma WaitQueEffect(w: World, s: State, player: Dbref, cause: Dbref, wait: int, sem: Dbref, attr: int,
                      coin: bool, clock: int, o: Dbref)
    requires w.Sound() && At(s.count, o) == Live(w, s, o) <= w.queueMax(o) && player >= 0
    ensures var s' := WaitQue(w, s, player, cause, wait, sem, attr, coin, clock);
      && At(s'.count, o) == Live(w, s', o) <= w.queueMax(o)
      && (Payer(w, o) ==> Worth(w, s', o) + WaitForfeit(w, s, player, coin, o) == Worth(w, s, o))
  {
    hide Setup, Judge, WaitQue, Take, Charge;
    WaitCases(w, s, player, cause, wait, sem, attr, coin, clock);
    if s.interp {
      var s1 := Setup(w, s, player, coin);
      var s' := WaitQue(w, s, player, cause, wait, sem, attr, coin, clock);
      SetupEffect(w, s, player, coin, o);
      TotalWaitQue(w, s, player, cause, wait, sem, attr, coin, clock, LiveOf(w, o));
      WaitQueFrame(w, s, player, cause, wait, sem, attr, coin, clock);
      var entry := if Judge(w, s, player, coin) == Accepted && o == w.owner(player) then 1 else 0;
      assert Live(w, s', o) == Live(w, s1, o) + entry;
      Distribute(w.waitcost, Live(w, s1, o), entry);
    }
  }

  // ---------------------------------------------------------------------
  // Draining a semaphore
  // ---------------------------------------------------------------------

  function ExemptOf(w: World, o: Dbref): Entry -> bool {
    (e: Entry) => e.player != NOTHING && w.owner(e.player) == o && w.exempt(e.player)
  }

  lemma {:induction false} RefundEffect(w: World, s: State, es: seq<Entry>, o: Dbref)
    requires w.Sound() && forall e :: e in es ==> e.player >= 0
    ensures var s' := Refund(w, s, es);
      && At(s'.count, o) == At(s.count, o) - Size(es, LiveOf(w, o))
      && (!w.exempt(o) ==> At(s'.money, o) + w.waitcost * Size(es, ExemptOf(w, o))
                           == At(s.money, o) + w.waitcost * Size(es, LiveOf(w, o)))
  {
    if es != [] {
      var n := |es| - 1;
      RefundEffect(w, s, es[..n], o);
      Distribute(w.waitcost, Size(es[..n], LiveOf(w, o)), 1);
      Distribute(w.waitcost, Size(es[..n], ExemptOf(w, o)), 1);
      assert es[n] in es;
      assert w.owner(es[n].player) == o ==> w.Free(es[n].player) == (w.exempt(es[n].player) || w.exempt(o));
    }
  }

  lemma {:induction false} GiveAllLedger(w: World, s: State, es: seq<Entry>)
    ensures GiveAll(w, s, es).money == s.money && GiveAll(w, s, es).count == s.count
  {
    if es != [] { GiveAllLedger(w, s, es[..|es| - 1]); }
  }

  /** Draining refunds every discarded entry, except that an exempt object gets nothing. */
  ghost function DrainForfeit(w: World, s: State, sem: Dbref, attr: int, key: NotifyKey, count: int, o: Dbref): int {
    if key == Drain then w.waitcost * Size(NotifyScan(s, sem, attr, key, count).0, ExemptOf(w, o)) else 0
  }

  lemma NotifySplits(w: World, s: State, sem: Dbref, attr: int, key: NotifyKey, count: int, o: Dbref)
    requires w.Sound() && Shape(w, s)
    ensures var r := NotifyScan(s, sem, attr, key, count);
      Live(w, s, o) == Live(w, s.(sq := r.1), o) + Size(r.0, LiveOf(w, o))
  {
    hide Take;
    var l := LiveOf(w, o);
    NotifyElements(s, sem, attr, key, count);
    ScanSizes(s.sq, Matches(sem, attr), key == Nfy, count, l);
    NoneTaken([], l);
  }

  /** A drain refunds what it takes off and changes nothing else but a counter. */
  lemma Refunded(w: World, s: State, sem: Dbref, attr: int, count: int, o: Dbref)
    requires w.Sound() && Shape(w, s)
    ensures var r := NotifyScan(s, sem, attr, Drain, count); var s' := NfyQue(w, s, sem, attr, Drain, count);
      && Live(w, s', o) == Live(w, s.(sq := r.1), o)
      && At(s'.count, o) == At(s.count, o) - Size(r.0, LiveOf(w, o))
      && (!w.exempt(o) ==> At(s'.money, o) + w.waitcost * Size(r.0, ExemptOf(w, o))
                           == At(s.money, o) + w.waitcost * Size(r.0, LiveOf(w, o)))
  {
    hide Take, NotifyScan, Refund;
    var r := NotifyScan(s, sem, attr, Drain, count);
    var s1 := s.(sq := r.1);
    NotifyElements(s, sem, attr, Drain, count);
    RefundEffect(w, s1, r.0, o);
    RefundQueues(w, s1, r.0);
    SameLive(w, s1, NfyQue(w, s, sem, attr, Drain, count), o);
  }

  lemma DrainEffect(w: World, s: State, sem: Dbref, attr: int, count: int, o: Dbref)
    requires w.Sound() && Shape(w, s) && At(s.count, o) == Live(w, s, o)
    ensures var s' := NfyQue(w, s, sem, attr, Drain, count);
      && At(s'.count, o) == Live(w, s', o) <= Live(w, s, o)
      && (Payer(w, o) ==> Worth(w, s', o) + DrainForfeit(w, s, sem, attr, Drain, count, o) == Worth(w, s, o))
  {
    hide Take, Scan, NotifyScan, Refund, Shape, NfyQue;
    var r := NotifyScan(s, sem, attr, Drain, count);
    var s1 := s.(sq := r.1);
    NotifyElements(s, sem, attr, Drain, count);
    NotifySplits(w, s, sem, attr, Drain, count, o);
    Refunded(w, s, sem, attr, count, o);
    Distribute(w.waitcost, Live(w, s1, o), Size(r.0, LiveOf(w, o)));
  }

  lemma NotifyEffect(w: World, s: State, sem: Dbref, attr: int, key: NotifyKey, count: int, o: Dbref)
    requires w.Sound() && Shape(w, s) && At(s.count, o) == Live(w, s, o)
    ensures var s' := NfyQue(w, s, sem, attr, key, count);
      && At(s'.count, o) == Live(w, s', o) <= Live(w, s, o)
      && (Payer(w, o) ==> Worth(w, s', o) + DrainForfeit(w, s, sem, attr, key, count, o) == Worth(w, s, o))
  {
    if key == Drain {
      DrainEffect(w, s, sem, attr, count, o);
    } else {
      var r := NotifyScan(s, sem, attr, key, count);
      var s1 := s.(sq := r.1);
      NotifySplits(w, s, sem, attr, key, count, o);
      hide Take, Scan;
      GiveAllLedger(w, s1, r.0);
      TotalGiveAll(w, s1, r.0, LiveOf(w, o));
      assert Live(w, NfyQue(w, s, sem, attr, key, count), o) == Live(w, s, o);
    }
  }

  /** What draining everything on a halted object takes from a paying owner. */
  ghost function DestroyForfeit(w: World, s: State, obj: Dbref, o: Dbref): int {
    DrainForfeit(w, HaltQue(w, s, NOTHING, obj), obj, 0, Drain, 0, o)
  }

  lemma DestroyEffect(w: World, s: State, obj: Dbref, o: Dbref)
    requires w.Sound() && Shape(w, s) && At(s.count, o) == Live(w, s, o)
    ensures var s' := Destroy(w, s, obj);
      && At(s'.count, o) == Live(w, s', o) <= Live(w, s, o)
      && (Payer(w, o) ==> Worth(w, s', o) + DestroyForfeit(w, s, obj, o) == Worth(w, s, o))
  {
    hide HaltQue, NfyQue, Shape, DrainForfeit, Total;
    var s1 := HaltQue(w, s, NOTHING, obj);
    HaltEffect(w, s, NOTHING, obj, o);
    ShapeHalt(w, s, NOTHING, obj);
    NotifyEffect(w, s1, obj, 0, Drain, 0, o);
    SameLive(w, NfyQue(w, s1, obj, 0, Drain, 0), Destroy(w, s, obj), o);
  }

  lemma SameLive(w: World, s: State, s': State, o: Dbref)
    requires s'.pq == s.pq && s'.oq == s.oq && s'.wq == s.wq && s'.sq == s.sq
    ensures Live(w, s', o) == Live(w, s, o)
  {
  }

  // ---------------------------------------------------------------------
  // One action
  // ---------------------------------------------------------------------

  ghost function Forfeit(w: World, s: State, a: Action, o: Dbref): int {
    match a
    case Queue(player, _, _, _, coin, _) => WaitForfeit(w, s, player, coin, o)
    case SemWait(player, _, _, _, _, coin, _) => WaitForfeit(w, s, player, coin, o)
    case Notify(sem, attr, key, count) => DrainForfeit(w, s, sem, attr, key, count, o)
    case Destroyed(obj) => DestroyForfeit(w, s, obj, o)
    case _ => 0
  }

  lemma {:induction false} TimeOutLedger(w: World, s: State, es: seq<Entry>)
    ensures TimeOut(w, s, es).money == s.money && TimeOut(w, s, es).count == s.count
  {
    if es != [] { TimeOutLedger(w, s, es[..|es| - 1]); }
  }

  lemma WaitingLedger(w: World, s: State)
    ensures ReleaseWaiting(w, s).money == s.money && ReleaseWaiting(w, s).count == s.count
  {
    hide GiveQue;
    if s.wq != [] && s.wq[0].waittime <= s.now { GiveFrame(w, s.(wq := s.wq[1..]), s.wq[0]); }
  }

  lemma SecondLedger(w: World, s: State)
    ensures DoSecond(w, s).money == s.money && DoSecond(w, s).count == s.count
  {
    hide GiveQue, TimeOut, Take;
    if s.dequeue {
      WaitingLedger(w, MergeObjectQueue(s));
      var s2 := ReleaseWaiting(w, MergeObjectQueue(s));
      TimeOutLedger(w, s2.(sq := Take(s2.sq, Not(Expired(s2.now)))), Take(s2.sq, Expired(s2.now)));
    }
  }

  lemma SameJudge(w: World, s: State, s': State, player: Dbref, coin: bool)
    requires s'.halted == s.halted && s'.money == s.money && s'.count == s.count
    ensures Judge(w, s', player, coin) == Judge(w, s, player, coin)
  {
  }

  lemma SemWaitEffect(w: World, s: State, a: Action, o: Dbref)
    requires w.Sound() && At(s.count, o) == Live(w, s, o) <= w.queueMax(o) && a.SemWait? && a.player >= 0
    ensures var s' := Do(w, s, a);
      && At(s'.count, o) == Live(w, s', o) <= w.queueMax(o)
      && (Payer(w, o) ==> Worth(w, s', o) + Forfeit(w, s, a, o) == Worth(w, s, o))
  {
    hide WaitQue, Judge, Take;
    var s1 := s.(sem := Add(s.sem, (a.thing, a.attr), 1));
    SameLive(w, s, s1, o);
    SameJudge(w, s, s1, a.player, a.coin);
    if At(s1.sem, (a.thing, a.attr)) <= 0 {
      WaitQueEffect(w, s1, a.player, a.cause, 0, NOTHING, a.attr, a.coin, a.clock, o);
    } else {
      WaitQueEffect(w, s1, a.player, a.cause, a.howlong, a.thing, a.attr, a.coin, a.clock, o);
    }
  }

  /** One action keeps counts equal to live entries, keeps them within the limit, and
      moves between balance and deposits everything that `Forfeit` does not name. */
  lemma AccountStep(w: World, s: State, a: Action, o: Dbref)
    requires w.Sound() && Shape(w, s) && Enabled(w, a) && At(s.count, o) == Live(w, s, o) <= w.queueMax(o)
    ensures var s' := Do(w, s, a);
      && At(s'.count, o) == Live(w, s', o) <= w.queueMax(o)
      && (Payer(w, o) ==> Worth(w, s', o) + Forfeit(w, s, a, o) == Worth(w, s, o))
  {
    match a
    case Queue(player, cause, wait, qattr, coin, clock) =>
      WaitQueEffect(w, s, player, cause, wait, NOTHING, qattr, coin, clock, o);
    case SemWait(_, _, _, _, _, _, _) => SemWaitEffect(w, s, a, o);
    case Notify(sem, attr, key, count) => NotifyEffect(w, s, sem, attr, key, count, o);
    case Halt(p, ob) => HaltEffect(w, s, p, ob, o);
    case Destroyed(obj) => DestroyEffect(w, s, obj, o);
    case Second =>
      TotalSecond(w, s, LiveOf(w, o));
      SecondLedger(w, s);
    case WarpTime(i) =>
      TotalWarp(w, s, i, LiveOf(w, o));
      SecondLedger(w, s.(wq := WarpWait(s.wq, i), sq := WarpSem(s.sq, i), dequeue := true));
    case Tick(t) => assert Live(w, Do(w, s, a), o) == Live(w, s, o);
    case SetFlags(h, i, d) => assert Live(w, Do(w, s, a), o) == Live(w, s, o);
  }
}
