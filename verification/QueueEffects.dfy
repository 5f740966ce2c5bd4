/** What the actions of the command queue do to each entry, told by the fields of the entry
    alone: who is halted, who falls due when, who is released, and who is refused. */
module QueueEffects {
  import opened Constants
  import opened QueueModel
  import opened QueueCounting
  import opened QueueLaws

  // ---------------------------------------------------------------------
  // Queues that lose some entries and keep the others in order
  // ---------------------------------------------------------------------

  /** `r` is `q` without the entries that are `gone`: `at` says from where each entry comes. */
  ghost predicate Keeps(q: seq<Entry>, r: seq<Entry>, at: seq<nat>, gone: Entry -> bool) {
    && |at| == |r|
    && (forall i, j :: 0 <= i < j < |at| ==> at[i] < at[j])
    && (forall i :: 0 <= i < |at| ==> at[i] < |q| && r[i] == q[at[i]])
    && (forall k :: 0 <= k < |q| ==> (k in at <==> !gone(q[k])))
  }

  ghost predicate Without(q: seq<Entry>, r: seq<Entry>, gone: Entry -> bool) {
    exists at :: Keeps(q, r, at, gone)
  }

  lemma {:induction false} TakeKeeps(q: seq<Entry>, f: Entry -> bool, gone: Entry -> bool) returns (at: seq<nat>)
    requires forall e :: f(e) <==> !gone(e)
    ensures Keeps(q, Take(q, f), at, gone)
  {
    if q == [] {
      at := [];
    } else {
      hide Keeps;
      var n := |q| - 1;
      at := TakeKeeps(q[..n], f, gone);
      KeepsSnoc(q[..n], Take(q[..n], f), at, gone, q[n]);
      assert q == q[..n] + [q[n]];
      if f(q[n]) { at := at + [n]; }
    }
  }

  lemma KeepsSnoc(q: seq<Entry>, r: seq<Entry>, at: seq<nat>, gone: Entry -> bool, e: Entry)
    requires Keeps(q, r, at, gone)
    ensures if gone(e) then Keeps(q + [e], r, at, gone) else Keeps(q + [e], r + [e], at + [|q|], gone)
  {
    var at' := if gone(e) then at else at + [|q|];
    assert forall k :: k in at ==> k < |q|;
    forall k | 0 <= k < |q| + 1 ensures k in at' <==> !gone((q + [e])[k]) {
      if k < |q| { assert (q + [e])[k] == q[k]; }
    }
  }

  lemma TakeWithout(q: seq<Entry>, f: Entry -> bool, gone: Entry -> bool)
    requires forall e :: f(e) <==> !gone(e)
    ensures Without(q, Take(q, f), gone)
  {
    var at := TakeKeeps(q, f, gone);
  }

  // ---------------------------------------------------------------------
  // Halting
  // ---------------------------------------------------------------------

  /** A halt of an owner, of one object, of both, or of everything. */
  function Hit(w: World, p: Dbref, ob: Dbref): Entry -> bool {
    (e: Entry) => (p == NOTHING || w.owner(e.player) == p) && (ob == NOTHING || e.player == ob)
  }

  /** On a run queue the entries that are hit are wiped where they stand. */
  ghost predicate Wiped(q: seq<Entry>, r: seq<Entry>, hit: Entry -> bool) {
    |r| == |q| && forall i :: 0 <= i < |q| ==> r[i] == if hit(q[i]) then q[i].(player := NOTHING) else q[i]
  }

  /** A halt hits exactly the entries of that owner and that object, on every queue. */
  lemma HaltHits(w: World, s: State, p: Dbref, ob: Dbref)
    ensures var s' := HaltQue(w, s, p, ob); var hit := Hit(w, p, ob);
      && Wiped(s.pq, s'.pq, hit) && Wiped(s.oq, s'.oq, hit)
      && Without(s.wq, s'.wq, hit) && Without(s.sq, s'.sq, hit)
  {
    hide Mark, Take, HaltQue, Without;
    HaltKeeps(w, s, p, ob);
    var f, hit := Wanted(w, p, ob), Hit(w, p, ob);
    assert forall e :: f(e) <==> hit(e);
    MarkIndex(s.pq, f);
    MarkIndex(s.oq, f);
    TakeWithout(s.wq, QueueModel.Not(f), hit);
    TakeWithout(s.sq, QueueModel.Not(f), hit);
  }

  /** So halting one object leaves every other object's entries alone, its owner's included. */
  lemma HaltSparesOthers(w: World, s: State, ob: Dbref, e: Entry)
    requires ob != NOTHING && e.player != ob
    ensures var s' := HaltQue(w, s, NOTHING, ob);
      && (e in s.wq ==> e in s'.wq) && (e in s.sq ==> e in s'.sq)
      && (e in s.pq ==> e in s'.pq) && (e in s.oq ==> e in s'.oq)
  {
    hide HaltQue;
    HaltHits(w, s, NOTHING, ob);
    var s' := HaltQue(w, s, NOTHING, ob);
    var hit := Hit(w, NOTHING, ob);
    if e in s.wq { StaysOn(s.wq, s'.wq, hit, e); }
    if e in s.sq { StaysOn(s.sq, s'.sq, hit, e); }
    if e in s.pq { StaysIn(s.pq, s'.pq, hit, e); }
    if e in s.oq { StaysIn(s.oq, s'.oq, hit, e); }
  }

  lemma StaysOn(q: seq<Entry>, r: seq<Entry>, gone: Entry -> bool, e: Entry)
    requires Without(q, r, gone) && e in q && !gone(e)
    ensures e in r
  {
    var at :| Keeps(q, r, at, gone);
    var k :| 0 <= k < |q| && q[k] == e;
    assert k in at;
    var i :| 0 <= i < |at| && at[i] == k;
    assert r[i] == e;
  }

  lemma StaysIn(q: seq<Entry>, r: seq<Entry>, hit: Entry -> bool, e: Entry)
    requires Wiped(q, r, hit) && e in q && !hit(e)
    ensures e in r
  {
    var k :| 0 <= k < |q| && q[k] == e;
    assert r[k] == e;
  }

  // ---------------------------------------------------------------------
  // Entries that start to run
  // ---------------------------------------------------------------------

  function ByPlayer(w: World): Entry -> bool {
    (e: Entry) => w.isPlayer(e.cause)
  }

  function Untimed(es: seq<Entry>): (r: seq<Entry>)
    ensures |r| == |es| && forall i :: 0 <= i < |es| ==> r[i] == es[i].(waittime := 0)
  {
    if es == [] then [] else Untimed(es[..|es| - 1]) + [es[|es| - 1].(waittime := 0)]
  }

  /** A player's commands go to the end of the player queue, the others to the end of the object
      queue, each in the order they come in. */
  ghost predicate Threaded(w: World, s: State, s': State, es: seq<Entry>) {
    && s'.pq == s.pq + Untimed(Take(es, ByPlayer(w)))
    && s'.oq == s.oq + Untimed(Take(es, QueueModel.Not(ByPlayer(w))))
  }

  lemma ThreadedOne(w: World, s: State, s1: State, s2: State, es: seq<Entry>, e: Entry)
    requires Threaded(w, s, s1, es) && s2.pq == GiveQue(w, s1, e).pq && s2.oq == GiveQue(w, s1, e).oq
    ensures Threaded(w, s, s2, es + [e])
  {
    hide Take, GiveQue;
    GiveFrame(w, s1, e);
    TakeSnoc(es, e, ByPlayer(w));
    TakeSnoc(es, e, QueueModel.Not(ByPlayer(w)));
    UntimedSnoc(Take(es, ByPlayer(w)), e);
    UntimedSnoc(Take(es, QueueModel.Not(ByPlayer(w))), e);
  }

  lemma UntimedSnoc(es: seq<Entry>, e: Entry)
    ensures Untimed(es + [e]) == Untimed(es) + [e.(waittime := 0)]
  {
  }

  lemma NoneThreaded(w: World, s: State, s': State)
    requires s'.pq == s.pq && s'.oq == s.oq
    ensures Threaded(w, s, s', [])
  {
    assert s.pq + [] == s.pq && s.oq + [] == s.oq;
  }

  lemma {:induction false} GiveAllThreads(w: World, s: State, es: seq<Entry>)
    ensures Threaded(w, s, GiveAll(w, s, es), es)
  {
    hide GiveQue, Threaded;
    if es == [] {
      NoneThreaded(w, s, s);
    } else {
      var n := |es| - 1;
      GiveAllThreads(w, s, es[..n]);
      ThreadedOne(w, s, GiveAll(w, s, es[..n]), GiveAll(w, s, es), es[..n], es[n]);
      assert es == es[..n] + [es[n]];
    }
  }

  /** Entries that no longer wait on anything. */
  function Loosed(es: seq<Entry>): (r: seq<Entry>)
    ensures |r| == |es| && forall i :: 0 <= i < |es| ==> r[i] == es[i].(sem := NOTHING)
  {
    if es == [] then [] else Loosed(es[..|es| - 1]) + [es[|es| - 1].(sem := NOTHING)]
  }

  lemma {:induction false} TimeOutThreads(w: World, s: State, es: seq<Entry>)
    ensures Threaded(w, s, TimeOut(w, s, es), Loosed(es))
  {
    hide GiveQue, Threaded;
    if es == [] {
      NoneThreaded(w, s, s);
    } else {
      var n := |es| - 1;
      TimeOutThreads(w, s, es[..n]);
      var s' := TimeOut(w, s, es[..n]);
      ThreadedSem(w, s, s', s'.(sem := Add(s'.sem, Target(es[n].sem, es[n].attr), -1)), Loosed(es[..n]));
      ThreadedOne(w, s, s'.(sem := Add(s'.sem, Target(es[n].sem, es[n].attr), -1)), TimeOut(w, s, es), Loosed(es[..n]),
                  es[n].(sem := NOTHING));
    }
  }

  lemma ThreadedSem(w: World, s: State, s1: State, s2: State, es: seq<Entry>)
    requires Threaded(w, s, s1, es) && s2.pq == s1.pq && s2.oq == s1.oq
    ensures Threaded(w, s, s2, es)
  {
  }

  // ---------------------------------------------------------------------
  // The once-a-second pass
  // ---------------------------------------------------------------------

  /** Has the time of a waiter on a semaphore come?  Without a timeout it never does. */
  function Overdue(now: int): Entry -> bool {
    (e: Entry) => e.waittime != 0 && e.waittime <= now
  }

  /** The first entry of the wait queue, if its time has come. */
  function First(s: State): seq<Entry> {
    if s.wq != [] && s.wq[0].waittime <= s.now then s.wq[..1] else []
  }

  /** While dequeuing is on, a pass runs the object queue behind the player queue, then at most
      the first entry of the wait queue, then the overdue waiters; every other waiter, timed or
      not, stays on its semaphore.  While it is off, nothing happens. */
  lemma SecondReleases(w: World, s: State)
    ensures var s' := DoSecond(w, s);
      if !s.dequeue then s' == s
      else
        && Without(s.sq, s'.sq, Overdue(s.now))
        && s'.wq == s.wq[|First(s)|..]
        && Threaded(w, s.(pq := s.pq + s.oq, oq := []), s', First(s) + Loosed(Take(s.sq, Overdue(s.now))))
  {
    if s.dequeue {
      hide TimeOut, Take, Threaded, ReleaseWaiting, Without, Loosed;
      var s1 := MergeObjectQueue(s);
      var s2 := ReleaseWaiting(w, s1);
      WaitingReleased(w, s1);
      var out := Take(s.sq, Overdue(s.now));
      var s3 := s2.(sq := Take(s.sq, QueueModel.Not(Expired(s.now))));
      SameTaken(s.sq, Expired(s.now), Overdue(s.now));
      TakeWithout(s.sq, QueueModel.Not(Expired(s.now)), Overdue(s.now));
      TimeOutFrame(w, s3, out);
      TimeOutThreads(w, s3, out);
      ThreadedSem(w, s1, s2, s3, First(s));
      ThreadedBoth(w, s1, s3, TimeOut(w, s3, out), First(s), Loosed(out));
    }
  }

  lemma WaitingReleased(w: World, s: State)
    ensures var r := ReleaseWaiting(w, s);
      && r == s.(pq := r.pq, oq := r.oq, wq := s.wq[|First(s)|..])
      && Threaded(w, s, r, First(s))
  {
    hide GiveQue, Threaded;
    if s.wq != [] && s.wq[0].waittime <= s.now {
      var s1 := s.(wq := s.wq[1..]);
      GiveFrame(w, s1, s.wq[0]);
      NoneThreaded(w, s, s1);
      ThreadedOne(w, s, s1, ReleaseWaiting(w, s), [], s.wq[0]);
      assert First(s) == [] + [s.wq[0]];
    } else {
      NoneThreaded(w, s, s);
    }
  }

  lemma ThreadedBoth(w: World, s: State, s1: State, s2: State, es: seq<Entry>, fs: seq<Entry>)
    requires Threaded(w, s, s1, es) && Threaded(w, s1, s2, fs)
    ensures Threaded(w, s, s2, es + fs)
  {
    hide Take, Untimed;
    TakeAppend(es, fs, ByPlayer(w));
    TakeAppend(es, fs, QueueModel.Not(ByPlayer(w)));
    UntimedBoth(Take(es, ByPlayer(w)), Take(fs, ByPlayer(w)));
    UntimedBoth(Take(es, QueueModel.Not(ByPlayer(w))), Take(fs, QueueModel.Not(ByPlayer(w))));
  }

  lemma UntimedBoth(a: seq<Entry>, b: seq<Entry>)
    ensures Untimed(a + b) == Untimed(a) + Untimed(b)
  {
  }

  /** So a waiter leaves its semaphore in a pass if and only if it has a timeout that has passed. */
  lemma WaiterStays(w: World, s: State, e: Entry)
    requires s.dequeue && e in s.sq
    ensures e in DoSecond(w, s).sq <==> e.waittime == 0 || e.waittime > s.now
  {
    hide DoSecond, Threaded;
    SecondReleases(w, s);
    var s' := DoSecond(w, s);
    if e.waittime == 0 || e.waittime > s.now {
      StaysOn(s.sq, s'.sq, Overdue(s.now), e);
    } else {
      WasThere(s.sq, s'.sq, Overdue(s.now), e);
    }
  }

  // ---------------------------------------------------------------------
  // Shifting the timers
  // ---------------------------------------------------------------------

  /** With `i` seconds less to wait, has the time of a waiter come?  A time already in the past has;
      one of zero, which says that there is no timeout, never comes. */
  function OverdueBy(now: int, i: int): Entry -> bool {
    (e: Entry) => e.waittime < 0 || (e.waittime > 0 && e.waittime - i <= now)
  }

  /** The entries that are not gone, in order, each with a timeout that is `i` seconds shorter. */
  ghost predicate Shortened(q: seq<Entry>, r: seq<Entry>, at: seq<nat>, gone: Entry -> bool, i: int) {
    && |at| == |r|
    && (forall a, b :: 0 <= a < b < |at| ==> at[a] < at[b])
    && (forall a :: 0 <= a < |at| ==>
          at[a] < |q| && r[a] == q[at[a]].(waittime := if q[at[a]].waittime == 0 then 0 else q[at[a]].waittime - i))
    && (forall k :: 0 <= k < |q| ==> (k in at <==> !gone(q[k])))
  }

  /** A shift by `i` makes the wait queue fall due at `-i`, and takes `i` seconds off every timeout on
      the semaphore queue; those that have come then leave in the pass that follows, and no others,
      whether dequeuing is on or off. */
  lemma WarpReleases(w: World, s: State, i: int)
    requires s.now >= 0
    ensures var s' := Warp(w, s, i);
      && s'.dequeue == s.dequeue
      && (exists at :: Shortened(s.sq, s'.sq, at, OverdueBy(s.now, i), i))
      && (|s'.wq| == if s.wq != [] && -i <= s.now then |s.wq| - 1 else |s.wq|)
      && (forall e :: e in s'.wq ==> e.waittime == -i)
  {
    hide DoSecond, Threaded, Without;
    var s1 := s.(wq := WarpWait(s.wq, i), sq := WarpSem(s.sq, i), dequeue := true);
    SecondReleases(w, s1);
    var s2 := DoSecond(w, s1);
    ShortenedSem(s.sq, s2.sq, s.now, i);
    assert forall e :: e in s2.wq ==> e in s1.wq;
  }

  lemma ShortenedSem(q: seq<Entry>, r: seq<Entry>, now: int, i: int)
    requires now >= 0 && Without(WarpSem(q, i), r, Overdue(now))
    ensures exists at :: Shortened(q, r, at, OverdueBy(now, i), i)
  {
    var m := WarpSem(q, i);
    var at :| Keeps(m, r, at, Overdue(now));
    forall k | 0 <= k < |q| ensures k in at <==> !OverdueBy(now, i)(q[k]) {
      assert m[k].waittime == WarpTimeout(q[k].waittime, i);
    }
    forall a | 0 <= a < |at| ensures at[a] < |q| && r[a] == q[at[a]].(waittime := if q[at[a]].waittime == 0 then 0 else q[at[a]].waittime - i) {
      assert at[a] in at;
      assert m[at[a]] == q[at[a]].(waittime := WarpTimeout(q[at[a]].waittime, i));
    }
    assert Shortened(q, r, at, OverdueBy(now, i), i);
  }

  lemma WasThere(q: seq<Entry>, r: seq<Entry>, gone: Entry -> bool, e: Entry)
    requires Without(q, r, gone)
    ensures e in r ==> e in q && !gone(e)
  {
    if e in r {
      var at :| Keeps(q, r, at, gone);
      var i :| 0 <= i < |r| && r[i] == e;
      assert at[i] in at;
    }
  }

  // ---------------------------------------------------------------------
  // Queueing
  // ---------------------------------------------------------------------

  /** The deposit, and the coin on top where both costs are set. */
  function Price(w: World, coin: bool): int {
    if coin && w.waitcost != 0 && w.machinecost != 0 then w.waitcost + 1 else w.waitcost
  }

  /** The owner has the money, or nothing is charged. */
  predicate Affords(w: World, s: State, player: Dbref, coin: bool) {
    w.exempt(player) || w.exempt(w.owner(player)) || At(s.money, w.owner(player)) >= Price(w, coin)
  }

  /** One more entry is within the owner's limit. */
  predicate WithinLimit(w: World, s: State, player: Dbref) {
    At(s.count, w.owner(player)) < w.queueMax(w.owner(player))
  }

  /** The price is taken, unless nothing is charged, and the count goes up. */
  ghost predicate Charges(w: World, s: State, s': State, player: Dbref, coin: bool) {
    var o := w.owner(player);
    && (forall x :: At(s'.count, x) == At(s.count, x) + if x == o then 1 else 0)
    && (forall x :: At(s'.money, x) == At(s.money, x) - if x == o && !w.exempt(player) && !w.exempt(o) then Price(w, coin) else 0)
  }

  /** The new entry `e` goes where its semaphore and its wait call for, and nothing else moves. */
  ghost predicate Placed(w: World, s: State, s': State, e: Entry, wait: int) {
    && s'.sq == (if e.sem != NOTHING then s.sq + [e] else s.sq)
    && (if e.sem == NOTHING && wait > 0 then exists j :: InOrder(s.wq, s'.wq, e, j) else s'.wq == s.wq)
    && Threaded(w, s, s', if e.sem == NOTHING && wait <= 0 then [e] else [])
  }

  /** Behind everything that is not later, in front of what is. */
  ghost predicate InOrder(q: seq<Entry>, r: seq<Entry>, e: Entry, j: int) {
    && 0 <= j <= |q| && r == q[..j] + [e] + q[j..]
    && (forall i :: 0 <= i < j ==> q[i].waittime <= e.waittime)
    && (j < |q| ==> e.waittime < q[j].waittime)
  }

  /** All entries of the owner are gone, and the object is halted. */
  ghost predicate RunAway(w: World, s: State, s': State, player: Dbref) {
    var hit := Hit(w, w.owner(player), NOTHING);
    && s'.halted == s.halted + {player}
    && Wiped(s.pq, s'.pq, hit) && Wiped(s.oq, s'.oq, hit) && Without(s.wq, s'.wq, hit) && Without(s.sq, s'.sq, hit)
  }

  /** A command is queued if and only if the server interprets commands, the object is not
      halted, the price can be paid, and its owner is within the limit.  It falls due `wait`
      seconds from now.  A refused one changes nothing, except that past the limit the object is
      halted, its owner's entries with it. */
  lemma QueueDecides(w: World, s: State, player: Dbref, cause: Dbref, wait: int, sem: Dbref, attr: int, coin: bool, clock: int)
    ensures var s' := WaitQue(w, s, player, cause, wait, sem, attr, coin, clock);
      var e := Entry(s.nextId, player, cause, if wait != 0 then clock + wait else 0, sem, attr);
      if s.interp && player !in s.halted && Affords(w, s, player, coin) then
        if WithinLimit(w, s, player) then
          Charges(w, s, s', player, coin) && Placed(w, s, s', e, wait) && s'.nextId == s.nextId + 1 && s'.sem == s.sem
        else s'.nextId == s.nextId && RunAway(w, s, s', player)
      else s' == s
  {
    hide Charges, Placed, RunAway, HaltQue, Charged, Enqueue, Setup, GiveQue;
    JudgeIs(w, s, player, coin);
    WaitCases(w, s, player, cause, wait, sem, attr, coin, clock);
    SetupCases(w, s, player, coin);
    if s.interp && Judge(w, s, player, coin) == Accepted {
      var s1 := Charged(w, s, player, coin);
      ChargedFrame(w, s, player, coin);
      ChargesPrice(w, s, player, coin);
      var s2 := s1.(nextId := s1.nextId + 1);
      var e := NewEntry(s1, player, cause, wait, sem, attr, clock);
      Places(w, s2, e, wait);
      EnqueueRest(w, s2, e, wait);
      SamePlaced(w, s, s2, Enqueue(w, s2, e, wait), e, wait);
      SameCharges(w, s, s1, Enqueue(w, s2, e, wait), player, coin);
    } else if s.interp && Judge(w, s, player, coin) == Runaway {
      var s1 := Charged(w, s, player, coin);
      ChargedFrame(w, s, player, coin);
      RunsAway(w, s, s1, player);
    }
  }

  lemma JudgeIs(w: World, s: State, player: Dbref, coin: bool)
    ensures Judge(w, s, player, coin) ==
            if player in s.halted then Halted
            else if !Affords(w, s, player, coin) then Poor
            else if WithinLimit(w, s, player) then Accepted
            else Runaway
    ensures PayFor(w, s.money, player, Charge(w, coin)).Some? <==> Affords(w, s, player, coin)
  {
  }

  lemma ChargesPrice(w: World, s: State, player: Dbref, coin: bool)
    requires PayFor(w, s.money, player, Charge(w, coin)).Some?
    ensures Charges(w, s, Charged(w, s, player, coin), player, coin)
  {
  }

  lemma Places(w: World, s: State, e: Entry, wait: int)
    ensures Placed(w, s, Enqueue(w, s, e, wait), e, wait)
  {
    hide Insert, GiveQue, Threaded, Enqueue, InOrder;
    EnqueueFrame(w, s, e, wait);
    var r := Enqueue(w, s, e, wait);
    if e.sem == NOTHING && wait <= 0 {
      NoneThreaded(w, s, s);
      ThreadedOne(w, s, s, r, [], e);
      assert [] + [e] == [e];
      GiveFrame(w, s, e);
    } else {
      NoneThreaded(w, s, r);
      if e.sem == NOTHING {
        PlaceInOrder(s.wq, e);
        assert InOrder(s.wq, r.wq, e, Place(s.wq, e));
      }
    }
  }

  lemma PlaceInOrder(q: seq<Entry>, e: Entry)
    ensures InOrder(q, Insert(q, e), e, Place(q, e))
  {
    hide Insert, Place;
    InsertPlace(q, e);
  }

  lemma EnqueueRest(w: World, s: State, e: Entry, wait: int)
    ensures var r := Enqueue(w, s, e, wait); r == s.(pq := r.pq, oq := r.oq, wq := r.wq, sq := r.sq)
  {
    hide Enqueue;
    EnqueueFrame(w, s, e, wait);
  }

  lemma SamePlaced(w: World, s: State, s1: State, s2: State, e: Entry, wait: int)
    requires Placed(w, s1, s2, e, wait) && s1.pq == s.pq && s1.oq == s.oq && s1.wq == s.wq && s1.sq == s.sq
    ensures Placed(w, s, s2, e, wait)
  {
    hide InOrder;
  }

  lemma SameCharges(w: World, s: State, s1: State, s2: State, player: Dbref, coin: bool)
    requires Charges(w, s, s1, player, coin) && s2.money == s1.money && s2.count == s1.count
    ensures Charges(w, s, s2, player, coin)
  {
  }

  lemma RunsAway(w: World, s: State, s1: State, player: Dbref)
    requires s1 == s.(money := s1.money, count := s1.count)
    ensures var s2 := HaltQue(w, s1, w.owner(player), NOTHING);
      s2.nextId == s.nextId && RunAway(w, s, s2.(halted := s2.halted + {player}), player)
  {
    hide HaltQue, Wiped, Without;
    HaltHits(w, s1, w.owner(player), NOTHING);
    HaltKeeps(w, s1, w.owner(player), NOTHING);
  }

  /** A wait on a semaphore counts first.  With a counter that was not negative the command waits
      on the semaphore, and falls due after `howlong` seconds, or never if that is zero; under a
      negative counter, which says that somebody notified before, it runs at once. */
  lemma SemWaitDecides(w: World, s: State, player: Dbref, cause: Dbref, thing: Dbref, attr: int, howlong: int, coin: bool, clock: int)
    requires thing != NOTHING
    ensures var s' := Do(w, s, SemWait(player, cause, thing, attr, howlong, coin, clock));
      var waits := At(s.sem, (thing, attr)) >= 0;
      var s1 := s.(sem := s.sem[(thing, attr) := At(s.sem, (thing, attr)) + 1]);
      var e := Entry(s.nextId, player, cause, if waits && howlong != 0 then clock + howlong else 0, if waits then thing else NOTHING, attr);
      if s.interp && player !in s.halted && Affords(w, s, player, coin) then
        if WithinLimit(w, s, player) then
          && Charges(w, s, s', player, coin) && Placed(w, s, s', e, if waits then howlong else 0)
          && s'.nextId == s.nextId + 1 && s'.sem == s1.sem
        else s'.nextId == s.nextId && RunAway(w, s1, s', player)
      else s' == s1
  {
    hide Do, WaitQue, Placed, Charges, RunAway, Affords, WithinLimit;
    var waits := At(s.sem, (thing, attr)) >= 0;
    var s1 := s.(sem := s.sem[(thing, attr) := At(s.sem, (thing, attr)) + 1]);
    var wait, on := if waits then howlong else 0, if waits then thing else NOTHING;
    var s' := Do(w, s, SemWait(player, cause, thing, attr, howlong, coin, clock));
    DoWaitIs(w, s, player, cause, thing, attr, howlong, coin, clock);
    QueueDecides(w, s1, player, cause, wait, on, attr, coin, clock);
    SameDecision(w, s, s1, s', player, coin);
    var e := Entry(s.nextId, player, cause, if wait != 0 then clock + wait else 0, on, attr);
    if Placed(w, s1, s', e, wait) { SamePlaced(w, s, s1, s', e, wait); }
  }

  lemma DoWaitIs(w: World, s: State, player: Dbref, cause: Dbref, thing: Dbref, attr: int, howlong: int, coin: bool, clock: int)
    ensures var s1 := s.(sem := s.sem[(thing, attr) := At(s.sem, (thing, attr)) + 1]);
      Do(w, s, SemWait(player, cause, thing, attr, howlong, coin, clock))
      == if At(s.sem, (thing, attr)) >= 0 then WaitQue(w, s1, player, cause, howlong, thing, attr, coin, clock)
         else WaitQue(w, s1, player, cause, 0, NOTHING, attr, coin, clock)
  {
    hide WaitQue;
  }

  lemma SameDecision(w: World, s: State, s1: State, s2: State, player: Dbref, coin: bool)
    requires s1 == s.(sem := s1.sem)
    ensures Affords(w, s1, player, coin) == Affords(w, s, player, coin) && WithinLimit(w, s1, player) == WithinLimit(w, s, player)
    ensures Charges(w, s1, s2, player, coin) == Charges(w, s, s2, player, coin)
  {
  }

  lemma ThreadedSame(w: World, s: State, s1: State, s2: State, es: seq<Entry>)
    requires s1.pq == s.pq && s1.oq == s.oq
    ensures Threaded(w, s1, s2, es) <==> Threaded(w, s, s2, es)
  {
  }

  // ---------------------------------------------------------------------
  // Notifying
  // ---------------------------------------------------------------------

  function Waiter(sem: Dbref, attr: int): Entry -> bool {
    (e: Entry) => e.sem == sem && e.attr == attr
  }

  /** The waiters a notification finds: none under a counter that is not positive, the oldest
      `count` of them for a limited one, all of them otherwise. */
  ghost function Found(s: State, sem: Dbref, attr: int, key: NotifyKey, count: int): seq<Entry> {
    var all := Take(s.sq, Waiter(sem, attr));
    if At(s.sem, (sem, attr)) <= 0 then [] else if key == Nfy && 0 <= count < |all| then all[..count] else all
  }

  /** A refund for one entry. */
  function Owed(w: World, o: Dbref): Entry -> bool {
    (e: Entry) => w.owner(e.player) == o && !w.exempt(e.player) && !w.exempt(o)
  }

  /** The entries are off the queues for good: every owner has a smaller count and its deposits back. */
  ghost predicate Discarded(w: World, s: State, s': State, es: seq<Entry>) {
    && s'.pq == s.pq && s'.oq == s.oq
    && (forall o :: At(s'.count, o) == At(s.count, o) - Size(es, OwnedBy(w, o)))
    && (forall o :: At(s'.money, o) == At(s.money, o) + w.waitcost * Size(es, Owed(w, o)))
  }

  /** The oldest waiters leave and nobody else does, in order: those found in the first `j` entries. */
  ghost predicate LeaveFirst(q: seq<Entry>, r: seq<Entry>, out: seq<Entry>, hit: Entry -> bool, j: nat) {
    j <= |q| && out == Take(q[..j], hit) && r == Take(q[..j], QueueModel.Not(hit)) + q[j..]
  }

  /** Notifying runs the waiters it finds, draining discards them; the counter falls by the number
      asked for, or to zero, and no other counter moves. */
  lemma NotifyReleases(w: World, s: State, sem: Dbref, attr: int, key: NotifyKey, count: int)
    requires attr != 0 && (key == Nfy ==> count > 0)
    ensures var s' := NfyQue(w, s, sem, attr, key, count); var out := Found(s, sem, attr, key, count);
      && (exists j :: LeaveFirst(s.sq, s'.sq, out, Waiter(sem, attr), j))
      && s'.wq == s.wq && s'.halted == s.halted && s'.nextId == s.nextId
      && (if key == Drain then Discarded(w, s, s', out)
          else Threaded(w, s, s', out) && s'.money == s.money && s'.count == s.count)
      && (forall k :: At(s'.sem, k) == if k != (sem, attr) then At(s.sem, k) else if key == Nfy then At(s.sem, k) - count else 0)
  {
    hide GiveAll, Refund, Take, NotifyScan, Found, Threaded, Discarded, LeaveFirst;
    var r := NotifyScan(s, sem, attr, key, count);
    ScanFinds(s, sem, attr, key, count);
    if key == Drain {
      RefundQueues(w, s.(sq := r.1), r.0);
      Refunds(w, s.(sq := r.1), r.0);
      SameDiscarded(w, s, s.(sq := r.1), Refund(w, s.(sq := r.1), r.0), NfyQue(w, s, sem, attr, key, count), r.0);
    } else {
      GiveAllFrame(w, s.(sq := r.1), r.0);
      GiveAllThreads(w, s.(sq := r.1), r.0);
      ThreadedSame(w, s, s.(sq := r.1), GiveAll(w, s.(sq := r.1), r.0), r.0);
      ThreadedSem(w, s, GiveAll(w, s.(sq := r.1), r.0), NfyQue(w, s, sem, attr, key, count), r.0);
    }
  }

  lemma ScanFinds(s: State, sem: Dbref, attr: int, key: NotifyKey, count: int)
    requires attr != 0 && (key == Nfy ==> count > 0)
    ensures var r := NotifyScan(s, sem, attr, key, count);
      r.0 == Found(s, sem, attr, key, count) && exists j :: LeaveFirst(s.sq, r.1, r.0, Waiter(sem, attr), j)
  {
    hide Take, Scan, Looked;
    var hit, waiter := Matches(sem, attr), Waiter(sem, attr);
    var r := NotifyScan(s, sem, attr, key, count);
    var j := 0;
    if At(s.sem, (sem, attr)) > 0 {
      ScanTakesOldest(s.sq, hit, key == Nfy, count);
      ScanSplits(s.sq, hit, key == Nfy, count);
      j := Looked(s.sq, hit, key == Nfy, count);
      SameTaken(s.sq, hit, waiter);
      SameTaken(s.sq[..j], hit, waiter);
      SameTaken(s.sq[..j], QueueModel.Not(hit), QueueModel.Not(waiter));
    } else {
      NoneTaken([], waiter);
      NoneTaken([], QueueModel.Not(waiter));
      assert s.sq[..0] == [] && [] + s.sq[0..] == s.sq;
    }
    assert LeaveFirst(s.sq, r.1, r.0, waiter, j);
  }

  lemma {:induction false} Refunds(w: World, s: State, es: seq<Entry>)
    ensures Discarded(w, s, Refund(w, s, es), es)
  {
    if es == [] {
    } else {
      hide Discarded, Refund;
      var n := |es| - 1;
      Refunds(w, s, es[..n]);
      RefundsOne(w, s, Refund(w, s, es[..n]), es[..n], es[n]);
      assert es == es[..n] + [es[n]];
      RefundLast(w, s, es);
    }
  }

  lemma RefundLast(w: World, s: State, es: seq<Entry>)
    requires es != []
    ensures var n := |es| - 1; var s' := Refund(w, s, es[..n]);
      Refund(w, s, es) == s'.(money := GiveTo(w, s'.money, es[n].player, w.waitcost), count := Add(s'.count, w.owner(es[n].player), -1))
  {
  }

  lemma RefundsOne(w: World, s: State, s': State, es: seq<Entry>, e: Entry)
    requires Discarded(w, s, s', es)
    ensures Discarded(w, s, s'.(money := GiveTo(w, s'.money, e.player, w.waitcost), count := Add(s'.count, w.owner(e.player), -1)), es + [e])
  {
    hide Take;
    forall o
      ensures Size(es + [e], OwnedBy(w, o)) == Size(es, OwnedBy(w, o)) + if w.owner(e.player) == o then 1 else 0
      ensures w.waitcost * Size(es + [e], Owed(w, o)) == w.waitcost * Size(es, Owed(w, o)) + if Owed(w, o)(e) then w.waitcost else 0
    {
      SizeSnoc(es, e, OwnedBy(w, o));
      SizeSnoc(es, e, Owed(w, o));
      OneMore(w.waitcost, Size(es, Owed(w, o)));
    }
  }

  lemma OneMore(c: int, n: int)
    ensures c * (n + 1) == c * n + c
  {
  }

  lemma SameDiscarded(w: World, s: State, s1: State, s2: State, s3: State, es: seq<Entry>)
    requires Discarded(w, s1, s2, es)
    requires s1.pq == s.pq && s1.oq == s.oq && s1.count == s.count && s1.money == s.money
    requires s3.pq == s2.pq && s3.oq == s2.oq && s3.count == s2.count && s3.money == s2.money
    ensures Discarded(w, s, s3, es)
  {
  }

  // ---------------------------------------------------------------------
  // Running the head of the player queue
  // ---------------------------------------------------------------------

  /** The head is wiped, its deposit goes back and its owner has one entry less. */
  ghost predicate Begun(w: World, s: State, s1: State) {
    s.pq != []
    && var e := s.pq[0]; var o := w.owner(e.player);
    && s1 == s.(pq := [e.(player := NOTHING)] + s.pq[1..], money := s1.money, count := s1.count)
    && (forall x :: At(s1.count, x) == At(s.count, x) - if x == o then 1 else 0)
    && (forall x :: At(s1.money, x) == At(s.money, x) + if x == o && !w.exempt(e.player) && !w.exempt(o) then w.waitcost else 0)
  }

  /** A head that was halted, or whose object is going away, is dropped.  Otherwise its commands run,
      unless the object has been set to halt, and then it is dropped. */
  lemma HeadRuns(w: World, s: State, cmds: seq<Action>)
    requires s.pq != []
    ensures var e := s.pq[0]; var s' := DoTop(w, s, cmds); var s1 := TopBegin(w, s);
      if e.player < 0 || w.going(e.player) then s' == s.(pq := s.pq[1..])
      else
        && Begun(w, s, s1)
        && (e.player in s.halted ==> s' == s1.(pq := s.pq[1..]))
        && (e.player !in s.halted ==> s' == TopEnd(DoAll(w, s1, cmds)))
  {
    hide DoAll;
    var e := s.pq[0];
    assert s.pq[0 := e.(player := NOTHING)] == [e.(player := NOTHING)] + s.pq[1..];
  }
}
