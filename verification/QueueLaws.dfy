/** What the command queue keeps in every reachable state. */
module QueueLaws {
  import opened Constants
  import opened QueueModel
  import opened QueueCounting

  // ---------------------------------------------------------------------
  // Shape
  // ---------------------------------------------------------------------

  ghost predicate RunQueue(w: World, q: seq<Entry>) {
    forall e :: e in q ==> e.waittime == 0 && (e.player == NOTHING || Runnable(w, e))
  }

  ghost predicate Sorted(q: seq<Entry>) {
    forall i, j :: 0 <= i < j < |q| ==> q[i].waittime <= q[j].waittime
  }

  /** Only the run queues hold wiped entries, the object queue holds no player's
      command, the wait queue is sorted, and semaphore entries name a semaphore. */
  ghost predicate Shape(w: World, s: State) {
    && RunQueue(w, s.pq)
    && RunQueue(w, s.oq) && (forall e :: e in s.oq ==> !w.isPlayer(e.cause))
    && (forall e :: e in s.wq ==> Runnable(w, e)) && Sorted(s.wq)
    && (forall e :: e in s.sq ==> Runnable(w, e) && e.sem != NOTHING && e.attr != 0)
  }

  function HasId(n: nat): Entry -> bool {
    (e: Entry) => e.id == n
  }

  /** Every block is on exactly one queue, once, and its identity is an old one. */
  ghost predicate OnOneQueue(s: State) {
    forall n: nat :: Total(s, HasId(n)) <= if n < s.nextId then 1 else 0
  }

  lemma {:induction false} ShapeGiveAll(w: World, s: State, es: seq<Entry>)
    requires Shape(w, s) && forall e :: e in es ==> Runnable(w, e)
    ensures Shape(w, GiveAll(w, s, es))
  {
    if es != [] { ShapeGiveAll(w, s, es[..|es| - 1]); }
  }

  lemma {:induction false} ShapeTimeOut(w: World, s: State, es: seq<Entry>)
    requires Shape(w, s) && forall e :: e in es ==> Runnable(w, e)
    ensures Shape(w, TimeOut(w, s, es))
  {
    if es != [] { ShapeTimeOut(w, s, es[..|es| - 1]); }
  }

  /** Filtering moves entries forward only. */
  lemma {:induction false} TakeIndex(q: seq<Entry>, f: Entry -> bool, i: nat) returns (j: nat)
    requires i < |Take(q, f)|
    ensures i <= j < |q| && q[j] == Take(q, f)[i]
  {
    var n := |q| - 1;
    if i < |Take(q[..n], f)| {
      j := TakeIndex(q[..n], f, i);
    } else {
      j := n;
      TakeLength(q[..n], f);
    }
  }

  lemma {:induction false} TakeLength(q: seq<Entry>, f: Entry -> bool)
    ensures |Take(q, f)| <= |q|
  {
    if q != [] { TakeLength(q[..|q| - 1], f); }
  }

  lemma {:induction false} TakeSorted(q: seq<Entry>, f: Entry -> bool)
    requires Sorted(q)
    ensures Sorted(Take(q, f))
  {
    if q != [] {
      var n := |q| - 1;
      var rest := Take(q[..n], f);
      TakeSorted(q[..n], f);
      forall i | 0 <= i < |rest| ensures rest[i].waittime <= q[n].waittime {
        var j := TakeIndex(q[..n], f, i);
      }
    }
  }

  lemma {:induction false} InsertElements(q: seq<Entry>, e: Entry)
    ensures forall x :: x in Insert(q, e) <==> x == e || x in q
  {
    if !(q == [] || q[0].waittime > e.waittime) {
      InsertElements(q[1..], e);
      assert q == [q[0]] + q[1..];
    }
  }

  lemma {:induction false} InsertSorted(q: seq<Entry>, e: Entry)
    requires Sorted(q)
    ensures Sorted(Insert(q, e))
  {
    if !(q == [] || q[0].waittime > e.waittime) {
      InsertSorted(q[1..], e);
      InsertElements(q[1..], e);
      var r := Insert(q[1..], e);
      forall x | x in r ensures q[0].waittime <= x.waittime {}
      assert Sorted([q[0]] + r);
    }
  }

  ghost function Place(q: seq<Entry>, e: Entry): (j: nat)
    ensures j <= |q|
  {
    if q == [] || q[0].waittime > e.waittime then 0 else 1 + Place(q[1..], e)
  }

  /** The insertion point: behind everything that is not later, in front of what is. */
  lemma {:induction false} InsertPlace(q: seq<Entry>, e: Entry)
    ensures var j := Place(q, e);
      && Insert(q, e) == q[..j] + [e] + q[j..]
      && (forall i :: 0 <= i < j ==> q[i].waittime <= e.waittime)
      && (j < |q| ==> q[j].waittime > e.waittime)
  {
    if q == [] || q[0].waittime > e.waittime {
      assert q[..0] + [e] + q[0..] == [e] + q;
    } else {
      InsertPlace(q[1..], e);
      Slid(q, e, Place(q, e));
      hide Insert;
      assert forall i :: 0 < i < Place(q, e) ==> q[i] == q[1..][i - 1];
    }
  }

  lemma Slid(q: seq<Entry>, e: Entry, j: nat)
    requires 0 < j <= |q|
    ensures [q[0]] + (q[1..][..j - 1] + [e] + q[1..][j - 1..]) == q[..j] + [e] + q[j..]
  {
    assert q[..j] == [q[0]] + q[1..][..j - 1];
    assert q[j..] == q[1..][j - 1..];
  }

  // ---------------------------------------------------------------------
  // The refund loop of a full halt
  // ---------------------------------------------------------------------

  lemma {:induction false} PayBackQueues(w: World, s: State, hits: seq<Entry>, i: nat)
    ensures var r := PayBack(w, s, hits, i); r == s.(money := r.money, count := r.count)
  {
    if i > 0 { PayBackQueues(w, s, hits, i - 1); }
  }

  lemma SomeOwned(hits: seq<Entry>, w: World, o: Dbref)
    requires Size(hits, OwnedBy(w, o)) != 0
    ensures exists e :: e in hits && w.owner(e.player) == o
  {
    var e := Take(hits, OwnedBy(w, o))[0];
    TakeIn(hits, OwnedBy(w, o), e);
  }

  lemma {:induction false} PayBackAmounts(w: World, s: State, hits: seq<Entry>, i: nat, o: Dbref)
    requires w.Sound()
    ensures var r := PayBack(w, s, hits, i); var tally := Size(hits, OwnedBy(w, o));
      if 0 <= o < i && tally != 0 then
        At(r.count, o) == 0 && At(r.money, o) == At(s.money, o) + if w.exempt(o) then 0 else w.waitcost * tally
      else At(r.count, o) == At(s.count, o) && At(r.money, o) == At(s.money, o)
  {
    if i > 0 {
      PayBackAmounts(w, s, hits, i - 1, o);
      var tally := Size(hits, OwnedBy(w, i - 1));
      if tally != 0 {
        SomeOwned(hits, w, i - 1);
        assert w.owner(i - 1) == i - 1;
      }
    }
  }

  lemma ShapeSame(w: World, s: State, s': State)
    requires Shape(w, s) && s'.pq == s.pq && s'.oq == s.oq && s'.wq == s.wq && s'.sq == s.sq
    ensures Shape(w, s')
  {
  }

  lemma ShapeSweep(w: World, s: State, p: Dbref, ob: Dbref)
    requires Shape(w, s)
    ensures Shape(w, Sweep(w, s, p, ob))
  {
    hide Mark, Take, Release;
    var f := Wanted(w, p, ob);
    MarkIndex(s.pq, f);
    MarkIndex(s.oq, f);
    TakeSubset(s.wq, Not(f));
    TakeSorted(s.wq, Not(f));
    TakeSubset(s.sq, Not(f));
  }

  /** The refunds leave the queues and counters as the four passes left them. */
  lemma HaltKeeps(w: World, s: State, p: Dbref, ob: Dbref)
    ensures var r := HaltQue(w, s, p, ob); r == Sweep(w, s, p, ob).(money := r.money, count := r.count)
  {
    hide Sweep, PayBack, GiveTo, Take;
    var f := Wanted(w, p, ob);
    if p == NOTHING && ob == NOTHING {
      PayBackQueues(w, Sweep(w, s, p, ob), Take(s.pq, f) + Take(s.oq, f) + Take(s.wq, f) + Take(s.sq, f), w.dbTop);
    } else if ob == NOTHING {} else {}
  }

  lemma ShapeHalt(w: World, s: State, p: Dbref, ob: Dbref)
    requires Shape(w, s)
    ensures Shape(w, HaltQue(w, s, p, ob))
  {
    hide Mark, Take, Release, PayBack, GiveTo, Shape, HaltQue;
    ShapeSweep(w, s, p, ob);
    HaltKeeps(w, s, p, ob);
    ShapeSame(w, Sweep(w, s, p, ob), HaltQue(w, s, p, ob));
  }

  lemma ShapeCharged(w: World, s: State, player: Dbref, coin: bool)
    requires Shape(w, s) && PayFor(w, s.money, player, Charge(w, coin)).Some?
    ensures Shape(w, Charged(w, s, player, coin))
  {
    hide Shape, PayFor;
    ShapeSame(w, s, Charged(w, s, player, coin));
  }

  lemma ShapeSetup(w: World, s: State, player: Dbref, coin: bool)
    requires Shape(w, s)
    ensures Shape(w, Setup(w, s, player, coin))
  {
    hide HaltQue, Charged, Shape, Setup;
    SetupCases(w, s, player, coin);
    if Judge(w, s, player, coin) == Runaway {
      ShapeCharged(w, s, player, coin);
      var s1 := Charged(w, s, player, coin);
      ShapeHalt(w, s1, w.owner(player), NOTHING);
      var s2 := HaltQue(w, s1, w.owner(player), NOTHING);
      ShapeSame(w, s2, s2.(halted := s2.halted + {player}));
    } else if Judge(w, s, player, coin) == Accepted {
      ShapeCharged(w, s, player, coin);
    }
  }

  lemma ShapeGive(w: World, s: State, e: Entry)
    requires Shape(w, s) && Runnable(w, e)
    ensures Shape(w, GiveQue(w, s, e))
  {
    hide GiveQue;
    GiveFrame(w, s, e);
  }

  lemma ShapeInsert(w: World, s: State, e: Entry)
    requires Shape(w, s) && Runnable(w, e)
    ensures Shape(w, s.(wq := Insert(s.wq, e)))
  {
    InsertElements(s.wq, e);
    InsertSorted(s.wq, e);
  }

  lemma ShapeEnqueue(w: World, s: State, e: Entry, wait: int)
    requires Shape(w, s) && Runnable(w, e) && (e.sem != NOTHING ==> e.attr != 0)
    ensures Shape(w, Enqueue(w, s, e, wait))
  {
    hide Enqueue, GiveQue, Insert;
    EnqueueFrame(w, s, e, wait);
    if e.sem != NOTHING {
    } else if wait <= 0 {
      ShapeGive(w, s, e);
    } else {
      ShapeInsert(w, s, e);
      ShapeSame(w, s.(wq := Insert(s.wq, e)), Enqueue(w, s, e, wait));
    }
  }

  lemma ShapeWaitQue(w: World, s: State, player: Dbref, cause: Dbref, wait: int, sem: Dbref, attr: int,
                     coin: bool, clock: int)
    requires Shape(w, s) && player >= 0 && !w.going(player) && (sem != NOTHING ==> attr != 0)
    ensures Shape(w, WaitQue(w, s, player, cause, wait, sem, attr, coin, clock))
  {
    hide Setup, Judge, Enqueue, Shape;
    WaitCases(w, s, player, cause, wait, sem, attr, coin, clock);
    if s.interp {
      ShapeSetup(w, s, player, coin);
      var s1 := Setup(w, s, player, coin);
      var e := NewEntry(s1, player, cause, wait, sem, attr, clock);
      var s2 := s1.(nextId := s1.nextId + 1);
      ShapeSame(w, s1, s2);
      ShapeEnqueue(w, s2, e, wait);
    }
  }

  lemma ShapeReleaseWaiting(w: World, s: State)
    requires Shape(w, s)
    ensures Shape(w, ReleaseWaiting(w, s))
  {
    if s.wq != [] && s.wq[0].waittime <= s.now {
      assert forall e :: e in s.wq[1..] ==> e in s.wq;
      ShapeGive(w, s.(wq := s.wq[1..]), s.wq[0]);
    }
  }

  lemma ShapeSecond(w: World, s: State)
    requires Shape(w, s)
    ensures Shape(w, DoSecond(w, s))
  {
    if s.dequeue {
      assert Shape(w, MergeObjectQueue(s));
      ShapeReleaseWaiting(w, MergeObjectQueue(s));
      var s2 := ReleaseWaiting(w, MergeObjectQueue(s));
      TakeSubset(s2.sq, Expired(s2.now));
      TakeSubset(s2.sq, Not(Expired(s2.now)));
      ShapeTimeOut(w, s2.(sq := Take(s2.sq, Not(Expired(s2.now)))), Take(s2.sq, Expired(s2.now)));
    }
  }

  lemma ShapeWarp(w: World, s: State, i: int)
    requires Shape(w, s)
    ensures Shape(w, Warp(w, s, i))
  {
    var s1 := s.(wq := WarpWait(s.wq, i), sq := WarpSem(s.sq, i), dequeue := true);
    assert forall j :: 0 <= j < |s.wq| ==> s.wq[j] in s.wq && s1.wq[j] == Retimed(s.wq[j], -i, s.wq[j].sem);
    assert forall j :: 0 <= j < |s.sq| ==> s.sq[j] in s.sq && s1.sq[j] == Retimed(s.sq[j], s1.sq[j].waittime, s.sq[j].sem);
    ShapeSecond(w, s1);
  }

  lemma {:induction false} RefundQueues(w: World, s: State, es: seq<Entry>)
    ensures var r := Refund(w, s, es); r == s.(money := r.money, count := r.count)
  {
    if es != [] { RefundQueues(w, s, es[..|es| - 1]); }
  }

  lemma NotifyElements(s: State, sem: Dbref, attr: int, key: NotifyKey, count: int)
    ensures var r := NotifyScan(s, sem, attr, key, count);
      && (forall e :: e in r.0 ==> e in s.sq && Matches(sem, attr)(e))
      && (forall e :: e in r.1 ==> e in s.sq)
  {
    if attr == 0 || At(s.sem, (sem, attr)) > 0 {
      var hit := Matches(sem, attr);
      ScanSplits(s.sq, hit, key == Nfy, count);
      var j := Looked(s.sq, hit, key == Nfy, count);
      TakeSubset(s.sq[..j], hit);
      TakeSubset(s.sq[..j], Not(hit));
    }
  }

  lemma ShapeNotify(w: World, s: State, sem: Dbref, attr: int, key: NotifyKey, count: int)
    requires Shape(w, s)
    ensures Shape(w, NfyQue(w, s, sem, attr, key, count))
  {
    NotifyElements(s, sem, attr, key, count);
    var r := NotifyScan(s, sem, attr, key, count);
    var s1 := s.(sq := r.1);
    RefundQueues(w, s1, r.0);
    ShapeGiveAll(w, s1, r.0);
  }

  // ---------------------------------------------------------------------
  // Which actions the server performs
  // ---------------------------------------------------------------------

  /** Commands are queued for live objects that are not being destroyed; a wait and a
      notification name an attribute, and `do_notify` asks for at least one. */
  ghost predicate Enabled(w: World, a: Action) {
    match a
    case Queue(player, _, _, _, _, _) => player >= 0 && !w.going(player)
    case SemWait(player, _, thing, attr, _, _, _) => player >= 0 && !w.going(player) && thing >= 0 && attr != 0
    case Notify(sem, attr, key, count) => (key == Nfy ==> count > 0) && attr != 0
    case Destroyed(obj) => obj >= 0
    case _ => true
  }

  ghost predicate StepEnabled(w: World, step: Step) {
    match step
    case Act(a) => Enabled(w, a)
    case Top(cmds) => forall a :: a in cmds ==> Enabled(w, a)
  }

  lemma ShapeDestroy(w: World, s: State, obj: Dbref)
    requires Shape(w, s)
    ensures Shape(w, Destroy(w, s, obj))
  {
    hide HaltQue, NfyQue;
    ShapeHalt(w, s, NOTHING, obj);
    ShapeNotify(w, HaltQue(w, s, NOTHING, obj), obj, 0, Drain, 0);
  }

  lemma ShapeDo(w: World, s: State, a: Action)
    requires Shape(w, s) && Enabled(w, a)
    ensures Shape(w, Do(w, s, a))
  {
    match a
    case Queue(player, cause, wait, qattr, coin, clock) =>
      ShapeWaitQue(w, s, player, cause, wait, NOTHING, qattr, coin, clock);
    case SemWait(player, cause, thing, attr, howlong, coin, clock) =>
      var s1 := s.(sem := Add(s.sem, (thing, attr), 1));
      ShapeWaitQue(w, s1, player, cause, 0, NOTHING, attr, coin, clock);
      ShapeWaitQue(w, s1, player, cause, howlong, thing, attr, coin, clock);
    case Notify(sem, attr, key, count) => ShapeNotify(w, s, sem, attr, key, count);
    case Halt(p, ob) => ShapeHalt(w, s, p, ob);
    case Destroyed(obj) => ShapeDestroy(w, s, obj);
    case Second => ShapeSecond(w, s);
    case WarpTime(i) => ShapeWarp(w, s, i);
    case Tick(t) =>
    case SetFlags(h, i, d) =>
  }

  // ---------------------------------------------------------------------
  // Semaphores
  // ---------------------------------------------------------------------

  ghost function Waiting(s: State, k: (Dbref, int)): nat {
    Size(s.sq, WaitsOn(k))
  }

  function Max0(n: int): nat {
    if n > 0 then n else 0
  }

  /** No more entries wait on a semaphore than its counter says. */
  ghost predicate SemaphoresHold(s: State) {
    forall k: (Dbref, int) :: Waiting(s, k) <= Max0(At(s.sem, k))
  }

  ghost predicate Exact(s: State, k: (Dbref, int)) {
    Waiting(s, k) == Max0(At(s.sem, k))
  }

  lemma {:induction false} ReleaseAt(sem: map<(Dbref, int), int>, es: seq<Entry>, k: (Dbref, int))
    ensures At(Release(sem, es), k) == At(sem, k) - Size(es, WaitsOn(k))
  {
    if es != [] { ReleaseAt(sem, es[..|es| - 1], k); }
  }

  lemma {:induction false} GiveAllFrame(w: World, s: State, es: seq<Entry>)
    ensures var r := GiveAll(w, s, es); r == s.(pq := r.pq, oq := r.oq)
  {
    if es != [] {
      hide GiveQue;
      var n := |es| - 1;
      GiveAllFrame(w, s, es[..n]);
      GiveFrame(w, GiveAll(w, s, es[..n]), es[n]);
    }
  }

  lemma {:induction false} TimeOutFrame(w: World, s: State, es: seq<Entry>)
    ensures var r := TimeOut(w, s, es); r == s.(pq := r.pq, oq := r.oq, sem := r.sem)
  {
    if es != [] {
      hide GiveQue;
      var n := |es| - 1;
      TimeOutFrame(w, s, es[..n]);
      var s' := TimeOut(w, s, es[..n]);
      GiveFrame(w, s'.(sem := Add(s'.sem, Target(es[n].sem, es[n].attr), -1)), es[n].(sem := NOTHING));
    }
  }

  lemma {:induction false} TimeOutAt(w: World, s: State, es: seq<Entry>, k: (Dbref, int))
    requires forall e :: e in es ==> e.attr != 0
    ensures At(TimeOut(w, s, es).sem, k) == At(s.sem, k) - Size(es, WaitsOn(k))
  {
    if es != [] {
      hide GiveQue;
      var n := |es| - 1;
      assert es[n] in es;
      TimeOutAt(w, s, es[..n], k);
      var s' := TimeOut(w, s, es[..n]);
      GiveFrame(w, s'.(sem := Add(s'.sem, Target(es[n].sem, es[n].attr), -1)), es[n].(sem := NOTHING));
    }
  }

  /** A halt gives back exactly the places its victims held. */
  lemma SemHalt(w: World, s: State, p: Dbref, ob: Dbref, k: (Dbref, int))
    ensures var s' := HaltQue(w, s, p, ob); var gone := Size(Take(s.sq, Wanted(w, p, ob)), WaitsOn(k));
      gone <= Waiting(s, k) && Waiting(s', k) == Waiting(s, k) - gone && At(s'.sem, k) == At(s.sem, k) - gone
  {
    var f := Wanted(w, p, ob);
    Partition(s.sq, f, WaitsOn(k));
    ReleaseAt(s.sem, Take(s.sq, f), k);
    PayBackQueues(w, Sweep(w, s, p, ob), Take(s.pq, f) + Take(s.oq, f) + Take(s.wq, f) + Take(s.sq, f), w.dbTop);
  }

  lemma SemSetup(w: World, s: State, player: Dbref, coin: bool, k: (Dbref, int))
    ensures var s' := Setup(w, s, player, coin);
      Waiting(s', k) <= Waiting(s, k) && Waiting(s, k) - Waiting(s', k) == At(s.sem, k) - At(s'.sem, k)
  {
    hide HaltQue, Charged, Setup, Take;
    SetupCases(w, s, player, coin);
    if Judge(w, s, player, coin) == Runaway {
      ChargedFrame(w, s, player, coin);
      SemHalt(w, Charged(w, s, player, coin), w.owner(player), NOTHING, k);
    } else if Judge(w, s, player, coin) == Accepted {
      ChargedFrame(w, s, player, coin);
    }
  }

  lemma SemWaitQue(w: World, s: State, player: Dbref, cause: Dbref, wait: int, sem: Dbref, attr: int,
                   coin: bool, clock: int, k: (Dbref, int))
    ensures var s' := WaitQue(w, s, player, cause, wait, sem, attr, coin, clock);
      var joined := if s.interp && Judge(w, s, player, coin) == Accepted && sem != NOTHING && k == (sem, attr) then 1 else 0;
      Waiting(s', k) <= Waiting(s, k) + joined
      && Waiting(s, k) + joined - Waiting(s', k) == At(s.sem, k) - At(s'.sem, k)
  {
    hide Take, Enqueue, Setup, Judge;
    WaitCases(w, s, player, cause, wait, sem, attr, coin, clock);
    if s.interp {
      SemSetup(w, s, player, coin, k);
      var s1 := Setup(w, s, player, coin);
      var e := NewEntry(s1, player, cause, wait, sem, attr, clock);
      EnqueueFrame(w, s1.(nextId := s1.nextId + 1), e, wait);
      TakeSnoc(s1.sq, e, WaitsOn(k));
    }
  }

  lemma SemReleaseTimedOut(w: World, s: State, k: (Dbref, int))
    requires forall e :: e in s.sq ==> e.attr != 0
    ensures var s' := ReleaseTimedOut(w, s);
      Waiting(s', k) <= Waiting(s, k) && Waiting(s, k) - Waiting(s', k) == At(s.sem, k) - At(s'.sem, k)
  {
    var out := Take(s.sq, Expired(s.now));
    var s3 := s.(sq := Take(s.sq, Not(Expired(s.now))));
    Partition(s.sq, Expired(s.now), WaitsOn(k));
    TakeSubset(s.sq, Expired(s.now));
    TimeOutAt(w, s3, out, k);
    TimeOutFrame(w, s3, out);
  }

  lemma SemSecond(w: World, s: State, k: (Dbref, int))
    requires Shape(w, s)
    ensures var s' := DoSecond(w, s);
      Waiting(s', k) <= Waiting(s, k) && Waiting(s, k) - Waiting(s', k) == At(s.sem, k) - At(s'.sem, k)
  {
    if s.dequeue {
      var s2 := ReleaseWaiting(w, MergeObjectQueue(s));
      assert s2.sq == s.sq && s2.sem == s.sem;
      SemReleaseTimedOut(w, s2, k);
    }
  }

  lemma {:induction false} WarpSemWaiting(q: seq<Entry>, i: int, k: (Dbref, int))
    ensures Size(WarpSem(q, i), WaitsOn(k)) == Size(q, WaitsOn(k))
  {
    if q != [] {
      var n := |q| - 1;
      WarpSemWaiting(q[..n], i, k);
      assert WarpSem(q, i)[..n] == WarpSem(q[..n], i);
    }
  }

  lemma SemWarp(w: World, s: State, i: int, k: (Dbref, int))
    requires Shape(w, s)
    ensures var s' := Warp(w, s, i);
      Waiting(s', k) <= Waiting(s, k) && Waiting(s, k) - Waiting(s', k) == At(s.sem, k) - At(s'.sem, k)
  {
    var s1 := s.(wq := WarpWait(s.wq, i), sq := WarpSem(s.sq, i), dequeue := true);
    assert forall j :: 0 <= j < |s.wq| ==> s.wq[j] in s.wq && s1.wq[j] == Retimed(s.wq[j], -i, s.wq[j].sem);
    assert forall j :: 0 <= j < |s.sq| ==> s.sq[j] in s.sq && s1.sq[j] == Retimed(s.sq[j], s1.sq[j].waittime, s.sq[j].sem);
    assert Shape(w, s1);
    WarpSemWaiting(s.sq, i, k);
    SemSecond(w, s1, k);
  }

  lemma NotifyFrame(w: World, s: State, sem: Dbref, attr: int, key: NotifyKey, count: int)
    ensures var s' := NfyQue(w, s, sem, attr, key, count); var k := Target(sem, attr);
      && s'.sq == NotifyScan(s, sem, attr, key, count).1
      && s'.sem == (if key == Nfy then Add(s.sem, k, -count) else s.sem[k := 0])
  {
    var r := NotifyScan(s, sem, attr, key, count);
    RefundQueues(w, s.(sq := r.1), r.0);
    GiveAllFrame(w, s.(sq := r.1), r.0);
  }

  /** How many entries leave semaphore `k` when somebody notifies. */
  lemma NotifyWaiting(s: State, sem: Dbref, attr: int, key: NotifyKey, count: int, k: (Dbref, int))
    requires key == Nfy ==> count > 0
    requires attr == 0 ==> key == Drain
    ensures var r := NotifyScan(s, sem, attr, key, count); var left := Size(r.1, WaitsOn(k)); var had := Waiting(s, k);
      if k.0 != sem || (attr != 0 && (k.1 != attr || At(s.sem, k) <= 0)) then left == had
      else if key == Nfy && count < had then left == had - count
      else left == 0
  {
    var r := NotifyScan(s, sem, attr, key, count);
    var hit := Matches(sem, attr);
    if attr == 0 || At(s.sem, (sem, attr)) > 0 {
      ScanTakesOldest(s.sq, hit, key == Nfy, count);
      ScanSizes(s.sq, hit, key == Nfy, count, WaitsOn(k));
      if k.0 != sem || (attr != 0 && k.1 != attr) {
        NotifyElements(s, sem, attr, key, count);
        NoneTaken(r.0, WaitsOn(k));
      } else if attr == 0 {
        assert Take(r.1, hit) == [];
        forall e | e in r.1 ensures !WaitsOn(k)(e) { TakeIn(r.1, hit, e); }
        NoneTaken(r.1, WaitsOn(k));
      } else {
        SameTaken(s.sq, hit, WaitsOn(k));
        SameTaken(r.1, hit, WaitsOn(k));
      }
    }
  }

  /** Does the action leave the counter of `k` equal to the number of its waiters?
      A wait must not be refused after it was counted. */
  ghost predicate KeepsExact(w: World, s: State, a: Action, k: (Dbref, int)) {
    match a
    case SemWait(player, _, thing, attr, _, coin, _) =>
      k == (thing, attr) && At(s.sem, k) >= 0 ==> s.interp && Judge(w, s, player, coin) == Accepted
    case _ => true
  }

  lemma SemWaitDo(w: World, s: State, a: Action, k: (Dbref, int))
    requires Shape(w, s) && Enabled(w, a) && a.SemWait?
    ensures Waiting(s, k) <= Max0(At(s.sem, k)) ==> Waiting(Do(w, s, a), k) <= Max0(At(Do(w, s, a).sem, k))
    ensures Exact(s, k) ==> (Exact(Do(w, s, a), k) <==> KeepsExact(w, s, a, k))
  {
    var s1 := s.(sem := Add(s.sem, (a.thing, a.attr), 1));
    if At(s1.sem, (a.thing, a.attr)) <= 0 {
      SemWaitQue(w, s1, a.player, a.cause, 0, NOTHING, a.attr, a.coin, a.clock, k);
    } else {
      SemWaitQue(w, s1, a.player, a.cause, a.howlong, a.thing, a.attr, a.coin, a.clock, k);
    }
    assert Judge(w, s1, a.player, a.coin) == Judge(w, s, a.player, a.coin);
  }

  lemma SemNotifyDo(w: World, s: State, a: Action, k: (Dbref, int))
    requires Enabled(w, a) && a.Notify?
    ensures Waiting(s, k) <= Max0(At(s.sem, k)) ==> Waiting(Do(w, s, a), k) <= Max0(At(Do(w, s, a).sem, k))
    ensures Exact(s, k) ==> (Exact(Do(w, s, a), k) <==> KeepsExact(w, s, a, k))
  {
    NotifyFrame(w, s, a.sem, a.attr, a.key, a.count);
    NotifyWaiting(s, a.sem, a.attr, a.key, a.count, k);
  }

  /** Destroying an object leaves nobody waiting on it and no counter of it, though the drain by
      itself clears the one counter `A_SEMAPHORE` only; every other semaphore gives up equally
      many waiters and places. */
  lemma SemDestroy(w: World, s: State, obj: Dbref, k: (Dbref, int))
    ensures var s' := Destroy(w, s, obj);
      if k.0 == obj then Waiting(s', k) == 0 && At(s'.sem, k) == 0
      else Waiting(s', k) <= Waiting(s, k) && Waiting(s, k) - Waiting(s', k) == At(s.sem, k) - At(s'.sem, k)
  {
    var s1 := HaltQue(w, s, NOTHING, obj);
    SemHalt(w, s, NOTHING, obj, k);
    NotifyFrame(w, s1, obj, 0, Drain, 0);
    NotifyWaiting(s1, obj, 0, Drain, 0, k);
    hide HaltQue, NfyQue, NotifyScan, Take;
  }

  /** One action keeps the bound for every semaphore, and keeps equality exactly when `KeepsExact` says. */
  lemma SemaphoreStep(w: World, s: State, a: Action, k: (Dbref, int))
    requires Shape(w, s) && Enabled(w, a)
    ensures Waiting(s, k) <= Max0(At(s.sem, k)) ==> Waiting(Do(w, s, a), k) <= Max0(At(Do(w, s, a).sem, k))
    ensures Exact(s, k) ==> (Exact(Do(w, s, a), k) <==> KeepsExact(w, s, a, k))
  {
    match a
    case Queue(player, cause, wait, qattr, coin, clock) =>
      SemWaitQue(w, s, player, cause, wait, NOTHING, qattr, coin, clock, k);
    case SemWait(_, _, _, _, _, _, _) => SemWaitDo(w, s, a, k);
    case Notify(_, _, _, _) => SemNotifyDo(w, s, a, k);
    case Halt(p, ob) => SemHalt(w, s, p, ob, k);
    case Destroyed(obj) => SemDestroy(w, s, obj, k);
    case Second => SemSecond(w, s, k);
    case WarpTime(i) => SemWarp(w, s, i, k);
    case Tick(t) =>
    case SetFlags(h, i, d) =>
  }
}
