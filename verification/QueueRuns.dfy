/** The laws of the command queue over whole runs. */
module QueueRuns {
  import opened Constants
  import opened QueueModel
  import opened QueueCounting
  import opened QueueLaws
  import opened QueueAccounts
  import opened QueueGains

  // ---------------------------------------------------------------------
  // The player queue grows at its tail only
  // ---------------------------------------------------------------------

  /** `q'` is `q` with some entries wiped in place and others appended. */
  ghost predicate Grown(q: seq<Entry>, q': seq<Entry>) {
    && |q| <= |q'|
    && forall i :: 0 <= i < |q| ==> q'[i] == q[i] || q'[i] == q[i].(player := NOTHING)
  }

  ghost predicate PlayersAppended(w: World, q: seq<Entry>, q': seq<Entry>) {
    |q| <= |q'| && forall i :: |q| <= i < |q'| ==> w.isPlayer(q'[i].cause)
  }

  lemma {:induction false} GiveAllGrows(w: World, s: State, es: seq<Entry>)
    ensures var s' := GiveAll(w, s, es); Grown(s.pq, s'.pq) && PlayersAppended(w, s.pq, s'.pq)
  {
    if es != [] { GiveAllGrows(w, s, es[..|es| - 1]); }
  }

  lemma {:induction false} TimeOutGrows(w: World, s: State, es: seq<Entry>)
    ensures Grown(s.pq, TimeOut(w, s, es).pq)
  {
    if es != [] { TimeOutGrows(w, s, es[..|es| - 1]); }
  }

  lemma HaltGrows(w: World, s: State, p: Dbref, ob: Dbref)
    ensures |HaltQue(w, s, p, ob).pq| == |s.pq| && Grown(s.pq, HaltQue(w, s, p, ob).pq)
  {
    MarkIndex(s.pq, Wanted(w, p, ob));
    PayBackQueues(w, Sweep(w, s, p, ob), Hits(w, s, p, ob), w.dbTop);
  }

  lemma SetupGrows(w: World, s: State, player: Dbref, coin: bool)
    ensures var s' := Setup(w, s, player, coin); |s'.pq| == |s.pq| && Grown(s.pq, s'.pq)
  {
    hide HaltQue, Charged, Setup;
    SetupCases(w, s, player, coin);
    if Judge(w, s, player, coin) == Runaway {
      ChargedFrame(w, s, player, coin);
      HaltGrows(w, Charged(w, s, player, coin), w.owner(player), NOTHING);
    } else if Judge(w, s, player, coin) == Accepted {
      ChargedFrame(w, s, player, coin);
    }
  }

  lemma WaitQueGrows(w: World, s: State, player: Dbref, cause: Dbref, wait: int, sem: Dbref, attr: int,
                     coin: bool, clock: int)
    ensures var s' := WaitQue(w, s, player, cause, wait, sem, attr, coin, clock);
      Grown(s.pq, s'.pq) && PlayersAppended(w, s.pq, s'.pq)
  {
    hide Setup, Judge, Enqueue;
    WaitCases(w, s, player, cause, wait, sem, attr, coin, clock);
    if s.interp {
      SetupGrows(w, s, player, coin);
      var s1 := Setup(w, s, player, coin);
      var e := NewEntry(s1, player, cause, wait, sem, attr, clock);
      EnqueueFrame(w, s1.(nextId := s1.nextId + 1), e, wait);
      GiveFrame(w, s1.(nextId := s1.nextId + 1), e);
    }
  }

  lemma SecondGrows(w: World, s: State)
    ensures Grown(s.pq, DoSecond(w, s).pq)
  {
    var s2 := ReleaseWaiting(w, MergeObjectQueue(s));
    assert Grown(s.pq, s2.pq);
    TimeOutGrows(w, s2.(sq := Take(s2.sq, Not(Expired(s2.now)))), Take(s2.sq, Expired(s2.now)));
  }

  lemma NotifyGrows(w: World, s: State, sem: Dbref, attr: int, key: NotifyKey, count: int)
    ensures var s' := NfyQue(w, s, sem, attr, key, count); Grown(s.pq, s'.pq) && PlayersAppended(w, s.pq, s'.pq)
    ensures key == Drain ==> NfyQue(w, s, sem, attr, key, count).pq == s.pq
  {
    var r := NotifyScan(s, sem, attr, key, count);
    RefundQueues(w, s.(sq := r.1), r.0);
    GiveAllGrows(w, s.(sq := r.1), r.0);
  }

  lemma DestroyGrows(w: World, s: State, obj: Dbref)
    ensures |Destroy(w, s, obj).pq| == |s.pq| && Grown(s.pq, Destroy(w, s, obj).pq)
  {
    hide HaltQue, NfyQue;
    HaltGrows(w, s, NOTHING, obj);
    NotifyGrows(w, HaltQue(w, s, NOTHING, obj), obj, 0, Drain, 0);
  }

  /** First in, first out; and only the once-a-second pass lets an object's command in. */
  lemma PlayerQueueStep(w: World, s: State, a: Action)
    ensures Grown(s.pq, Do(w, s, a).pq)
    ensures !a.Second? && !a.WarpTime? ==> PlayersAppended(w, s.pq, Do(w, s, a).pq)
  {
    match a
    case Queue(player, cause, wait, qattr, coin, clock) =>
      WaitQueGrows(w, s, player, cause, wait, NOTHING, qattr, coin, clock);
    case SemWait(player, cause, thing, attr, howlong, coin, clock) =>
      var s1 := s.(sem := Add(s.sem, (thing, attr), 1));
      WaitQueGrows(w, s1, player, cause, 0, NOTHING, attr, coin, clock);
      WaitQueGrows(w, s1, player, cause, howlong, thing, attr, coin, clock);
    case Notify(sem, attr, key, count) => NotifyGrows(w, s, sem, attr, key, count);
    case Halt(p, ob) => HaltGrows(w, s, p, ob);
    case Destroyed(obj) => DestroyGrows(w, s, obj);
    case Second => SecondGrows(w, s);
    case WarpTime(i) => SecondGrows(w, s.(wq := WarpWait(s.wq, i), sq := WarpSem(s.sq, i), dequeue := true));
    case Tick(t) =>
    case SetFlags(h, i, d) =>
  }

  // ---------------------------------------------------------------------
  // Identities
  // ---------------------------------------------------------------------

  lemma {:induction false} MarkIds(q: seq<Entry>, h: Entry -> bool, n: nat)
    ensures Size(Mark(q, h), HasId(n)) == Size(q, HasId(n))
  {
    if q != [] {
      var m := |q| - 1;
      MarkIds(q[..m], h, n);
      TakeSnoc(Mark(q[..m], h), if h(q[m]) then q[m].(player := NOTHING) else q[m], HasId(n));
    }
  }

  lemma HaltIds(w: World, s: State, p: Dbref, ob: Dbref, n: nat)
    ensures Total(HaltQue(w, s, p, ob), HasId(n)) <= Total(s, HasId(n))
    ensures HaltQue(w, s, p, ob).nextId == s.nextId
  {
    var f := Wanted(w, p, ob);
    MarkIds(s.pq, f, n);
    MarkIds(s.oq, f, n);
    Partition(s.wq, f, HasId(n));
    Partition(s.sq, f, HasId(n));
    PayBackQueues(w, Sweep(w, s, p, ob), Hits(w, s, p, ob), w.dbTop);
  }

  lemma WaitQueIds(w: World, s: State, player: Dbref, cause: Dbref, wait: int, sem: Dbref, attr: int,
                   coin: bool, clock: int, n: nat)
    ensures var s' := WaitQue(w, s, player, cause, wait, sem, attr, coin, clock);
      s.nextId <= s'.nextId && Total(s', HasId(n)) <= Total(s, HasId(n)) + if s.nextId <= n < s'.nextId then 1 else 0
  {
    hide Take, Insert, HaltQue;
    if s.interp {
      TotalWaitQue(w, s, player, cause, wait, sem, attr, coin, clock, HasId(n));
      if Judge(w, s, player, coin) == Runaway {
        var s1 := Charged(w, s, player, coin);
        HaltIds(w, s1, w.owner(player), NOTHING, n);
        var s2 := HaltQue(w, s1, w.owner(player), NOTHING);
        assert Total(s2.(halted := s2.halted + {player}), HasId(n)) == Total(s2, HasId(n));
      }
    }
  }

  lemma IdsNotify(w: World, s: State, sem: Dbref, attr: int, key: NotifyKey, count: int, n: nat)
    ensures var s' := NfyQue(w, s, sem, attr, key, count);
      Total(s', HasId(n)) <= Total(s, HasId(n)) && s'.nextId == s.nextId
  {
    var r := NotifyScan(s, sem, attr, key, count);
    ScanSizes(s.sq, Matches(sem, attr), key == Nfy, count, HasId(n));
    RefundQueues(w, s.(sq := r.1), r.0);
    GiveAllFrame(w, s.(sq := r.1), r.0);
    TotalGiveAll(w, s.(sq := r.1), r.0, HasId(n));
  }

  lemma SameTotal(s: State, s': State, f: Entry -> bool)
    requires s'.pq == s.pq && s'.oq == s.oq && s'.wq == s.wq && s'.sq == s.sq
    ensures Total(s', f) == Total(s, f)
  {
  }

  /** No action duplicates a block: it stays where it is, moves, or is freed. */
  lemma IdsStep(w: World, s: State, a: Action, n: nat)
    ensures var s' := Do(w, s, a);
      s.nextId <= s'.nextId && Total(s', HasId(n)) <= Total(s, HasId(n)) + if s.nextId <= n < s'.nextId then 1 else 0
  {
    hide Take, WaitQue, HaltQue, NfyQue, DoSecond;
    match a
    case Queue(player, cause, wait, qattr, coin, clock) =>
      WaitQueIds(w, s, player, cause, wait, NOTHING, qattr, coin, clock, n);
    case SemWait(player, cause, thing, attr, howlong, coin, clock) =>
      var s1 := s.(sem := Add(s.sem, (thing, attr), 1));
      assert Total(s1, HasId(n)) == Total(s, HasId(n));
      WaitQueIds(w, s1, player, cause, 0, NOTHING, attr, coin, clock, n);
      WaitQueIds(w, s1, player, cause, howlong, thing, attr, coin, clock, n);
    case Notify(sem, attr, key, count) =>
      IdsNotify(w, s, sem, attr, key, count, n);
    case Halt(p, ob) => HaltIds(w, s, p, ob, n);
    case Destroyed(obj) =>
      HaltIds(w, s, NOTHING, obj, n);
      IdsNotify(w, HaltQue(w, s, NOTHING, obj), obj, 0, Drain, 0, n);
      SameTotal(NfyQue(w, HaltQue(w, s, NOTHING, obj), obj, 0, Drain, 0), Destroy(w, s, obj), HasId(n));
    case Second =>
      TotalSecond(w, s, HasId(n));
      SecondKeepsNext(w, s);
    case WarpTime(i) =>
      TotalWarp(w, s, i, HasId(n));
      SecondKeepsNext(w, s.(wq := WarpWait(s.wq, i), sq := WarpSem(s.sq, i), dequeue := true));
    case Tick(t) => assert Total(Do(w, s, a), HasId(n)) == Total(s, HasId(n));
    case SetFlags(h, i, d) => assert Total(Do(w, s, a), HasId(n)) == Total(s, HasId(n));
  }

  lemma ReleaseWaitingFrame(w: World, s: State)
    ensures var r := ReleaseWaiting(w, s);
      && r == s.(pq := r.pq, oq := r.oq, wq := r.wq)
      && r.wq == if s.wq != [] && s.wq[0].waittime <= s.now then s.wq[1..] else s.wq
  {
    hide GiveQue;
    if s.wq != [] && s.wq[0].waittime <= s.now {
      GiveFrame(w, s.(wq := s.wq[1..]), s.wq[0]);
    } else {}
  }

  lemma SecondKeepsNext(w: World, s: State)
    ensures DoSecond(w, s).nextId == s.nextId && DoSecond(w, s).now == s.now
    ensures DoSecond(w, s).wq == if s.dequeue && s.wq != [] && s.wq[0].waittime <= s.now then s.wq[1..] else s.wq
  {
    ReleaseWaitingFrame(w, MergeObjectQueue(s));
    var s2 := ReleaseWaiting(w, MergeObjectQueue(s));
    TimeOutFrame(w, s2.(sq := Take(s2.sq, Not(Expired(s2.now)))), Take(s2.sq, Expired(s2.now)));
  }

  // ---------------------------------------------------------------------
  // The invariant of every reachable state
  // ---------------------------------------------------------------------

  ghost predicate Inv(w: World, s: State) {
    Shape(w, s) && SemaphoresHold(s) && Accounts(w, s) && OnOneQueue(s)
  }

  lemma InvDo(w: World, s: State, a: Action)
    requires w.Sound() && Inv(w, s) && Enabled(w, a)
    ensures Inv(w, Do(w, s, a))
  {
    ShapeDo(w, s, a);
    forall k ensures Waiting(Do(w, s, a), k) <= Max0(At(Do(w, s, a).sem, k)) {
      SemaphoreStep(w, s, a, k);
    }
    forall o ensures At(Do(w, s, a).count, o) == Live(w, Do(w, s, a), o) <= w.queueMax(o) {
      AccountStep(w, s, a, o);
    }
    forall n: nat ensures Total(Do(w, s, a), HasId(n)) <= if n < Do(w, s, a).nextId then 1 else 0 {
      IdsStep(w, s, a, n);
    }
  }

  lemma {:induction false} InvDoAll(w: World, s: State, acts: seq<Action>)
    requires w.Sound() && Inv(w, s) && forall a :: a in acts ==> Enabled(w, a)
    ensures Inv(w, DoAll(w, s, acts))
    decreases |acts|
  {
    if acts != [] {
      assert acts[0] in acts;
      InvDo(w, s, acts[0]);
      InvDoAll(w, Do(w, s, acts[0]), acts[1..]);
    }
  }

  /** The running entry stays at the head, wiped, while its commands act on the queue. */
  lemma {:induction false} HeadStays(w: World, s: State, acts: seq<Action>)
    requires s.pq != [] && s.pq[0].player == NOTHING
    ensures DoAll(w, s, acts).pq != [] && DoAll(w, s, acts).pq[0] == s.pq[0]
    decreases |acts|
  {
    if acts != [] {
      PlayerQueueStep(w, s, acts[0]);
      HeadStays(w, Do(w, s, acts[0]), acts[1..]);
    }
  }

  /** Beginning to run the head turns its deposit into money and takes it off the count. */
  lemma TopBeginLive(w: World, s: State, o: Dbref)
    requires w.Sound() && s.pq != [] && Runnable(w, s.pq[0]) && At(s.count, o) == Live(w, s, o)
    ensures var s' := TopBegin(w, s); var e := s.pq[0];
      && At(s'.count, o) == Live(w, s', o) <= Live(w, s, o)
      && (Payer(w, o) ==>
            Worth(w, s', o) + (if w.owner(e.player) == o && w.exempt(e.player) then w.waitcost else 0) == Worth(w, s, o))
  {
    hide Take;
    var e := s.pq[0];
    var s' := TopBegin(w, s);
    assert s.pq == [e] + s.pq[1..];
    assert s'.pq == [e.(player := NOTHING)] + s.pq[1..];
    TakeCons(e, s.pq[1..], LiveOf(w, o));
    TakeCons(e.(player := NOTHING), s.pq[1..], LiveOf(w, o));
    Distribute(w.waitcost, Live(w, s', o), 1);
  }

  /** The wiped head stays a legal entry of a run queue. */
  lemma TopBeginShape(w: World, s: State)
    requires Shape(w, s) && s.pq != []
    ensures Shape(w, TopBegin(w, s)) && TopBegin(w, s).pq[0].player == NOTHING
  {
    var s' := TopBegin(w, s);
    var e := s.pq[0];
    assert e in s.pq;
    if Runnable(w, e) {
      forall x | x in s'.pq ensures x.waittime == 0 && (x.player == NOTHING || Runnable(w, x)) {
        var i :| 0 <= i < |s'.pq| && s'.pq[i] == x;
        if i > 0 { assert s.pq[i] in s.pq; }
      }
    }
  }

  /** Wiping an entry moves no block. */
  lemma TopBeginTotal(w: World, s: State, n: nat)
    requires s.pq != []
    ensures Total(TopBegin(w, s), HasId(n)) == Total(s, HasId(n))
  {
    hide Take;
    var e := s.pq[0];
    if Runnable(w, e) {
      assert s.pq == [e] + s.pq[1..];
      assert TopBegin(w, s).pq == [e.(player := NOTHING)] + s.pq[1..];
      TakeCons(e, s.pq[1..], HasId(n));
      TakeCons(e.(player := NOTHING), s.pq[1..], HasId(n));
    }
  }

  lemma InvTopBegin(w: World, s: State)
    requires w.Sound() && Inv(w, s) && s.pq != []
    ensures Inv(w, TopBegin(w, s)) && TopBegin(w, s).pq[0].player == NOTHING
  {
    hide Take, Shape, Live, Total;
    var s' := TopBegin(w, s);
    TopBeginShape(w, s);
    if Runnable(w, s.pq[0]) {
      forall o ensures At(s'.count, o) == Live(w, s', o) <= w.queueMax(o) {
        TopBeginLive(w, s, o);
      }
      forall n: nat ensures Total(s', HasId(n)) == Total(s, HasId(n)) {
        TopBeginTotal(w, s, n);
      }
    }
  }

  lemma TopEndTotal(s: State, f: Entry -> bool)
    requires s.pq != []
    ensures Total(TopEnd(s), f) + (if f(s.pq[0]) then 1 else 0) == Total(s, f)
  {
    assert s.pq == [s.pq[0]] + s.pq[1..];
    TakeCons(s.pq[0], s.pq[1..], f);
  }

  lemma InvTopEnd(w: World, s: State)
    requires w.Sound() && Inv(w, s) && s.pq != [] && s.pq[0].player == NOTHING
    ensures Inv(w, TopEnd(s))
  {
    var s' := TopEnd(s);
    assert forall e :: e in s'.pq ==> e in s.pq;
    forall o ensures At(s'.count, o) == Live(w, s', o) <= w.queueMax(o) {
      TopEndTotal(s, LiveOf(w, o));
    }
    forall n: nat ensures Total(s', HasId(n)) <= if n < s'.nextId then 1 else 0 {
      TopEndTotal(s, HasId(n));
    }
  }

  lemma InvNext(w: World, s: State, step: Step)
    requires w.Sound() && Inv(w, s) && StepEnabled(w, step)
    ensures Inv(w, Next(w, s, step))
  {
    match step
    case Act(a) => InvDo(w, s, a);
    case Top(cmds) =>
      if s.pq != [] {
        InvTopBegin(w, s);
        var s1 := TopBegin(w, s);
        HeadStays(w, s1, cmds);
        InvDoAll(w, s1, cmds);
        InvTopEnd(w, if Runnable(w, s.pq[0]) && s.pq[0].player !in s1.halted then DoAll(w, s1, cmds) else s1);
      }
  }

  lemma InvStart(w: World, money: map<Dbref, int>, sem: map<(Dbref, int), int>)
    requires w.Sound()
    ensures Inv(w, Start(money, sem))
  {
    hide Total;
    var s := Start(money, sem);
    assert SemaphoresHold(s) by {
      forall k ensures Waiting(s, k) == 0 {}
    }
    assert Accounts(w, s) by {
      forall o ensures At(s.count, o) == Live(w, s, o) <= w.queueMax(o) { NothingTotal(s, LiveOf(w, o)); }
    }
    assert OnOneQueue(s) by {
      forall n: nat ensures Total(s, HasId(n)) == 0 { NothingTotal(s, HasId(n)); }
    }
  }

  lemma NothingTotal(s: State, f: Entry -> bool)
    requires s.pq == [] && s.oq == [] && s.wq == [] && s.sq == []
    ensures Total(s, f) == 0
  {
  }

  /** Every reachable state: semaphores bounded by their counters, counts equal to
      live entries and within the limits, one queue for every block, queues in shape. */
  lemma {:induction false} InvRun(w: World, s: State, steps: seq<Step>)
    requires w.Sound() && Inv(w, s) && forall x :: x in steps ==> StepEnabled(w, x)
    ensures Inv(w, Run(w, s, steps))
    decreases |steps|
  {
    if steps != [] {
      assert steps[0] in steps;
      InvNext(w, s, steps[0]);
      InvRun(w, Next(w, s, steps[0]), steps[1..]);
    }
  }

  // ---------------------------------------------------------------------
  // Equality of counters and waiters over runs
  // ---------------------------------------------------------------------

  ghost predicate KeepsExactAll(w: World, s: State, acts: seq<Action>, k: (Dbref, int))
    decreases |acts|
  {
    acts == [] || (KeepsExact(w, s, acts[0], k) && KeepsExactAll(w, Do(w, s, acts[0]), acts[1..], k))
  }

  ghost predicate StepKeepsExact(w: World, s: State, step: Step, k: (Dbref, int)) {
    match step
    case Act(a) => KeepsExact(w, s, a, k)
    case Top(cmds) =>
      s.pq != [] && Runnable(w, s.pq[0]) && s.pq[0].player !in s.halted ==>
        KeepsExactAll(w, TopBegin(w, s), cmds, k)
  }

  ghost predicate RunKeepsExact(w: World, s: State, steps: seq<Step>, k: (Dbref, int))
    decreases |steps|
  {
    steps == [] || (StepKeepsExact(w, s, steps[0], k) && RunKeepsExact(w, Next(w, s, steps[0]), steps[1..], k))
  }

  lemma {:induction false} ExactDoAll(w: World, s: State, acts: seq<Action>, k: (Dbref, int))
    requires w.Sound() && Inv(w, s) && Exact(s, k) && KeepsExactAll(w, s, acts, k)
    requires forall a :: a in acts ==> Enabled(w, a)
    ensures Exact(DoAll(w, s, acts), k)
    decreases |acts|
  {
    if acts != [] {
      assert acts[0] in acts;
      SemaphoreStep(w, s, acts[0], k);
      InvDo(w, s, acts[0]);
      ExactDoAll(w, Do(w, s, acts[0]), acts[1..], k);
    }
  }

  lemma ExactNext(w: World, s: State, step: Step, k: (Dbref, int))
    requires w.Sound() && Inv(w, s) && Exact(s, k) && StepKeepsExact(w, s, step, k) && StepEnabled(w, step)
    ensures Exact(Next(w, s, step), k)
  {
    hide Do, TopBegin, DoAll, KeepsExact, KeepsExactAll, Inv, Shape;
    match step
    case Act(a) =>
      InvShape(w, s);
      SemaphoreStep(w, s, a, k);
    case Top(cmds) =>
      if s.pq != [] {
        InvTopBegin(w, s);
        TopSems(w, s);
        if RunsHead(w, s) { ExactDoAll(w, TopBegin(w, s), cmds, k); }
      }
  }

  lemma TopSems(w: World, s: State)
    requires s.pq != []
    ensures var s1 := TopBegin(w, s); s1.sq == s.sq && s1.sem == s.sem && s1.halted == s.halted
  {
  }

  /** While no counted wait is refused, the counter is the number of waiters. */
  lemma {:induction false} ExactRun(w: World, s: State, steps: seq<Step>, k: (Dbref, int))
    requires w.Sound() && Inv(w, s) && Exact(s, k) && RunKeepsExact(w, s, steps, k)
    requires forall x :: x in steps ==> StepEnabled(w, x)
    ensures Exact(Run(w, s, steps), k)
    decreases |steps|
  {
    hide Do, DoTop, Inv, Exact, KeepsExact, StepKeepsExact;
    if steps != [] {
      assert steps[0] in steps;
      ExactNext(w, s, steps[0], k);
      InvNext(w, s, steps[0]);
      ExactRun(w, Next(w, s, steps[0]), steps[1..], k);
    }
  }

  // ---------------------------------------------------------------------
  // Conservation of money over runs
  // ---------------------------------------------------------------------

  ghost function ForfeitAll(w: World, s: State, acts: seq<Action>, o: Dbref): int
    decreases |acts|
  {
    if acts == [] then 0 else Forfeit(w, s, acts[0], o) + ForfeitAll(w, Do(w, s, acts[0]), acts[1..], o)
  }

  /** Running an exempt object's command refunds nothing to the owner that counts it. */
  ghost function StepForfeit(w: World, s: State, step: Step, o: Dbref): int {
    match step
    case Act(a) => Forfeit(w, s, a, o)
    case Top(cmds) =>
      if s.pq == [] || !Runnable(w, s.pq[0]) then 0
      else
        var e := s.pq[0];
        (if w.owner(e.player) == o && w.exempt(e.player) then w.waitcost else 0)
        + if e.player in s.halted then 0 else ForfeitAll(w, TopBegin(w, s), cmds, o)
  }

  ghost function RunForfeit(w: World, s: State, steps: seq<Step>, o: Dbref): int
    decreases |steps|
  {
    if steps == [] then 0 else StepForfeit(w, s, steps[0], o) + RunForfeit(w, Next(w, s, steps[0]), steps[1..], o)
  }

  lemma {:induction false} WorthDoAll(w: World, s: State, acts: seq<Action>, o: Dbref)
    requires w.Sound() && Inv(w, s) && Payer(w, o) && forall a :: a in acts ==> Enabled(w, a)
    ensures Worth(w, DoAll(w, s, acts), o) + ForfeitAll(w, s, acts, o) == Worth(w, s, o)
    decreases |acts|
  {
    if acts != [] {
      assert acts[0] in acts;
      AccountStep(w, s, acts[0], o);
      InvDo(w, s, acts[0]);
      WorthDoAll(w, Do(w, s, acts[0]), acts[1..], o);
    }
  }

  lemma BeginWorth(w: World, s: State, o: Dbref)
    requires w.Sound() && Inv(w, s) && Payer(w, o) && s.pq != []
    ensures var e := s.pq[0];
      Worth(w, TopBegin(w, s), o)
      + (if Runnable(w, e) && w.owner(e.player) == o && w.exempt(e.player) then w.waitcost else 0) == Worth(w, s, o)
  {
    if Runnable(w, s.pq[0]) {
      hide TopBegin, Live;
      TopBeginLive(w, s, o);
    }
  }

  lemma WorthTop(w: World, s: State, cmds: seq<Action>, o: Dbref)
    requires w.Sound() && Inv(w, s) && Payer(w, o) && StepEnabled(w, Top(cmds))
    ensures Worth(w, DoTop(w, s, cmds), o) + StepForfeit(w, s, Top(cmds), o) == Worth(w, s, o)
  {
    hide TopBegin, DoAll, ForfeitAll, Inv;
    if s.pq != [] {
      InvTopBegin(w, s);
      TopWaits(w, s);
      var e := s.pq[0];
      var s1 := TopBegin(w, s);
      BeginWorth(w, s, o);
      HeadStays(w, s1, cmds);
      if RunsHead(w, s) {
        WorthDoAll(w, s1, cmds, o);
        TopEndLive(w, DoAll(w, s1, cmds), o);
      } else {
        TopEndLive(w, s1, o);
      }
    }
  }

  /** Over any run a paying owner's balance plus deposits falls by exactly what it forfeits, and
      an exempt owner's balance is what it was. */
  lemma {:induction false} WorthRun(w: World, s: State, steps: seq<Step>, o: Dbref)
    requires w.Sound() && Inv(w, s) && o != GOD && forall x :: x in steps ==> StepEnabled(w, x)
    ensures !w.exempt(o) ==> Worth(w, Run(w, s, steps), o) + RunForfeit(w, s, steps, o) == Worth(w, s, o)
    ensures w.exempt(o) ==> At(Run(w, s, steps).money, o) == At(s.money, o)
    decreases |steps|
  {
    hide Do, DoTop, Inv, Worth, Forfeit, StepForfeit, At;
    if steps != [] {
      assert steps[0] in steps;
      WorthNext(w, s, steps[0], o);
      InvNext(w, s, steps[0]);
      WorthRun(w, Next(w, s, steps[0]), steps[1..], o);
    }
  }

  lemma WorthNext(w: World, s: State, step: Step, o: Dbref)
    requires w.Sound() && Inv(w, s) && o != GOD && StepEnabled(w, step)
    ensures !w.exempt(o) ==> Worth(w, Next(w, s, step), o) + StepForfeit(w, s, step, o) == Worth(w, s, o)
    ensures w.exempt(o) ==> At(Next(w, s, step).money, o) == At(s.money, o)
  {
    hide Do, DoTop, Worth, Forfeit, At;
    match step
    case Act(a) =>
      if w.exempt(o) { ExemptStays(w, s, a, o); } else { AccountStep(w, s, a, o); }
    case Top(cmds) =>
      if w.exempt(o) { ExemptTop(w, s, cmds, o); } else { WorthTop(w, s, cmds, o); }
  }

  lemma {:induction false} ExemptStaysAll(w: World, s: State, acts: seq<Action>, o: Dbref)
    requires w.exempt(o)
    ensures At(DoAll(w, s, acts).money, o) == At(s.money, o)
    decreases |acts|
  {
    hide Do;
    if acts != [] {
      ExemptStays(w, s, acts[0], o);
      ExemptStaysAll(w, Do(w, s, acts[0]), acts[1..], o);
    }
  }

  lemma ExemptBegin(w: World, s: State, o: Dbref)
    requires w.exempt(o) && s.pq != []
    ensures At(TopBegin(w, s).money, o) == At(s.money, o)
  {
    GiveLeaves(w, s.money, s.pq[0].player, w.waitcost, o);
  }

  lemma ExemptTop(w: World, s: State, cmds: seq<Action>, o: Dbref)
    requires w.exempt(o)
    ensures At(DoTop(w, s, cmds).money, o) == At(s.money, o)
  {
    hide TopBegin, DoAll;
    if s.pq != [] {
      ExemptBegin(w, s, o);
      ExemptStaysAll(w, TopBegin(w, s), cmds, o);
    }
  }

  // ---------------------------------------------------------------------
  // When balance plus deposits never rises
  // ---------------------------------------------------------------------

  /** No command of `o`'s is accepted for free. */
  ghost predicate PaidAll(w: World, s: State, acts: seq<Action>, o: Dbref)
    decreases |acts|
  {
    acts == [] || (!Gains(w, s, acts[0], o) && PaidAll(w, Do(w, s, acts[0]), acts[1..], o))
  }

  ghost predicate PaidStep(w: World, s: State, step: Step, o: Dbref) {
    match step
    case Act(a) => !Gains(w, s, a, o)
    case Top(cmds) => RunsHead(w, s) ==> PaidAll(w, TopBegin(w, s), cmds, o)
  }

  ghost predicate PaidRun(w: World, s: State, steps: seq<Step>, o: Dbref)
    decreases |steps|
  {
    steps == [] || (PaidStep(w, s, steps[0], o) && PaidRun(w, Next(w, s, steps[0]), steps[1..], o))
  }

  lemma {:induction false} PaidDoAll(w: World, s: State, acts: seq<Action>, o: Dbref)
    requires w.Sound() && Inv(w, s) && o != GOD && PaidAll(w, s, acts, o) && forall a :: a in acts ==> Enabled(w, a)
    ensures Worth(w, DoAll(w, s, acts), o) <= Worth(w, s, o)
    decreases |acts|
  {
    hide Do, Worth, Gains;
    if acts != [] {
      assert acts[0] in acts;
      GainsExactlyWhenFree(w, s, acts[0], o);
      InvDo(w, s, acts[0]);
      PaidDoAll(w, Do(w, s, acts[0]), acts[1..], o);
    }
  }

  /** A run is begun with the deposit returned at most once. */
  lemma WorthBegins(w: World, s: State, o: Dbref)
    requires w.Sound() && Inv(w, s) && o != GOD && s.pq != []
    ensures Worth(w, TopBegin(w, s), o) <= Worth(w, s, o)
  {
    if Runnable(w, s.pq[0]) {
      TopBeginLive(w, s, o);
      if w.exempt(o) {
        ExemptBegin(w, s, o);
        Monotone(w.waitcost, Live(w, TopBegin(w, s), o), Live(w, s, o));
      }
    }
    hide TopBegin, Live;
  }

  lemma PaidTop(w: World, s: State, cmds: seq<Action>, o: Dbref)
    requires w.Sound() && Inv(w, s) && o != GOD && PaidStep(w, s, Top(cmds), o) && StepEnabled(w, Top(cmds))
    ensures Worth(w, DoTop(w, s, cmds), o) <= Worth(w, s, o)
  {
    hide TopBegin, DoAll, Inv, PaidAll;
    if s.pq != [] {
      var s1 := TopBegin(w, s);
      WorthBegins(w, s, o);
      InvTopBegin(w, s);
      TopWaits(w, s);
      HeadStays(w, s1, cmds);
      if RunsHead(w, s) {
        PaidDoAll(w, s1, cmds, o);
        TopEndLive(w, DoAll(w, s1, cmds), o);
      } else {
        TopEndLive(w, s1, o);
      }
    }
  }

  lemma TopEndLive(w: World, s: State, o: Dbref)
    requires s.pq != [] && s.pq[0].player == NOTHING
    ensures Worth(w, TopEnd(s), o) == Worth(w, s, o)
  {
    TopEndTotal(s, LiveOf(w, o));
  }

  /** Over any run in which no command of `o`'s is accepted for free, balance plus deposits
      never rises. */
  lemma {:induction false} WorthNeverRises(w: World, s: State, steps: seq<Step>, o: Dbref)
    requires w.Sound() && Inv(w, s) && o != GOD && PaidRun(w, s, steps, o)
    requires forall x :: x in steps ==> StepEnabled(w, x)
    ensures Worth(w, Run(w, s, steps), o) <= Worth(w, s, o)
    decreases |steps|
  {
    hide Do, DoTop, Inv, Worth, Gains;
    if steps != [] {
      assert steps[0] in steps;
      match steps[0] {
        case Act(a) => PaidAct(w, s, a, o);
        case Top(cmds) => PaidTop(w, s, cmds, o);
      }
      InvNext(w, s, steps[0]);
      WorthNeverRises(w, Next(w, s, steps[0]), steps[1..], o);
    }
  }

  lemma PaidAct(w: World, s: State, a: Action, o: Dbref)
    requires w.Sound() && Inv(w, s) && o != GOD && Enabled(w, a) && !Gains(w, s, a, o)
    ensures Worth(w, Do(w, s, a), o) <= Worth(w, s, o)
  {
    hide Do, Worth, Gains;
    GainsExactlyWhenFree(w, s, a, o);
  }

  // ---------------------------------------------------------------------
  // Bounded delay of the wait queue
  // ---------------------------------------------------------------------

  /** Wherever block `n` still waits, it is due and has at most `k` entries before it. */
  ghost predicate Due(s: State, n: nat, k: int) {
    forall j :: 0 <= j < |s.wq| && s.wq[j].id == n ==> j <= k && s.wq[j].waittime <= s.now
  }

  /** The clock only advances, and no warp sets the timers into the future. */
  ghost predicate Calm(s: State, a: Action) {
    match a
    case Queue(_, _, _, _, _, clock) => s.now <= clock
    case SemWait(_, _, _, _, _, _, clock) => s.now <= clock
    case Tick(t) => s.now <= t
    case WarpTime(i) => -i <= s.now
    case _ => true
  }

  /** A pass of `do_second` that actually runs. */
  function Passes(s: State, a: Action): nat {
    if (a.Second? && s.dequeue) || a.WarpTime? then 1 else 0
  }

  lemma DueHalt(w: World, s: State, p: Dbref, ob: Dbref, n: nat, k: int)
    requires Due(s, n, k)
    ensures Due(HaltQue(w, s, p, ob), n, k)
  {
    var f := Not(Wanted(w, p, ob));
    PayBackQueues(w, Sweep(w, s, p, ob), Hits(w, s, p, ob), w.dbTop);
    forall i | 0 <= i < |Take(s.wq, f)| && Take(s.wq, f)[i].id == n
      ensures i <= k && Take(s.wq, f)[i].waittime <= s.now
    {
      var j := TakeIndex(s.wq, f, i);
    }
  }

  lemma DueInsert(s: State, e: Entry, n: nat, k: int)
    requires Due(s, n, k) && Sorted(s.wq) && e.id != n && s.now < e.waittime
    ensures Due(s.(wq := Insert(s.wq, e)), n, k)
  {
    InsertPlace(s.wq, e);
    var p := Place(s.wq, e);
    var a, b := s.wq[..p], s.wq[p..];
    forall j | 0 <= j < |b| ensures b[j].id != n {
      assert b[j] == s.wq[p + j] && s.wq[p].waittime <= s.wq[p + j].waittime;
    }
    SplitIndex(a, e, b);
    forall i | 0 <= i < |a + [e] + b| && (a + [e] + b)[i].id == n ensures i <= k && (a + [e] + b)[i].waittime <= s.now {
      assert i < p && (a + [e] + b)[i] == s.wq[i];
    }
  }

  lemma SplitIndex(a: seq<Entry>, e: Entry, b: seq<Entry>)
    ensures forall i :: 0 <= i < |a + [e] + b| ==>
              (a + [e] + b)[i] == if i < |a| then a[i] else if i == |a| then e else b[i - |a| - 1]
  {
  }

  lemma DueSetup(w: World, s: State, player: Dbref, coin: bool, n: nat, k: int)
    requires Due(s, n, k)
    ensures var s' := Setup(w, s, player, coin); Due(s', n, k) && s'.now == s.now && s'.nextId == s.nextId
  {
    if Judge(w, s, player, coin) == Runaway {
      var s1 := Charged(w, s, player, coin);
      DueHalt(w, s1, w.owner(player), NOTHING, n, k);
      PayBackQueues(w, Sweep(w, s1, w.owner(player), NOTHING), Hits(w, s1, w.owner(player), NOTHING), w.dbTop);
    }
  }

  lemma DueWaitQue(w: World, s: State, player: Dbref, cause: Dbref, wait: int, sem: Dbref, attr: int,
                   coin: bool, clock: int, n: nat, k: int)
    requires Due(s, n, k) && Shape(w, s) && n < s.nextId && s.now <= clock
    ensures Due(WaitQue(w, s, player, cause, wait, sem, attr, coin, clock), n, k)
  {
    if s.interp {
      DueSetup(w, s, player, coin, n, k);
      var s1 := Setup(w, s, player, coin);
      if Judge(w, s, player, coin) == Accepted {
        var s2 := s1.(nextId := s1.nextId + 1);
        var s' := WaitQue(w, s, player, cause, wait, sem, attr, coin, clock);
        if sem == NOTHING && wait > 0 {
          DueInsert(s2, Entry(s1.nextId, player, cause, clock + wait, sem, attr), n, k);
        } else {
          assert s'.wq == s1.wq && s'.now == s1.now;
        }
      }
    }
  }

  lemma DueSecond(w: World, s: State, n: nat, k: int)
    requires Due(s, n, k) && Sorted(s.wq)
    ensures Due(DoSecond(w, s), n, if s.dequeue then k - 1 else k)
  {
    SecondKeepsNext(w, s);
    if s.dequeue {
      if s.wq != [] && s.wq[0].waittime <= s.now {
        assert forall j :: 0 <= j < |s.wq[1..]| ==> s.wq[1..][j] == s.wq[j + 1];
      } else {
        forall j | 0 <= j < |s.wq| ensures s.wq[j].id != n {
          assert s.wq[0].waittime <= s.wq[j].waittime;
        }
      }
    }
  }

  lemma DueSemWait(w: World, s: State, a: Action, n: nat, k: int)
    requires Due(s, n, k) && Shape(w, s) && n < s.nextId && Calm(s, a) && a.SemWait?
    ensures Due(Do(w, s, a), n, k)
  {
    var s1 := s.(sem := Add(s.sem, (a.thing, a.attr), 1));
    if At(s1.sem, (a.thing, a.attr)) <= 0 {
      DueWaitQue(w, s1, a.player, a.cause, 0, NOTHING, a.attr, a.coin, a.clock, n, k);
    } else {
      DueWaitQue(w, s1, a.player, a.cause, a.howlong, a.thing, a.attr, a.coin, a.clock, n, k);
    }
  }

  lemma DueWarp(w: World, s: State, i: int, n: nat, k: int)
    requires Due(s, n, k) && -i <= s.now
    ensures Due(Warp(w, s, i), n, k - 1)
  {
    var s1 := s.(wq := WarpWait(s.wq, i), sq := WarpSem(s.sq, i), dequeue := true);
    assert forall j :: 0 <= j < |s.wq| ==> s1.wq[j] == Retimed(s.wq[j], -i, s.wq[j].sem);
    assert Due(s1, n, k);
    DueSecond(w, s1, n, k);
  }

  lemma DueNotify(w: World, s: State, sem: Dbref, attr: int, key: NotifyKey, count: int, n: nat, k: int)
    requires Due(s, n, k)
    ensures Due(NfyQue(w, s, sem, attr, key, count), n, k)
  {
    var r := NotifyScan(s, sem, attr, key, count);
    RefundQueues(w, s.(sq := r.1), r.0);
    GiveAllFrame(w, s.(sq := r.1), r.0);
  }

  /** Time passing makes nothing less due. */
  lemma DueLater(s: State, s': State, n: nat, k: int)
    requires Due(s, n, k) && s'.wq == s.wq && s.now <= s'.now
    ensures Due(s', n, k)
  {
  }

  lemma WaitSorted(w: World, s: State)
    requires Shape(w, s)
    ensures Sorted(s.wq)
  {
  }

  lemma DueDo(w: World, s: State, a: Action, n: nat, k: int)
    requires Due(s, n, k) && Shape(w, s) && n < s.nextId && Calm(s, a)
    ensures Due(Do(w, s, a), n, k - Passes(s, a)) && n < Do(w, s, a).nextId
  {
    hide WaitQue, HaltQue, NfyQue, DoSecond, Due, Shape;
    IdsStep(w, s, a, n);
    match a
    case Queue(player, cause, wait, qattr, coin, clock) =>
      DueWaitQue(w, s, player, cause, wait, NOTHING, qattr, coin, clock, n, k);
    case SemWait(_, _, _, _, _, _, _) => DueSemWait(w, s, a, n, k);
    case Notify(sem, attr, key, count) => DueNotify(w, s, sem, attr, key, count, n, k);
    case Halt(p, ob) => DueHalt(w, s, p, ob, n, k);
    case Destroyed(obj) =>
      DueHalt(w, s, NOTHING, obj, n, k);
      var s1 := HaltQue(w, s, NOTHING, obj);
      DueNotify(w, s1, obj, 0, Drain, 0, n, k);
      DueLater(NfyQue(w, s1, obj, 0, Drain, 0), Destroy(w, s, obj), n, k);
    case Second =>
      WaitSorted(w, s);
      DueSecond(w, s, n, k);
    case WarpTime(i) => DueWarp(w, s, i, n, k);
    case Tick(t) => DueLater(s, Do(w, s, a), n, k);
    case SetFlags(h, i, d) => DueLater(s, Do(w, s, a), n, k);
  }

  ghost predicate CalmAll(w: World, s: State, acts: seq<Action>)
    decreases |acts|
  {
    acts == [] || (Calm(s, acts[0]) && CalmAll(w, Do(w, s, acts[0]), acts[1..]))
  }

  ghost function PassesAll(w: World, s: State, acts: seq<Action>): nat
    decreases |acts|
  {
    if acts == [] then 0 else Passes(s, acts[0]) + PassesAll(w, Do(w, s, acts[0]), acts[1..])
  }

  /** Does this step run the commands of the head entry? */
  ghost predicate RunsHead(w: World, s: State) {
    s.pq != [] && Runnable(w, s.pq[0]) && s.pq[0].player !in s.halted
  }

  /** What one step of a run takes off the bound. */
  ghost function PassesStep(w: World, s: State, step: Step): nat {
    match step
    case Act(a) => Passes(s, a)
    case Top(cmds) => if RunsHead(w, s) then PassesAll(w, TopBegin(w, s), cmds) else 0
  }

  ghost predicate CalmStep(w: World, s: State, step: Step) {
    match step
    case Act(a) => Calm(s, a)
    case Top(cmds) => RunsHead(w, s) ==> CalmAll(w, TopBegin(w, s), cmds)
  }

  ghost predicate CalmRun(w: World, s: State, steps: seq<Step>)
    decreases |steps|
  {
    steps == [] || (CalmStep(w, s, steps[0]) && CalmRun(w, Next(w, s, steps[0]), steps[1..]))
  }

  ghost function PassesRun(w: World, s: State, steps: seq<Step>): nat
    decreases |steps|
  {
    if steps == [] then 0
    else PassesStep(w, s, steps[0]) + PassesRun(w, Next(w, s, steps[0]), steps[1..])
  }

  lemma {:induction false} DueDoAll(w: World, s: State, acts: seq<Action>, n: nat, k: int)
    requires Due(s, n, k) && Shape(w, s) && n < s.nextId && CalmAll(w, s, acts)
    requires forall a :: a in acts ==> Enabled(w, a)
    ensures Due(DoAll(w, s, acts), n, k - PassesAll(w, s, acts)) && n < DoAll(w, s, acts).nextId
    decreases |acts|
  {
    if acts != [] {
      assert acts[0] in acts;
      ShapeDo(w, s, acts[0]);
      DueDo(w, s, acts[0], n, k);
      DueDoAll(w, Do(w, s, acts[0]), acts[1..], n, k - Passes(s, acts[0]));
    }
  }

  lemma InvShape(w: World, s: State)
    requires Inv(w, s)
    ensures Shape(w, s)
  {
  }

  /** Beginning to run the head leaves the wait queue and the clock alone. */
  lemma TopWaits(w: World, s: State)
    requires s.pq != []
    ensures var s1 := TopBegin(w, s);
      s1.wq == s.wq && s1.now == s.now && s1.nextId == s.nextId && s1.halted == s.halted && s1.pq != []
  {
  }

  lemma DueTop(w: World, s: State, cmds: seq<Action>, n: nat, k: int)
    requires w.Sound() && Inv(w, s) && Due(s, n, k) && n < s.nextId && CalmStep(w, s, Top(cmds)) && StepEnabled(w, Top(cmds))
    ensures Due(Next(w, s, Top(cmds)), n, k - PassesStep(w, s, Top(cmds))) && n < Next(w, s, Top(cmds)).nextId
  {
    hide TopBegin, DoAll, Inv, Due, Shape, CalmAll, PassesAll;
    if RunsHead(w, s) {
      var s1 := TopBegin(w, s);
      InvTopBegin(w, s);
      InvShape(w, s1);
      TopWaits(w, s);
      DueLater(s, s1, n, k);
      DueDoAll(w, s1, cmds, n, k);
      DueLater(DoAll(w, s1, cmds), Next(w, s, Top(cmds)), n, k - PassesAll(w, s1, cmds));
    } else if s.pq != [] {
      TopWaits(w, s);
      DueLater(s, Next(w, s, Top(cmds)), n, k);
    }
  }

  lemma DueNext(w: World, s: State, step: Step, n: nat, k: int)
    requires w.Sound() && Inv(w, s) && Due(s, n, k) && n < s.nextId && CalmStep(w, s, step) && StepEnabled(w, step)
    ensures Due(Next(w, s, step), n, k - PassesStep(w, s, step)) && n < Next(w, s, step).nextId
  {
    match step {
      case Act(a) => DueDo(w, s, a, n, k);
      case Top(cmds) => DueTop(w, s, cmds, n, k);
    }
  }

  lemma {:induction false} DueRun(w: World, s: State, steps: seq<Step>, n: nat, k: int)
    requires w.Sound() && Inv(w, s) && Due(s, n, k) && n < s.nextId && CalmRun(w, s, steps)
    requires forall x :: x in steps ==> StepEnabled(w, x)
    ensures Due(Run(w, s, steps), n, k - PassesRun(w, s, steps))
    decreases |steps|
  {
    hide Inv, Due, CalmStep, PassesStep, Next;
    if steps != [] {
      assert steps[0] in steps;
      InvNext(w, s, steps[0]);
      DueNext(w, s, steps[0], n, k);
      DueRun(w, Next(w, s, steps[0]), steps[1..], n, k - PassesStep(w, s, steps[0]));
    }
  }

  lemma InvOnOne(w: World, s: State)
    requires Inv(w, s)
    ensures OnOneQueue(s)
  {
  }

  /** An expired entry with `k` entries before it has left the wait queue after
      `k + 1` passes, whatever else is queued, notified or halted meanwhile. */
  lemma BoundedDelay(w: World, s: State, steps: seq<Step>, k: nat)
    requires w.Sound() && Inv(w, s) && CalmRun(w, s, steps) && forall x :: x in steps ==> StepEnabled(w, x)
    requires k < |s.wq| && s.wq[k].waittime <= s.now
    requires PassesRun(w, s, steps) > k
    ensures forall e :: e in Run(w, s, steps).wq ==> e.id != s.wq[k].id
  {
    hide Run, PassesRun, CalmRun, Inv, OnOneQueue;
    var n := s.wq[k].id;
    InvOnOne(w, s);
    StartsDue(s, k);
    DueRun(w, s, steps, n, k);
  }

  /** The entry at position `k` is due, and its number has been handed out. */
  lemma StartsDue(s: State, k: nat)
    requires OnOneQueue(s) && k < |s.wq| && s.wq[k].waittime <= s.now
    ensures Due(s, s.wq[k].id, k) && s.wq[k].id < s.nextId
  {
    hide Take;
    var n := s.wq[k].id;
    assert s.wq == s.wq[..k] + [s.wq[k]] + s.wq[k + 1..];
    forall j | 0 <= j < |s.wq| && s.wq[j].id == n ensures j == k { OnlyOnce(s, j, k, n); }
    assert Total(s, HasId(n)) > 0 by { TakeIn(s.wq, HasId(n), s.wq[k]); }
  }

  lemma OnlyOnce(s: State, i: nat, j: nat, n: nat)
    requires OnOneQueue(s) && i < |s.wq| && j < |s.wq| && s.wq[i].id == n && s.wq[j].id == n
    ensures i == j
  {
    if i != j {
      var a, b := if i < j then i else j, if i < j then j else i;
      var f := HasId(n);
      assert s.wq == s.wq[..b] + s.wq[b..];
      TakeAppend(s.wq[..b], s.wq[b..], f);
      TakeIn(s.wq[..b], f, s.wq[..b][a]);
      TakeIn(s.wq[b..], f, s.wq[b..][0]);
    }
  }

  /** The bound is tight: a pass moves one expired entry, never two. */
  lemma OnePassOneEntry(w: World, s: State)
    ensures |DoSecond(w, s).wq| >= |s.wq| - 1
    ensures |s.wq| > 1 ==> s.wq[|s.wq| - 1] in DoSecond(w, s).wq
  {
    SecondKeepsNext(w, s);
  }
}
