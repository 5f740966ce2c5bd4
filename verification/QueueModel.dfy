/** The command queue of src/cque.c as a state machine over values.

    Every queue is a sequence of entries, the semaphore counters are a map from
    (object, attribute) to a number, and money and queue counts are maps from
    owners.  `CommandQueue` refines these functions with linked lists that are
    edited in place; `QueueLaws` proves what the server relies on. */
module QueueModel {
  import opened Constants
  import opened Wrappers

  type Dbref = int

  datatype NotifyKey = Nfy | NfyAll | Drain

  /** One queue block.  `id` is its identity: the address in the C program. */
  datatype Entry = Entry(id: nat, player: Dbref, cause: Dbref, waittime: int, sem: Dbref, attr: int)

  /** What the queue code reads of the rest of the server. */
  datatype World = World(
    ownerOf: Dbref -> Dbref,
    playerTest: Dbref -> bool,
    exemptTest: Dbref -> bool,
    goingTest: Dbref -> bool,
    limitOf: Dbref -> nat,
    dbTop: nat,
    waitcost: nat,
    machinecost: nat
  ) {
    function owner(x: Dbref): Dbref {
      ownerOf(x)
    }

    predicate isPlayer(x: Dbref) {
      playerTest(x)
    }

    predicate exempt(x: Dbref) {
      exemptTest(x)
    }

    predicate going(x: Dbref) {
      goingTest(x)
    }

    function queueMax(x: Dbref): nat {
      limitOf(x)
    }

    /** Owners are objects that own themselves, and the spare slot belongs to `GOD`. */
    ghost predicate Sound() {
      && owner(NOTHING) == GOD
      && (forall x {:trigger owner(x)} :: 0 <= owner(x) < dbTop && OwnsItself(owner(x)))
    }

    ghost predicate OwnsItself(o: Dbref) {
      owner(o) == o
    }

    /** Neither `payfor` nor `giveto` moves money for this object. */
    predicate Free(who: Dbref) {
      exempt(who) || exempt(owner(who))
    }
  }

  datatype State = State(
    pq: seq<Entry>,
    oq: seq<Entry>,
    wq: seq<Entry>,
    sq: seq<Entry>,
    sem: map<(Dbref, int), int>,
    money: map<Dbref, int>,
    count: map<Dbref, int>,
    halted: set<Dbref>,
    interp: bool,
    dequeue: bool,
    now: int,
    nextId: nat
  )

  function At<K>(m: map<K, int>, k: K): int {
    if k in m then m[k] else 0
  }

  function Add<K>(m: map<K, int>, k: K, d: int): map<K, int> {
    m[k := At(m, k) + d]
  }

  // ---------------------------------------------------------------------
  // Selecting entries
  // ---------------------------------------------------------------------

  /** The entries that satisfy `f`, in order. */
  function Take(q: seq<Entry>, f: Entry -> bool): seq<Entry> {
    if q == [] then []
    else
      var n := |q| - 1;
      var rest := Take(q[..n], f);
      if f(q[n]) then rest + [q[n]] else rest
  }

  function Not(f: Entry -> bool): Entry -> bool {
    (e: Entry) => !f(e)
  }

  function Size(q: seq<Entry>, f: Entry -> bool): nat {
    |Take(q, f)|
  }

  /** `que_want`: does a halt of this player or object apply to the entry? */
  function Wanted(w: World, ptarg: Dbref, otarg: Dbref): Entry -> bool {
    (e: Entry) =>
      && (ptarg != NOTHING ==> ptarg == w.owner(e.player))
      && (otarg != NOTHING ==> otarg == e.player)
  }

  /** Halted entries on the two run queues stay linked with their player wiped. */
  function Mark(q: seq<Entry>, f: Entry -> bool): seq<Entry> {
    if q == [] then []
    else
      var n := |q| - 1;
      Mark(q[..n], f) + [if f(q[n]) then q[n].(player := NOTHING) else q[n]]
  }

  /** Live entries charged to owner `o`. */
  function LiveOf(w: World, o: Dbref): Entry -> bool {
    (e: Entry) => e.player != NOTHING && w.owner(e.player) == o
  }

  function OwnedBy(w: World, o: Dbref): Entry -> bool {
    (e: Entry) => w.owner(e.player) == o
  }

  function WaitsOn(k: (Dbref, int)): Entry -> bool {
    (e: Entry) => (e.sem, e.attr) == k
  }

  // ---------------------------------------------------------------------
  // Money
  // ---------------------------------------------------------------------

  function GiveTo(w: World, money: map<Dbref, int>, who: Dbref, pennies: int): map<Dbref, int> {
    if w.Free(who) then money else Add(money, w.owner(who), pennies)
  }

  function PayFor(w: World, money: map<Dbref, int>, who: Dbref, cost: int): Option<map<Dbref, int>> {
    if w.Free(who) then Some(money)
    else if At(money, w.owner(who)) >= cost then Some(Add(money, w.owner(who), -cost))
    else None
  }

  // ---------------------------------------------------------------------
  // Queue primitives
  // ---------------------------------------------------------------------

  /** `give_que`: thread an entry onto the player or the object queue. */
  function GiveQue(w: World, s: State, e: Entry): State {
    var e' := e.(waittime := 0);
    if w.isPlayer(e.cause) then s.(pq := s.pq + [e']) else s.(oq := s.oq + [e'])
  }

  function GiveAll(w: World, s: State, es: seq<Entry>): State {
    if es == [] then s
    else
      var n := |es| - 1;
      GiveQue(w, GiveAll(w, s, es[..n]), es[n])
  }

  /** The counters after the waiters `es` have left their semaphores. */
  function Release(sem: map<(Dbref, int), int>, es: seq<Entry>): map<(Dbref, int), int> {
    if es == [] then sem
    else
      var n := |es| - 1;
      Add(Release(sem, es[..n]), (es[n].sem, es[n].attr), -1)
  }

  // ---------------------------------------------------------------------
  // halt_que
  // ---------------------------------------------------------------------

  /** Pay every owner below `i` back for its halted entries and zero its count. */
  function PayBack(w: World, s: State, hits: seq<Entry>, i: nat): State {
    if i == 0 then s
    else
      var s' := PayBack(w, s, hits, i - 1);
      var tally := Size(hits, OwnedBy(w, i - 1));
      if tally == 0 then s'
      else s'.(money := GiveTo(w, s'.money, i - 1, w.waitcost * tally), count := s'.count[i - 1 := 0])
  }

  /** The queues and counters once the halted entries are gone, before any refund. */
  function Sweep(w: World, s: State, player: Dbref, obj: Dbref): State {
    var f := Wanted(w, player, obj);
    s.(pq := Mark(s.pq, f), oq := Mark(s.oq, f), wq := Take(s.wq, Not(f)), sq := Take(s.sq, Not(f)),
       sem := Release(s.sem, Take(s.sq, f)))
  }

  function NumHalted(w: World, s: State, player: Dbref, obj: Dbref): nat {
    var f := Wanted(w, player, obj);
    Size(s.pq, f) + Size(s.oq, f) + Size(s.wq, f) + Size(s.sq, f)
  }

  function HaltQue(w: World, s: State, player: Dbref, obj: Dbref): State {
    var f := Wanted(w, player, obj);
    var s1 := Sweep(w, s, player, obj);
    if player == NOTHING && obj == NOTHING then
      PayBack(w, s1, Take(s.pq, f) + Take(s.oq, f) + Take(s.wq, f) + Take(s.sq, f), w.dbTop)
    else
      var n: int := NumHalted(w, s, player, obj);
      var p := if player == NOTHING then w.owner(obj) else player;
      var s2 := s1.(money := GiveTo(w, s1.money, p, w.waitcost * n));
      if obj == NOTHING then s2.(count := s2.count[p := 0]) else s2.(count := Add(s2.count, p, -n))
  }

  // ---------------------------------------------------------------------
  // nfy_que
  // ---------------------------------------------------------------------

  function Matches(sem: Dbref, attr: int): Entry -> bool {
    (e: Entry) => e.sem == sem && (attr == 0 || e.attr == attr)
  }

  /** One pass over the semaphore queue: the entries taken off and those kept.
      `left` is how many are still to be notified when the pass is limited; the
      limit is tested after each entry, so the first one is always looked at. */
  function Scan(q: seq<Entry>, hit: Entry -> bool, limited: bool, left: int): (r: (seq<Entry>, seq<Entry>))
  {
    if q == [] then ([], [])
    else
      var left' := if hit(q[0]) then left - 1 else left;
      var r := if limited && left' <= 0 then ([], q[1..]) else Scan(q[1..], hit, limited, left');
      if hit(q[0]) then ([q[0]] + r.0, r.1) else (r.0, [q[0]] + r.1)
  }

  /** Discard drained entries, refunding each and lowering its owner's count. */
  function Refund(w: World, s: State, es: seq<Entry>): State {
    if es == [] then s
    else
      var n := |es| - 1;
      var s' := Refund(w, s, es[..n]);
      s'.(money := GiveTo(w, s'.money, es[n].player, w.waitcost),
          count := Add(s'.count, w.owner(es[n].player), -1))
  }

  function Target(sem: Dbref, attr: int): (Dbref, int) {
    (sem, if attr != 0 then attr else A_SEMAPHORE)
  }

  /** The pass `nfy_que` makes, empty when the counter says nobody waits. */
  function NotifyScan(s: State, sem: Dbref, attr: int, key: NotifyKey, count: int): (seq<Entry>, seq<Entry>) {
    if attr == 0 || At(s.sem, (sem, attr)) > 0 then Scan(s.sq, Matches(sem, attr), key == Nfy, count)
    else ([], s.sq)
  }

  function NfyQue(w: World, s: State, sem: Dbref, attr: int, key: NotifyKey, count: int): State {
    var r := NotifyScan(s, sem, attr, key, count);
    var s1 := s.(sq := r.1);
    var s2 := if key == Drain then Refund(w, s1, r.0) else GiveAll(w, s1, r.0);
    var k := Target(sem, attr);
    s2.(sem := if key == Nfy then Add(s2.sem, k, -count) else s2.sem[k := 0])
  }

  /** The counters of an object go with its attributes. */
  function DropCounters(sem: map<(Dbref, int), int>, obj: Dbref): map<(Dbref, int), int> {
    map k | k in sem && k.0 != obj :: sem[k]
  }

  /** What destroying an object does here: its commands are halted, its waiters discarded
      whatever attribute they wait on, and then all its attributes freed. */
  function Destroy(w: World, s: State, obj: Dbref): State {
    var s2 := NfyQue(w, HaltQue(w, s, NOTHING, obj), obj, 0, Drain, 0);
    s2.(sem := DropCounters(s2.sem, obj))
  }

  // ---------------------------------------------------------------------
  // setup_que, wait_que, do_wait
  // ---------------------------------------------------------------------

  /** What queueing a command costs: the deposit and, when the coin says so, one more. */
  function Charge(w: World, coin: bool): int {
    w.waitcost + if w.waitcost != 0 && w.machinecost != 0 && coin then 1 else 0
  }

  datatype Verdict = Halted | Poor | Runaway | Accepted

  function Judge(w: World, s: State, player: Dbref, coin: bool): Verdict {
    if player in s.halted then Halted
    else if PayFor(w, s.money, player, Charge(w, coin)).None? then Poor
    else if At(s.count, w.owner(player)) + 1 > w.queueMax(w.owner(player)) then Runaway
    else Accepted
  }

  /** The tests of `setup_que` and what they change; the entry itself is made by the caller. */
  function Setup(w: World, s: State, player: Dbref, coin: bool): State {
    match Judge(w, s, player, coin)
    case Halted => s
    case Poor => s
    case Runaway =>
      var s1 := Charged(w, s, player, coin);
      var s2 := HaltQue(w, s1, w.owner(player), NOTHING);
      s2.(halted := s2.halted + {player})
    case Accepted => Charged(w, s, player, coin)
  }

  function Charged(w: World, s: State, player: Dbref, coin: bool): State
    requires PayFor(w, s.money, player, Charge(w, coin)).Some?
  {
    s.(money := PayFor(w, s.money, player, Charge(w, coin)).value, count := Add(s.count, w.owner(player), 1))
  }

  /** Insert into the wait queue behind every entry that is not later. */
  function Insert(q: seq<Entry>, e: Entry): seq<Entry> {
    if q == [] || q[0].waittime > e.waittime then [e] + q else [q[0]] + Insert(q[1..], e)
  }

  /** A new entry goes on the queue its semaphore or its wait calls for. */
  function Enqueue(w: World, s: State, e: Entry, wait: int): State {
    if e.sem != NOTHING then s.(sq := s.sq + [e])
    else if wait <= 0 then GiveQue(w, s, e)
    else s.(wq := Insert(s.wq, e))
  }

  function WaitQue(w: World, s: State, player: Dbref, cause: Dbref, wait: int, sem: Dbref, attr: int,
                   coin: bool, clock: int): State {
    if !s.interp then s
    else
      var s1 := Setup(w, s, player, coin);
      if Judge(w, s, player, coin) != Accepted then s1
      else
        var e := Entry(s1.nextId, player, cause, if wait != 0 then clock + wait else 0, sem, attr);
        Enqueue(w, s1.(nextId := s1.nextId + 1), e, wait)
  }

  /** `do_wait` once its target is resolved: count the waiter, then queue it. */
  function DoWait(w: World, s: State, player: Dbref, cause: Dbref, thing: Dbref, attr: int, howlong: int,
                  coin: bool, clock: int): State {
    var s1 := s.(sem := Add(s.sem, (thing, attr), 1));
    if At(s1.sem, (thing, attr)) <= 0 then WaitQue(w, s1, player, cause, 0, NOTHING, attr, coin, clock)
    else WaitQue(w, s1, player, cause, howlong, thing, attr, coin, clock)
  }

  // ---------------------------------------------------------------------
  // do_second and the timer warp
  // ---------------------------------------------------------------------

  function Expired(now: int): Entry -> bool {
    (e: Entry) => e.waittime != 0 && e.waittime <= now
  }

  /** Timed-out semaphore waiters give their place back and run. */
  function TimeOut(w: World, s: State, es: seq<Entry>): State {
    if es == [] then s
    else
      var n := |es| - 1;
      var s' := TimeOut(w, s, es[..n]);
      GiveQue(w, s'.(sem := Add(s'.sem, Target(es[n].sem, es[n].attr), -1)), es[n].(sem := NOTHING))
  }

  function MergeObjectQueue(s: State): State {
    s.(pq := s.pq + s.oq, oq := [])
  }

  /** `give_que` clears the link the loop is about to follow, so one entry moves at most. */
  function ReleaseWaiting(w: World, s: State): State {
    if s.wq != [] && s.wq[0].waittime <= s.now then GiveQue(w, s.(wq := s.wq[1..]), s.wq[0]) else s
  }

  function ReleaseTimedOut(w: World, s: State): State {
    TimeOut(w, s.(sq := Take(s.sq, Not(Expired(s.now)))), Take(s.sq, Expired(s.now)))
  }

  function DoSecond(w: World, s: State): State {
    if !s.dequeue then s
    else ReleaseTimedOut(w, ReleaseWaiting(w, MergeObjectQueue(s)))
  }

  function WarpWait(q: seq<Entry>, i: int): seq<Entry> {
    seq(|q|, j requires 0 <= j < |q| => q[j].(waittime := -i))
  }

  function WarpTimeout(t: int, i: int): int {
    if t > 0 then if t - i <= 0 then -1 else t - i else t
  }

  function WarpSem(q: seq<Entry>, i: int): seq<Entry> {
    seq(|q|, j requires 0 <= j < |q| => q[j].(waittime := WarpTimeout(q[j].waittime, i)))
  }

  /** `do_queue` with the warp key: shift the timers, then run `do_second`. */
  function Warp(w: World, s: State, i: int): State {
    var s1 := s.(wq := WarpWait(s.wq, i), sq := WarpSem(s.sq, i), dequeue := true);
    DoSecond(w, s1).(dequeue := s.dequeue)
  }

  // ---------------------------------------------------------------------
  // Actions and steps
  // ---------------------------------------------------------------------

  datatype Action =
    | Queue(player: Dbref, cause: Dbref, wait: int, qattr: int, coin: bool, clock: int)
    | SemWait(player: Dbref, cause: Dbref, thing: Dbref, attr: int, howlong: int, coin: bool, clock: int)
    | Notify(sem: Dbref, attr: int, key: NotifyKey, count: int)
    | Halt(ptarg: Dbref, otarg: Dbref)
    | Destroyed(obj: Dbref)
    | Second
    | WarpTime(shift: int)
    | Tick(time: int)
    | SetFlags(halted: set<Dbref>, interp: bool, dequeue: bool)

  /** A queued command may itself perform actions, but does not run the queue again. */
  datatype Step = Act(a: Action) | Top(cmds: seq<Action>)

  function Do(w: World, s: State, a: Action): State {
    match a
    case Queue(player, cause, wait, qattr, coin, clock) =>
      WaitQue(w, s, player, cause, wait, NOTHING, qattr, coin, clock)
    case SemWait(player, cause, thing, attr, howlong, coin, clock) =>
      DoWait(w, s, player, cause, thing, attr, howlong, coin, clock)
    case Notify(sem, attr, key, count) => NfyQue(w, s, sem, attr, key, count)
    case Halt(ptarg, otarg) => HaltQue(w, s, ptarg, otarg)
    case Destroyed(obj) => Destroy(w, s, obj)
    case Second => DoSecond(w, s)
    case WarpTime(i) => Warp(w, s, i)
    case Tick(t) => s.(now := t)
    case SetFlags(h, i, d) => s.(halted := h, interp := i, dequeue := d)
  }

  function DoAll(w: World, s: State, acts: seq<Action>): State
    decreases |acts|
  {
    if acts == [] then s else DoAll(w, Do(w, s, acts[0]), acts[1..])
  }

  /** Does the entry at the head still stand for a command to run? */
  predicate Runnable(w: World, e: Entry) {
    e.player >= 0 && !w.going(e.player)
  }

  /** Return the deposit, lower the count and wipe the player of the head entry. */
  function TopBegin(w: World, s: State): State
    requires s.pq != []
  {
    var e := s.pq[0];
    if Runnable(w, e) then
      s.(money := GiveTo(w, s.money, e.player, w.waitcost),
         count := Add(s.count, w.owner(e.player), -1),
         pq := s.pq[0 := e.(player := NOTHING)])
    else s
  }

  function TopEnd(s: State): State {
    if s.pq == [] then s else s.(pq := s.pq[1..])
  }

  /** One turn of the `do_top` loop, running `cmds` when the head is live and not halted.
      Whether dequeuing is on at all is tested once, before the loop. */
  function DoTop(w: World, s: State, cmds: seq<Action>): State {
    if s.pq == [] then s
    else
      var e := s.pq[0];
      var s1 := TopBegin(w, s);
      TopEnd(if Runnable(w, e) && e.player !in s1.halted then DoAll(w, s1, cmds) else s1)
  }

  function Next(w: World, s: State, step: Step): State {
    match step
    case Act(a) => Do(w, s, a)
    case Top(cmds) => DoTop(w, s, cmds)
  }

  function Run(w: World, s: State, steps: seq<Step>): State
    decreases |steps|
  {
    if steps == [] then s else Run(w, Next(w, s, steps[0]), steps[1..])
  }

  function Start(money: map<Dbref, int>, sem: map<(Dbref, int), int>): State {
    State([], [], [], [], sem, money, map[], {}, true, true, 0, 0)
  }
}
