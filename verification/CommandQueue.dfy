/** The command queue as src/cque.c keeps it: four linked lists of queue blocks,
    updated in place.  Every method is proved to compute the function of the same
    name in `QueueModel`, so the laws of `QueueLaws`, `QueueAccounts` and
    `QueueRuns` hold of what this class does. */
module CommandQueue {
  import opened Constants
  import opened QueueModel
  import opened BlockList
  import Laws = QueueLaws
  import Counting = QueueCounting

  // A pass over a queue `v` has looked at `j` entries: what the list holds by then,
  // where the cursor is, how many entries were wanted, and which.

  ghost function Left(v: seq<Entry>, j: nat, f: Entry -> bool): seq<Entry>
    requires j <= |v|
  {
    Take(v[..j], Not(f)) + v[j..]
  }

  ghost function Cursor(v: seq<Entry>, j: nat, f: Entry -> bool): nat
    requires j <= |v|
  {
    Size(v[..j], Not(f))
  }

  ghost function Marked(v: seq<Entry>, j: nat, f: Entry -> bool): seq<Entry>
    requires j <= |v|
  {
    Mark(v[..j], f) + v[j..]
  }

  ghost function Wants(v: seq<Entry>, j: nat, f: Entry -> bool): seq<Entry>
    requires j <= |v|
  {
    Take(v[..j], f)
  }

  lemma Begin(v: seq<Entry>, f: Entry -> bool, before: seq<Entry>)
    ensures Left(v, 0, f) == v && Cursor(v, 0, f) == 0 && Marked(v, 0, f) == v && Wants(v, 0, f) == []
    ensures before + Wants(v, 0, f) == before
  {
  }

  lemma Finish(v: seq<Entry>, f: Entry -> bool)
    ensures Left(v, |v|, f) == Take(v, Not(f)) && Marked(v, |v|, f) == Mark(v, f) && Wants(v, |v|, f) == Take(v, f)
    ensures Cursor(v, |v|, f) == |Left(v, |v|, f)|
  {
    assert v[..|v|] == v && v[|v|..] == [];
  }

  lemma Looking(v: seq<Entry>, j: nat, f: Entry -> bool)
    requires j <= |v|
    ensures |Left(v, j, f)| == Cursor(v, j, f) + |v| - j && (j < |v| ==> Left(v, j, f)[Cursor(v, j, f)] == v[j])
    ensures |Marked(v, j, f)| == |v| && (j < |v| ==> Marked(v, j, f)[j] == v[j])
  {
    Counting.MarkIndex(v[..j], f);
  }

  lemma Unwanted(v: seq<Entry>, j: nat, f: Entry -> bool)
    requires j < |v| && !f(v[j])
    ensures Left(v, j + 1, f) == Left(v, j, f) && Cursor(v, j + 1, f) == Cursor(v, j, f) + 1
    ensures Wants(v, j + 1, f) == Wants(v, j, f) && Marked(v, j + 1, f) == Marked(v, j, f)
  {
    assert v[..j + 1][..j] == v[..j];
  }

  lemma Hit(v: seq<Entry>, j: nat, f: Entry -> bool, before: seq<Entry>)
    requires j < |v| && f(v[j])
    ensures var q := Left(v, j, f); var i := Cursor(v, j, f);
      i < |q| && Left(v, j + 1, f) == q[..i] + q[i + 1..] && Cursor(v, j + 1, f) == i
    ensures Wants(v, j + 1, f) == Wants(v, j, f) + [v[j]]
    ensures before + Wants(v, j + 1, f) == before + Wants(v, j, f) + [v[j]]
    ensures |Marked(v, j, f)| == |v| && Marked(v, j + 1, f) == Marked(v, j, f)[j := v[j].(player := NOTHING)]
  {
    assert v[..j + 1][..j] == v[..j];
    Counting.MarkIndex(v[..j], f);
  }

  lemma ReleaseNone(m: map<(Dbref, int), int>)
    ensures Release(m, []) == m
  {
  }

  lemma ReleaseSnoc(m: map<(Dbref, int), int>, t: seq<Entry>, e: Entry)
    ensures Release(m, t + [e]) == Add(Release(m, t), (e.sem, e.attr), -1)
  {
    assert (t + [e])[..|t|] == t;
  }

  // The state part-way through a pass of `nfy_que`.

  ghost function Moved(w: World, s: State, taken: seq<Entry>, drain: bool, rest: seq<Entry>): State {
    (if drain then Refund(w, s, taken) else GiveAll(w, s, taken)).(sq := rest)
  }

  /** An entry off the semaphore queue is discarded or queued to run. */
  ghost function Dispatched(w: World, m: State, e: Entry, drain: bool): State {
    if drain then m.(money := GiveTo(w, m.money, e.player, w.waitcost), count := Add(m.count, w.owner(e.player), -1))
    else QueueModel.GiveQue(w, m, e)
  }

  lemma MoveOne(w: World, s: State, taken: seq<Entry>, drain: bool, rest: seq<Entry>, e: Entry, rest': seq<Entry>)
    ensures Moved(w, s, taken + [e], drain, rest') == Dispatched(w, Moved(w, s, taken, drain, rest).(sq := rest'), e, drain)
  {
    assert (taken + [e])[..|taken|] == taken;
    if drain {
      assert Refund(w, s, taken + [e]) == (var m := Refund(w, s, taken);
        m.(money := GiveTo(w, m.money, e.player, w.waitcost), count := Add(m.count, w.owner(e.player), -1)));
    } else {
      assert GiveAll(w, s, taken + [e]) == QueueModel.GiveQue(w, GiveAll(w, s, taken), e);
    }
  }

  lemma MoveNone(w: World, s: State, drain: bool)
    ensures Moved(w, s, [], drain, s.sq) == s
  {
  }

  lemma MovedAll(w: World, s: State, taken: seq<Entry>, drain: bool, rest: seq<Entry>)
    ensures Moved(w, s, taken, drain, rest) ==
      if drain then Refund(w, s.(sq := rest), taken) else GiveAll(w, s.(sq := rest), taken)
  {
    GiveAllSq(w, s, taken, rest);
    RefundSq(w, s, taken, rest);
  }

  lemma NotifyCases(w: World, s: State, sem: Dbref, attr: int, key: NotifyKey, count: int)
    ensures var r := NotifyScan(s, sem, attr, key, count); var k := Target(sem, attr);
      var m := Moved(w, s, r.0, key == Drain, r.1);
      QueueModel.NfyQue(w, s, sem, attr, key, count) == m.(sem := if key == Nfy then Add(m.sem, k, -count) else m.sem[k := 0])
    ensures !(attr == 0 || At(s.sem, (sem, attr)) > 0) ==> Moved(w, s, [], key == Drain, s.sq) == s
  {
    hide Scan, Refund, GiveAll, Moved;
    var r := NotifyScan(s, sem, attr, key, count);
    MovedAll(w, s, r.0, key == Drain, r.1);
    MoveNone(w, s, key == Drain);
  }

  /** What a pass of `nfy_que` still has to do, as a function of where it stands. */
  ghost function Pending(v: seq<Entry>, hit: Entry -> bool, limited: bool, left: int, stop: bool): (seq<Entry>, seq<Entry>) {
    if stop then ([], v) else Scan(v, hit, limited, left)
  }

  /** Entries taken and kept so far, with what is pending on `rest`, make up the whole pass. */
  ghost predicate Joins(total: (seq<Entry>, seq<Entry>), taken: seq<Entry>, kept: seq<Entry>, rest: seq<Entry>,
                        hit: Entry -> bool, limited: bool, left: int, stop: bool) {
    var r := Pending(rest, hit, limited, left, stop);
    total.0 == taken + r.0 && total.1 == kept + r.1
  }

  lemma JoinStart(v: seq<Entry>, hit: Entry -> bool, limited: bool, left: int)
    ensures Joins(Scan(v, hit, limited, left), [], [], v, hit, limited, left, false)
  {
  }

  lemma JoinHit(total: (seq<Entry>, seq<Entry>), taken: seq<Entry>, kept: seq<Entry>, rest: seq<Entry>,
                hit: Entry -> bool, limited: bool, left: int)
    requires rest != [] && hit(rest[0]) && Joins(total, taken, kept, rest, hit, limited, left, false)
    ensures Joins(total, taken + [rest[0]], kept, rest[1..], hit, limited, left - 1, limited && left - 1 <= 0)
  {
  }

  lemma JoinMiss(total: (seq<Entry>, seq<Entry>), taken: seq<Entry>, kept: seq<Entry>, rest: seq<Entry>,
                 hit: Entry -> bool, limited: bool, left: int)
    requires rest != [] && !hit(rest[0]) && Joins(total, taken, kept, rest, hit, limited, left, false)
    ensures Joins(total, taken, kept + [rest[0]], rest[1..], hit, limited, left, limited && left <= 0)
  {
  }

  lemma JoinEnd(total: (seq<Entry>, seq<Entry>), taken: seq<Entry>, kept: seq<Entry>, rest: seq<Entry>,
                hit: Entry -> bool, limited: bool, left: int, stop: bool)
    requires (stop || rest == []) && Joins(total, taken, kept, rest, hit, limited, left, stop)
    ensures total == (taken, kept + rest)
  {
    assert Pending(rest, hit, limited, left, stop) == ([], rest);
    assert taken + [] == taken;
  }

  /** Part-way through a pass: the state is `s0` with the entries taken so far dispatched, and the
      queue holds what was kept and what is still to be looked at. */
  ghost predicate Passing(w: World, s0: State, s: State, total: (seq<Entry>, seq<Entry>), taken: seq<Entry>, kept: seq<Entry>,
                          rest: seq<Entry>, hit: Entry -> bool, drain: bool, limited: bool, left: int, stop: bool) {
    s == Moved(w, s0, taken, drain, kept + rest) && Joins(total, taken, kept, rest, hit, limited, left, stop)
  }

  lemma PassStart(w: World, s0: State, hit: Entry -> bool, drain: bool, limited: bool, left: int)
    ensures Passing(w, s0, s0, Scan(s0.sq, hit, limited, left), [], [], s0.sq, hit, drain, limited, left, false)
  {
    MoveNone(w, s0, drain);
    JoinStart(s0.sq, hit, limited, left);
    assert [] + s0.sq == s0.sq;
  }

  lemma PassCut(w: World, s0: State, s: State, total: (seq<Entry>, seq<Entry>), taken: seq<Entry>, kept: seq<Entry>,
                rest: seq<Entry>, hit: Entry -> bool, drain: bool, limited: bool, left: int, stop: bool)
    requires Passing(w, s0, s, total, taken, kept, rest, hit, drain, limited, left, stop)
    ensures |s.sq| == |kept| + |rest| && (rest != [] ==> s.sq[|kept|] == rest[0])
  {
    hide Refund, GiveAll, Joins;
  }

  lemma PassHit(w: World, s0: State, s: State, s': State, total: (seq<Entry>, seq<Entry>), taken: seq<Entry>,
                kept: seq<Entry>, rest: seq<Entry>, hit: Entry -> bool, drain: bool, limited: bool, left: int)
    requires Passing(w, s0, s, total, taken, kept, rest, hit, drain, limited, left, false) && rest != [] && hit(rest[0])
    requires |kept| < |s.sq|
    requires s' == Dispatched(w, s.(sq := s.sq[..|kept|] + s.sq[|kept| + 1..]), rest[0], drain)
    ensures Passing(w, s0, s', total, taken + [rest[0]], kept, rest[1..], hit, drain, limited, left - 1, limited && left - 1 <= 0)
  {
    hide Refund, GiveAll, Joins, Dispatched;
    JoinHit(total, taken, kept, rest, hit, limited, left);
    MoveOne(w, s0, taken, drain, kept + rest, rest[0], kept + rest[1..]);
    assert (kept + rest)[..|kept|] + (kept + rest)[|kept| + 1..] == kept + rest[1..];
  }

  lemma PassMiss(w: World, s0: State, s: State, total: (seq<Entry>, seq<Entry>), taken: seq<Entry>, kept: seq<Entry>,
                 rest: seq<Entry>, hit: Entry -> bool, drain: bool, limited: bool, left: int)
    requires Passing(w, s0, s, total, taken, kept, rest, hit, drain, limited, left, false) && rest != [] && !hit(rest[0])
    ensures Passing(w, s0, s, total, taken, kept + [rest[0]], rest[1..], hit, drain, limited, left, limited && left <= 0)
  {
    hide Moved, Joins;
    JoinMiss(total, taken, kept, rest, hit, limited, left);
    assert kept + rest == kept + [rest[0]] + rest[1..];
  }

  lemma PassEnd(w: World, s0: State, s: State, total: (seq<Entry>, seq<Entry>), taken: seq<Entry>, kept: seq<Entry>,
                rest: seq<Entry>, hit: Entry -> bool, drain: bool, limited: bool, left: int, stop: bool)
    requires Passing(w, s0, s, total, taken, kept, rest, hit, drain, limited, left, stop)
    requires stop || |kept| == |s.sq|
    ensures s == Moved(w, s0, total.0, drain, total.1) && |taken| == |total.0|
  {
    PassCut(w, s0, s, total, taken, kept, rest, hit, drain, limited, left, stop);
    hide Moved, Joins;
    JoinEnd(total, taken, kept, rest, hit, limited, left, stop);
  }

  lemma {:induction false} GiveAllSq(w: World, s: State, es: seq<Entry>, q: seq<Entry>)
    ensures GiveAll(w, s.(sq := q), es) == GiveAll(w, s, es).(sq := q)
  {
    if es != [] { GiveAllSq(w, s, es[..|es| - 1], q); }
  }

  lemma {:induction false} RefundSq(w: World, s: State, es: seq<Entry>, q: seq<Entry>)
    ensures Refund(w, s.(sq := q), es) == Refund(w, s, es).(sq := q)
  {
    if es != [] { RefundSq(w, s, es[..|es| - 1], q); }
  }

  lemma {:induction false} TimeOutSq(w: World, s: State, es: seq<Entry>, q: seq<Entry>)
    ensures TimeOut(w, s.(sq := q), es) == TimeOut(w, s, es).(sq := q)
  {
    if es != [] { TimeOutSq(w, s, es[..|es| - 1], q); }
  }

  /** The refund of one owner's halted entries. */
  ghost function Settled(w: World, s: State, player: Dbref, otarg: Dbref, n: int): State {
    var s1 := s.(money := GiveTo(w, s.money, player, w.waitcost * n));
    if otarg == NOTHING then s1.(count := s1.count[player := 0]) else s1.(count := Add(s1.count, player, -n))
  }

  lemma HaltCases(w: World, s: State, player: Dbref, obj: Dbref)
    ensures var f := Wanted(w, player, obj); var s1 := Sweep(w, s, player, obj);
      QueueModel.HaltQue(w, s, player, obj) ==
      if player == NOTHING && obj == NOTHING then
        PayBack(w, s1, Take(s.pq, f) + Take(s.oq, f) + Take(s.wq, f) + Take(s.sq, f), w.dbTop)
      else Settled(w, s1, if player == NOTHING then w.owner(obj) else player, obj, NumHalted(w, s, player, obj))
  {
    hide Take, Sweep, PayBack, NumHalted;
  }

  class Queues {
    const w: World

    const playerQ: List
    const objectQ: List
    const waitQ: List
    const semQ: List

    var sem: map<(Dbref, int), int>
    var money: map<Dbref, int>
    var count: map<Dbref, int>
    var halted: set<Dbref>
    var interp: bool
    var dequeue: bool
    var now: int
    ghost var nextId: nat

    /** Four well-formed lists with no block in common. */
    ghost predicate Valid()
      reads playerQ, objectQ, waitQ, semQ, playerQ.Repr, objectQ.Repr, waitQ.Repr, semQ.Repr
    {
      && playerQ.Valid() && objectQ.Valid() && waitQ.Valid() && semQ.Valid()
      && playerQ.Repr !! objectQ.Repr && playerQ.Repr !! waitQ.Repr && playerQ.Repr !! semQ.Repr
      && objectQ.Repr !! waitQ.Repr && objectQ.Repr !! semQ.Repr && waitQ.Repr !! semQ.Repr
      && this !in playerQ.Repr && this !in objectQ.Repr && this !in waitQ.Repr && this !in semQ.Repr
    }

    ghost function Repr(): set<object>
      reads playerQ, objectQ, waitQ, semQ
    {
      {this} + playerQ.Repr + objectQ.Repr + waitQ.Repr + semQ.Repr
    }

    lemma Apart()
      requires Valid()
      ensures this !in playerQ.Repr && this !in objectQ.Repr && this !in waitQ.Repr && this !in semQ.Repr
      ensures playerQ in playerQ.Repr && objectQ in objectQ.Repr && waitQ in waitQ.Repr && semQ in semQ.Repr
      ensures semQ.Valid()
    {}

    /** The state of `QueueModel` this heap stands for. */
    ghost function St(): State
      reads this, playerQ, objectQ, waitQ, semQ
    {
      State(playerQ.vals, objectQ.vals, waitQ.vals, semQ.vals, sem, money, count, halted, interp, dequeue, now, nextId)
    }

    constructor (w: World, money: map<Dbref, int>, sem: map<(Dbref, int), int>)
      ensures Valid() && fresh(Repr()) && this.w == w && St() == Start(money, sem)
    {
      hide List.Valid;
      this.w, this.money, this.sem := w, money, sem;
      count, halted, interp, dequeue, now, nextId := map[], {}, true, true, 0, 0;
      playerQ := new List();
      objectQ := new List();
      waitQ := new List();
      semQ := new List();
    }

    method GiveQue(tmp: Bque)
      requires Valid() && tmp !in Repr()
      modifies playerQ.Repr, objectQ.Repr, tmp
      ensures Valid() && Repr() == old(Repr()) + {tmp}
      ensures St() == QueueModel.GiveQue(w, old(St()), old(tmp.Val())) && tmp.next == null
      ensures old(playerQ.nodes) <= playerQ.nodes && semQ.nodes == old(semQ.nodes) && semQ.vals == old(semQ.vals)
    {
      hide List.Valid;
      tmp.next := null;
      tmp.waittime := 0;
      if w.isPlayer(tmp.cause) {
        playerQ.Append(tmp);
      } else {
        objectQ.Append(tmp);
      }
    }

    method AddTo(obj: Dbref, am: int, attr: int) returns (num: int)
      modifies this`sem
      ensures sem == Add(old(sem), (obj, attr), am) && num == At(sem, (obj, attr))
    {
      num := At(sem, (obj, attr)) + am;
      sem := sem[(obj, attr) := num];
    }

    method Give(who: Dbref, pennies: int)
      modifies this`money
      ensures money == GiveTo(w, old(money), who, pennies)
    {
      if !w.Free(who) {
        money := Add(money, w.owner(who), pennies);
      }
    }

    method Pay(who: Dbref, cost: int) returns (ok: bool)
      modifies this`money
      ensures ok == PayFor(w, old(money), who, cost).Some?
      ensures money == if ok then PayFor(w, old(money), who, cost).value else old(money)
    {
      ok := true;
      if !w.Free(who) {
        if At(money, w.owner(who)) >= cost {
          money := Add(money, w.owner(who), -cost);
        } else {
          ok := false;
        }
      }
    }

    // -------------------------------------------------------------------
    // halt_que
    // -------------------------------------------------------------------

    /** `que_want` */
    predicate QueWant(e: Bque, ptarg: Dbref, otarg: Dbref)
      reads e
      ensures QueWant(e, ptarg, otarg) == Wanted(w, ptarg, otarg)(e.Val())
    {
      if ptarg != NOTHING && ptarg != w.owner(e.player) then false
      else if otarg != NOTHING && otarg != e.player then false
      else true
    }

    ghost predicate Tallied(tallies: array<int>, hits: seq<Entry>)
      reads tallies
    {
      forall i :: 0 <= i < tallies.Length ==> tallies[i] == Size(hits, OwnedBy(w, i))
    }

    lemma TallyNothing(tallies: array<int>)
      ensures (forall i :: 0 <= i < tallies.Length ==> tallies[i] == 0) ==> Tallied(tallies, [])
    {
    }

    /** Tally a halted entry for its owner when everything is halted. */
    method Tally(tallies: array<int>, e: Bque, all: bool, ghost hits: seq<Entry>)
      requires w.Sound()
      requires all ==> tallies.Length == w.dbTop && Tallied(tallies, hits)
      modifies tallies
      ensures all ==> Tallied(tallies, hits + [e.Val()])
    {
      if all {
        var o := w.owner(e.player);
        tallies[o] := tallies[o] + 1;
        forall i ensures Size(hits + [e.Val()], OwnedBy(w, i)) == Size(hits, OwnedBy(w, i)) + if o == i then 1 else 0 {
          Counting.TakeSnoc(hits, e.Val(), OwnedBy(w, i));
        }
      }
    }

    /** Wipe every wanted entry of a run queue, counting them. */
    method HaltRunQueue(q: List, ptarg: Dbref, otarg: Dbref, tallies: array<int>, all: bool, ghost before: seq<Entry>)
      returns (n: nat)
      requires w.Sound() && q.Valid() && tallies !in q.Repr && this !in q.Repr
      requires all ==> tallies.Length == w.dbTop && Tallied(tallies, before)
      modifies q.Repr, tallies
      ensures q.Valid() && q.Repr == old(q.Repr) && q.nodes == old(q.nodes)
      ensures var f := Wanted(w, ptarg, otarg);
        q.vals == Mark(old(q.vals), f) && n == Size(old(q.vals), f)
        && (all ==> Tallied(tallies, before + Take(old(q.vals), f)))
    {
      hide Take, Left, Cursor, Marked, Wants, List.Valid;
      ghost var f := Wanted(w, ptarg, otarg);
      ghost var v0 := q.vals;
      n := 0;
      q.Start();
      var point := q.first;
      ghost var j := 0;
      Begin(v0, f, before);
      while point != null
        invariant q.Valid() && q.Repr == old(q.Repr) && q.nodes == old(q.nodes)
        invariant 0 <= j <= |v0| && q.Holds(j, point)
        invariant q.vals == Marked(v0, j, f) && n == |Wants(v0, j, f)|
        invariant all ==> Tallied(tallies, before + Wants(v0, j, f))
        decreases |v0| - j
      {
        q.Next(j);
        Looking(v0, j, f);
        if QueWant(point, ptarg, otarg) {
          Hit(v0, j, f, before);
          n := n + 1;
          Tally(tallies, point, all, before + Wants(v0, j, f));
          q.Wipe(point, j);
        } else {
          Unwanted(v0, j, f);
        }
        q.Next(j);
        point := point.next;
        j := j + 1;
      }
      Looking(v0, j, f);
      Finish(v0, f);
    }

    /** Free every wanted entry of the wait queue. */
    method HaltWaitQueue(ptarg: Dbref, otarg: Dbref, tallies: array<int>, all: bool, ghost before: seq<Entry>)
      returns (n: nat)
      requires w.Sound() && waitQ.Valid() && tallies !in waitQ.Repr && this !in waitQ.Repr
      requires all ==> tallies.Length == w.dbTop && Tallied(tallies, before)
      modifies waitQ.Repr, tallies
      ensures waitQ.Valid() && waitQ.Repr <= old(waitQ.Repr)
      ensures var f := Wanted(w, ptarg, otarg); var v0 := old(waitQ.vals);
        waitQ.vals == Take(v0, Not(f)) && n == Size(v0, f) && (all ==> Tallied(tallies, before + Take(v0, f)))
    {
      hide Take, Left, Cursor, Marked, Wants, List.Valid;
      ghost var f := Wanted(w, ptarg, otarg);
      ghost var v0 := waitQ.vals;
      n := 0;
      waitQ.Start();
      var trail: Bque?, point := null, waitQ.first;
      ghost var i, j := 0, 0;
      Begin(v0, f, before);
      while point != null
        invariant waitQ.Valid() && waitQ.Repr <= old(waitQ.Repr) && 0 <= j <= |v0|
        invariant waitQ.Holds(i, point) && if i == 0 then trail == null else waitQ.Holds(i - 1, trail)
        invariant waitQ.vals == Left(v0, j, f) && i == Cursor(v0, j, f) && n == |Wants(v0, j, f)|
        invariant all ==> Tallied(tallies, before + Wants(v0, j, f))
        decreases |v0| - j
      {
        Looking(v0, j, f);
        waitQ.Next(i);
        if QueWant(point, ptarg, otarg) {
          Hit(v0, j, f, before);
          n := n + 1;
          Tally(tallies, point, all, before + Wants(v0, j, f));
          point := waitQ.Unlink(trail, point, i);
        } else {
          Unwanted(v0, j, f);
          trail := point;
          point := point.next;
          i := i + 1;
        }
        j := j + 1;
      }
      Looking(v0, j, f);
      Finish(v0, f);
    }

    /** Free every wanted entry of the semaphore queue and give its place back. */
    method HaltSemQueue(ptarg: Dbref, otarg: Dbref, tallies: array<int>, all: bool, ghost before: seq<Entry>)
      returns (n: nat)
      requires w.Sound() && semQ.Valid() && tallies !in semQ.Repr && this !in semQ.Repr
      requires all ==> tallies.Length == w.dbTop && Tallied(tallies, before)
      modifies semQ.Repr, tallies, this`sem
      ensures semQ.Valid() && semQ.Repr <= old(semQ.Repr)
      ensures var f := Wanted(w, ptarg, otarg); var v0 := old(semQ.vals);
        semQ.vals == Take(v0, Not(f)) && n == Size(v0, f) && (all ==> Tallied(tallies, before + Take(v0, f)))
        && sem == Release(old(sem), Take(v0, f))
    {
      hide Take, Left, Cursor, Marked, Wants, Release, Wanted, Add, Queues.Tallied, List.Valid;
      ghost var f := Wanted(w, ptarg, otarg);
      ghost var v0 := semQ.vals;
      n := 0;
      semQ.Start();
      var trail: Bque?, point := null, semQ.first;
      ghost var i, j := 0, 0;
      Begin(v0, f, before);
      ReleaseNone(sem);
      while point != null
        invariant semQ.Valid() && semQ.Repr <= old(semQ.Repr) && 0 <= j <= |v0|
        invariant SemAt(i, trail, point)
        invariant semQ.vals == Left(v0, j, f) && i == Cursor(v0, j, f) && n == |Wants(v0, j, f)|
        invariant all ==> Tallied(tallies, before + Wants(v0, j, f))
        invariant sem == Release(old(sem), Wants(v0, j, f))
        decreases |v0| - j
      {
        Looking(v0, j, f);
        semQ.Next(i);
        if QueWant(point, ptarg, otarg) {
          Hit(v0, j, f, before);
          ReleaseSnoc(old(sem), Wants(v0, j, f), v0[j]);
          n := n + 1;
          Tally(tallies, point, all, before + Wants(v0, j, f));
          var next := semQ.Unlink(trail, point, i);
          var num := AddTo(point.sem, -1, point.attr);
          point := next;
        } else {
          Unwanted(v0, j, f);
          trail := point;
          point := point.next;
          i := i + 1;
        }
        j := j + 1;
      }
      Looking(v0, j, f);
      Finish(v0, f);
    }

    /** The four passes of `halt_que`. */
    method SweepQueues(ptarg: Dbref, otarg: Dbref, tallies: array<int>, all: bool) returns (numhalted: nat, ghost hits: seq<Entry>)
      requires Valid() && w.Sound() && tallies !in Repr() && (tallies as object) !in {playerQ, objectQ, waitQ, semQ}
      requires all ==> tallies.Length == w.dbTop && forall i :: 0 <= i < w.dbTop ==> tallies[i] == 0
      modifies Repr(), tallies
      ensures Valid() && Repr() <= old(Repr()) && playerQ.nodes == old(playerQ.nodes)
      ensures St() == Sweep(w, old(St()), ptarg, otarg) && numhalted == NumHalted(w, old(St()), ptarg, otarg)
      ensures var s := old(St()); var f := Wanted(w, ptarg, otarg);
        hits == Take(s.pq, f) + Take(s.oq, f) + Take(s.wq, f) + Take(s.sq, f)
      ensures all ==> Tallied(tallies, hits)
    {
      hide Take, Mark, Release, Wanted, Queues.Tallied, List.Valid;
      ghost var s0 := St();
      ghost var f := Wanted(w, ptarg, otarg);
      TallyNothing(tallies);
      var n1 := HaltRunQueue(playerQ, ptarg, otarg, tallies, all, []);
      assert [] + Take(s0.pq, f) == Take(s0.pq, f);
      hits := Take(s0.pq, f);
      var n2 := HaltRunQueue(objectQ, ptarg, otarg, tallies, all, hits);
      hits := hits + Take(s0.oq, f);
      var n3 := HaltWaitQueue(ptarg, otarg, tallies, all, hits);
      hits := hits + Take(s0.wq, f);
      var n4 := HaltSemQueue(ptarg, otarg, tallies, all, hits);
      hits := hits + Take(s0.sq, f);
      numhalted := n1 + n2 + n3 + n4;
    }

    /** `halt_que` */
    method HaltQue(ptarg: Dbref, otarg: Dbref) returns (numhalted: nat)
      requires Valid() && w.Sound()
      modifies Repr()
      ensures Valid() && Repr() <= old(Repr()) && playerQ.nodes == old(playerQ.nodes)
      ensures St() == QueueModel.HaltQue(w, old(St()), ptarg, otarg)
      ensures numhalted == NumHalted(w, old(St()), ptarg, otarg)
    {
      HaltCases(w, St(), ptarg, otarg);
      hide Take, Mark, Release, PayBack, Sweep, Settled, NumHalted, QueueModel.HaltQue, List.Valid, Queues.Valid;
      var all := ptarg == NOTHING && otarg == NOTHING;
      var tallies := new int[if all then w.dbTop else 0](_ => 0);
      ghost var hits;
      numhalted, hits := SweepQueues(ptarg, otarg, tallies, all);
      Apart();
      if all {
        PayTallies(tallies, hits);
        return;
      }
      Settle(if ptarg == NOTHING then w.owner(otarg) else ptarg, otarg, numhalted);
    }

    /** Refund the halted entries of one owner and lower its count. */
    method Settle(player: Dbref, otarg: Dbref, numhalted: int)
      modifies this`money, this`count
      ensures St() == Settled(w, old(St()), player, otarg, numhalted)
    {
      Give(player, w.waitcost * numhalted);
      if otarg == NOTHING {
        count := count[player := 0];
      } else {
        count := Add(count, player, -numhalted);
      }
    }

    /** The refund loop over the whole object table. */
    method PayTallies(tallies: array<int>, ghost hits: seq<Entry>)
      requires tallies.Length == w.dbTop && Tallied(tallies, hits)
      modifies this`money, this`count
      ensures St() == PayBack(w, old(St()), hits, w.dbTop)
    {
      for i := 0 to w.dbTop
        invariant St() == PayBack(w, old(St()), hits, i) && tallies[..] == old(tallies[..])
      {
        assert tallies[i] == tallies[..][i] == old(tallies[i]);
        if tallies[i] != 0 {
          Give(i, w.waitcost * tallies[i]);
          count := count[i := 0];
        }
      }
    }

    // -------------------------------------------------------------------
    // nfy_que
    // -------------------------------------------------------------------

    /** A walk over the semaphore queue: `point` is the block at `i`, `trail` the one before it. */
    ghost predicate SemAt(i: int, trail: Bque?, point: Bque?)
      reads semQ
    {
      semQ.Holds(i, point) && if i == 0 then trail == null else semQ.Holds(i - 1, trail)
    }

    lemma SemStart()
      requires Valid()
      ensures SemAt(0, null, semQ.first)
    {
      semQ.Start();
    }

    lemma SemNext(i: nat, trail: Bque?, point: Bque)
      requires Valid() && SemAt(i, trail, point)
      ensures i < |semQ.nodes| == |semQ.vals| && point.Val() == semQ.vals[i] && point in semQ.Repr
      ensures SemAt(i + 1, point, point.next)
    {
      semQ.Next(i);
    }

    lemma SemEnd(i: nat, trail: Bque?)
      requires Valid() && SemAt(i, trail, null)
      ensures i == |semQ.vals|
    {}

    /** Unlink an entry of the semaphore queue. */
    method DropSem(trail: Bque?, point: Bque, ghost i: nat) returns (next: Bque?)
      requires Valid() && SemAt(i, trail, point) && i < |semQ.nodes|
      modifies semQ.Repr
      ensures now == old(now)
      ensures Valid() && Repr() == old(Repr()) - {point} && point in old(Repr()) && point !in Repr()
      ensures point.Val() == old(semQ.vals[i]) && playerQ.nodes == old(playerQ.nodes)
      ensures St() == old(St()).(sq := old(semQ.vals)[..i] + old(semQ.vals)[i + 1..])
      ensures SemAt(i, trail, next)
    {
      hide List.Valid;
      semQ.Next(i);
      next := semQ.Unlink(trail, point, i);
    }

    /** Run or discard one entry that has just left the semaphore queue. */
    method Dispatch(point: Bque, drain: bool)
      requires Valid() && point !in Repr()
      modifies playerQ.Repr, objectQ.Repr, point, this`money, this`count
      ensures Valid() && Repr() <= old(Repr()) + {point} && old(playerQ.nodes) <= playerQ.nodes
      ensures St() == Dispatched(w, old(St()), old(point.Val()), drain)
      ensures semQ.nodes == old(semQ.nodes) && semQ.vals == old(semQ.vals)
    {
      if !drain {
        GiveQue(point);
      } else {
        Give(point.player, w.waitcost);
        count := Add(count, w.owner(point.player), -1);
      }
    }

    /** Unlink an entry of the semaphore queue and dispatch it; returns its successor. */
    method TakeOff(trail: Bque?, point: Bque, drain: bool, ghost i: nat) returns (next: Bque?)
      requires Valid() && SemAt(i, trail, point) && i < |semQ.nodes|
      modifies Repr()
      ensures Valid() && Repr() <= old(Repr()) && old(playerQ.nodes) <= playerQ.nodes
      ensures St() == Dispatched(w, old(St()).(sq := old(semQ.vals)[..i] + old(semQ.vals)[i + 1..]), old(semQ.vals[i]), drain)
      ensures SemAt(i, trail, next)
      ensures semQ.vals == old(semQ.vals)[..i] + old(semQ.vals)[i + 1..]
    {
      hide QueueModel.GiveQue, Dispatched, List.Valid, Queues.Valid;
      next := DropSem(trail, point, i);
      Dispatch(point, drain);
    }

    /** Look at one entry of the semaphore queue: take it off and dispatch it, or pass it by. */
    method Visit(trail0: Bque?, point: Bque, sem: Dbref, attr: int, drain: bool, ghost i: nat)
      returns (taking: bool, trail: Bque?, next: Bque?)
      requires Valid() && SemAt(i, trail0, point) && i < |semQ.nodes| == |semQ.vals|
      modifies Repr()
      ensures Valid() && Repr() <= old(Repr()) && old(playerQ.nodes) <= playerQ.nodes
      ensures taking == Matches(sem, attr)(old(semQ.vals[i])) && SemAt(if taking then i else i + 1, trail, next)
      ensures semQ.vals == if taking then old(semQ.vals)[..i] + old(semQ.vals)[i + 1..] else old(semQ.vals)
      ensures St() == if taking then Dispatched(w, old(St()).(sq := semQ.vals), old(semQ.vals[i]), drain) else old(St())
    {
      hide Dispatched, List.Valid, Queues.Valid, SemAt;
      SemNext(i, trail0, point);
      taking := point.sem == sem && (point.attr == attr || attr == 0);
      if taking {
        trail := trail0;
        next := TakeOff(trail, point, drain, i);
      } else {
        next := point.next;
        trail := point;
      }
    }

    /** `nfy_que`: take matching entries off the semaphore queue, then adjust the counter. */
    method NfyQue(sem: Dbref, attr: int, key: NotifyKey, count: int) returns (num: int)
      requires Valid()
      modifies Repr()
      ensures Valid() && Repr() <= old(Repr()) && old(playerQ.nodes) <= playerQ.nodes
      ensures St() == QueueModel.NfyQue(w, old(St()), sem, attr, key, count)
      ensures num == |NotifyScan(old(St()), sem, attr, key, count).0|
    {
      hide Scan, Moved, QueueModel.NfyQue, Add, List.Valid, Queues.Valid;
      ghost var s0 := St();
      NotifyCases(w, s0, sem, attr, key, count);
      num := if attr != 0 then At(this.sem, (sem, attr)) else 1;
      if num > 0 {
        num := ScanSemQueue(sem, attr, key, count);
      } else {
        num := 0;
      }
      Apart();
      AdjustCount(sem, if attr != 0 then attr else A_SEMAPHORE, key, count);
    }

    /** The end of `nfy_que`: one counter goes down, or is cleared. */
    method AdjustCount(sem: Dbref, target: int, key: NotifyKey, count: int)
      modifies this`sem
      ensures this.sem == if key == Nfy then Add(old(this.sem), (sem, target), -count) else old(this.sem)[(sem, target) := 0]
    {
      if key == Nfy {
        var n := AddTo(sem, -count, target);
      } else {
        this.sem := this.sem[(sem, target) := 0];
      }
    }

    /** The loop of `nfy_que`. */
    method ScanSemQueue(sem: Dbref, attr: int, key: NotifyKey, count: int) returns (num: int)
      requires Valid()
      modifies Repr()
      ensures Valid() && Repr() <= old(Repr()) && old(playerQ.nodes) <= playerQ.nodes
      ensures var r := Scan(old(semQ.vals), Matches(sem, attr), key == Nfy, count);
        St() == Moved(w, old(St()), r.0, key == Drain, r.1) && num == |r.0|
    {
      hide Scan, Passing, Matches, List.Valid, Queues.Valid, Queues.Repr, SemAt;
      ghost var s0, limited := St(), key == Nfy;
      ghost var hit := Matches(sem, attr);
      var drain := key == Drain;
      ghost var total := Scan(semQ.vals, hit, limited, count);
      ghost var taken, kept: seq<Entry>, rest, stop := [], [], semQ.vals, false;
      num := 0;
      SemStart();
      var trail: Bque?, point := null, semQ.first;
      PassStart(w, s0, hit, drain, limited, count);
      while point != null
        invariant Valid() && Repr() <= old(Repr()) && old(playerQ.nodes) <= playerQ.nodes
        invariant num == |taken| && (stop ==> point == null)
        invariant !stop ==> SemAt(|kept|, trail, point)
        invariant Passing(w, s0, St(), total, taken, kept, rest, hit, drain, limited, count - num, stop)
        decreases |rest|
      {
        SemNext(|kept|, trail, point);
        PassCut(w, s0, St(), total, taken, kept, rest, hit, drain, limited, count - num, stop);
        ghost var s1 := St();
        var taking, next;
        taking, trail, next := Visit(trail, point, sem, attr, drain, |kept|);
        if taking {
          PassHit(w, s0, s1, St(), total, taken, kept, rest, hit, drain, limited, count - num);
          num := num + 1;
          taken := taken + [rest[0]];
        } else {
          PassMiss(w, s0, s1, total, taken, kept, rest, hit, drain, limited, count - num);
          kept := kept + [rest[0]];
        }
        rest := rest[1..];
        if key == Nfy && num >= count {
          next := null;
          stop := true;
        }
        point := next;
      }
      if !stop { SemEnd(|kept|, trail); }
      PassEnd(w, s0, St(), total, taken, kept, rest, hit, drain, limited, count - num, stop);
    }

    /** What destroy_obj does to the queue: halt, drain, and in the end free all attributes. */
    method DestroyObj(obj: Dbref)
      requires Valid() && w.Sound()
      modifies Repr()
      ensures Valid() && Repr() <= old(Repr()) && old(playerQ.nodes) <= playerQ.nodes
      ensures St() == Destroy(w, old(St()), obj)
    {
      hide QueueModel.HaltQue, QueueModel.NfyQue, List.Valid, Queues.Valid;
      var n := HaltQue(NOTHING, obj);
      n := NfyQue(obj, 0, Drain, 0);
      Apart();
      sem := DropCounters(sem, obj);
    }

    // -------------------------------------------------------------------
    // setup_que, wait_que, do_wait
    // -------------------------------------------------------------------

    /** `setup_que`: refuse the command, or charge for it and make its block. */
    method SetupQue(player: Dbref, cause: Dbref, coin: bool) returns (tmp: Bque?)
      requires Valid() && w.Sound()
      modifies Repr()
      ensures Valid() && Repr() <= old(Repr()) && playerQ.nodes == old(playerQ.nodes)
      ensures tmp != null <==> Judge(w, old(St()), player, coin) == Accepted
      ensures var s1 := Setup(w, old(St()), player, coin);
        St() == if tmp == null then s1 else s1.(nextId := s1.nextId + 1)
      ensures tmp != null ==> fresh(tmp) && tmp.next == null
      ensures tmp != null ==> tmp.Val() == Entry(Setup(w, old(St()), player, coin).nextId, player, cause, 0, NOTHING, 0)
    {
      hide QueueModel.HaltQue, List.Valid, Queues.Valid, PayFor, GiveTo;
      Apart();
      tmp := null;
      if player in halted {
        return;
      }
      var paid := ChargeFor(player, coin);
      if !paid {
        return;
      }
      if count[w.owner(player)] > w.queueMax(w.owner(player)) {
        HaltRunaway(player);
        return;
      }
      tmp := new Bque(nextId, player, cause);
      nextId := nextId + 1;
    }

    method HaltRunaway(player: Dbref)
      requires Valid() && w.Sound()
      modifies Repr()
      ensures Valid() && Repr() <= old(Repr()) && playerQ.nodes == old(playerQ.nodes)
      ensures var s := QueueModel.HaltQue(w, old(St()), w.owner(player), NOTHING);
        St() == s.(halted := s.halted + {player})
    {
      hide QueueModel.HaltQue, List.Valid;
      var n := HaltQue(w.owner(player), NOTHING);
      halted := halted + {player};
    }

    /** Take the deposit and count the command, if its owner can afford it. */
    method ChargeFor(player: Dbref, coin: bool) returns (paid: bool)
      modifies this`money, this`count
      ensures paid == PayFor(w, old(money), player, Charge(w, coin)).Some?
      ensures St() == if paid then Charged(w, old(St()), player, coin) else old(St())
      ensures paid ==> count[w.owner(player)] == At(old(count), w.owner(player)) + 1
    {
      var a := w.waitcost;
      if a != 0 && w.machinecost != 0 && coin {
        a := a + 1;
      }
      paid := Pay(player, a);
      if paid {
        count := Add(count, w.owner(player), 1);
      }
    }

    /** Find the place in the wait queue behind every entry that is not later. */
    method FindPlace(t: int, ghost e: Entry) returns (trail: Bque?, point: Bque?, ghost i: nat)
      requires waitQ.Valid() && e.waittime == t
      ensures (trail != null ==> trail.waittime <= t) && (point != null ==> point.waittime > t)
      ensures i == Laws.Place(waitQ.vals, e)
      ensures waitQ.Holds(i, point) && if i == 0 then trail == null else waitQ.Holds(i - 1, trail)
    {
      hide List.Valid;
      waitQ.Start();
      trail, point, i := null, waitQ.first, 0;
      while point != null && point.waittime <= t
        invariant waitQ.Holds(i, point) && if i == 0 then trail == null else waitQ.Holds(i - 1, trail)
        invariant forall j :: 0 <= j < i ==> waitQ.vals[j].waittime <= t
        invariant trail != null ==> trail.waittime <= t
        decreases |waitQ.nodes| - i
      {
        waitQ.Next(i);
        trail := point;
        point := point.next;
        i := i + 1;
      }
      if point != null { waitQ.Next(i); }
      PlaceIs(waitQ.vals, e, i);
    }

    /** `wait_que`: put an accepted command on the run, wait or semaphore queue. */
    method WaitQue(player: Dbref, cause: Dbref, wait: int, sem: Dbref, attr: int, coin: bool, clock: int)
      requires Valid() && w.Sound()
      modifies Repr()
      ensures Valid() && fresh(Repr() - old(Repr())) && old(playerQ.nodes) <= playerQ.nodes
      ensures St() == QueueModel.WaitQue(w, old(St()), player, cause, wait, sem, attr, coin, clock)
    {
      hide Setup, Judge, QueueModel.Enqueue, List.Valid, Queues.Valid, QueueModel.WaitQue;
      Counting.WaitCases(w, St(), player, cause, wait, sem, attr, coin, clock);
      if !interp {
        return;
      }
      var tmp := SetupQue(player, cause, coin);
      if tmp == null {
        return;
      }
      Apart();
      SetWait(tmp, if wait != 0 then clock + wait else tmp.waittime, sem, attr);
      Enqueue(tmp, wait);
    }

    method SetWait(tmp: Bque, waittime: int, sem: Dbref, attr: int)
      modifies tmp
      ensures tmp.Val() == old(tmp.Val()).(waittime := waittime, sem := sem, attr := attr) && tmp.next == old(tmp.next)
    {
      tmp.waittime := waittime;
      tmp.sem := sem;
      tmp.attr := attr;
    }

    method Enqueue(tmp: Bque, wait: int)
      requires Valid() && tmp !in Repr() && tmp.next == null
      modifies Repr(), tmp
      ensures Valid() && Repr() == old(Repr()) + {tmp} && old(playerQ.nodes) <= playerQ.nodes
      ensures St() == QueueModel.Enqueue(w, old(St()), old(tmp.Val()), wait)
    {
      hide List.Valid, QueueModel.GiveQue, Insert;
      ghost var e := tmp.Val();
      if tmp.sem == NOTHING {
        if wait <= 0 {
          GiveQue(tmp);
        } else {
          ghost var i;
          var trail, point;
          trail, point, i := FindPlace(tmp.waittime, e);
          Laws.InsertPlace(waitQ.vals, e);
          waitQ.InsertBefore(tmp, trail, point, i);
        }
      } else {
        semQ.Append(tmp);
      }
    }

    /** `do_wait` once its target is known. */
    method DoWait(player: Dbref, cause: Dbref, thing: Dbref, attr: int, howlong: int, coin: bool, clock: int)
      requires Valid() && w.Sound()
      modifies Repr()
      ensures Valid() && fresh(Repr() - old(Repr())) && old(playerQ.nodes) <= playerQ.nodes
      ensures St() == QueueModel.DoWait(w, old(St()), player, cause, thing, attr, howlong, coin, clock)
    {
      hide List.Valid, Queues.Valid, QueueModel.WaitQue;
      Apart();
      var num := AddTo(thing, 1, attr);
      if num <= 0 {
        WaitQue(player, cause, 0, NOTHING, attr, coin, clock);
      } else {
        WaitQue(player, cause, howlong, thing, attr, coin, clock);
      }
    }

    // -------------------------------------------------------------------
    // do_second and the timer warp
    // -------------------------------------------------------------------

    /** The wait loop of `do_second`: `GiveQue` clears the link it follows, so it turns once at most. */
    method ReleaseWaiting()
      requires Valid()
      modifies Repr()
      ensures Valid() && Repr() == old(Repr()) && old(playerQ.nodes) <= playerQ.nodes
      ensures St() == QueueModel.ReleaseWaiting(w, old(St()))
    {
      hide QueueModel.GiveQue, List.Valid;
      waitQ.Start();
      var point := waitQ.first;
      while point != null && point.waittime <= now
        invariant Valid() && Repr() == old(Repr()) && old(playerQ.nodes) <= playerQ.nodes && now == old(now)
        invariant point == null ==> St() == QueueModel.ReleaseWaiting(w, old(St()))
        invariant point != null ==> St() == old(St()) && waitQ.Holds(0, point)
        decreases if point == null then 0 else 1
      {
        waitQ.Next(0);
        waitQ.RemoveFirst();
        GiveQue(point);
        point := point.next;
      }
      if point != null { waitQ.Next(0); }
    }

    /** The semaphore loop of `do_second`: waiters whose time is up give their place back and run. */
    method ReleaseTimedOut()
      requires Valid()
      modifies Repr()
      ensures Valid() && Repr() == old(Repr()) && old(playerQ.nodes) <= playerQ.nodes
      ensures St() == QueueModel.ReleaseTimedOut(w, old(St()))
    {
      hide Take, Left, Cursor, Marked, Wants, TimeOut, QueueModel.GiveQue, Timed, List.Valid, Queues.Valid, SemAt, Add;
      ghost var s0 := St();
      ghost var f := Expired(now);
      ghost var v0 := semQ.vals;
      SemStart();
      var trail: Bque?, point := null, semQ.first;
      ghost var i, j := 0, 0;
      Begin(v0, f, []);
      TimedNone(w, s0);
      while point != null
        invariant Valid() && Repr() == old(Repr()) && old(playerQ.nodes) <= playerQ.nodes && now == old(now) && 0 <= j <= |v0|
        invariant SemAt(i, trail, point)
        invariant semQ.vals == Left(v0, j, f) && i == Cursor(v0, j, f)
        invariant St() == Timed(w, s0, Wants(v0, j, f), semQ.vals)
        decreases |v0| - j
      {
        Looking(v0, j, f);
        SemNext(i, trail, point);
        if point.waittime != 0 && point.waittime <= now {
          Hit(v0, j, f, []);
          TimedOne(w, s0, Wants(v0, j, f), semQ.vals, v0[j], Left(v0, j + 1, f));
          point := TimeOutOne(trail, point, i);
        } else {
          Unwanted(v0, j, f);
          trail := point;
          point := point.next;
          i := i + 1;
        }
        j := j + 1;
      }
      SemEnd(i, trail);
      Looking(v0, j, f);
      Finish(v0, f);
      TimedAll(w, s0, Take(v0, f), semQ.vals);
    }

    method TimeOutOne(trail: Bque?, point: Bque, ghost i: nat) returns (next: Bque?)
      requires Valid() && SemAt(i, trail, point) && i < |semQ.nodes|
      modifies Repr()
      ensures Valid() && Repr() == old(Repr()) && old(playerQ.nodes) <= playerQ.nodes && now == old(now)
      ensures var e := old(semQ.vals[i]);
        var m := old(St()).(sq := old(semQ.vals)[..i] + old(semQ.vals)[i + 1..]);
        St() == QueueModel.GiveQue(w, m.(sem := Add(m.sem, Target(e.sem, e.attr), -1)), e.(sem := NOTHING))
      ensures SemAt(i, trail, next)
      ensures semQ.vals == old(semQ.vals)[..i] + old(semQ.vals)[i + 1..]
    {
      hide QueueModel.GiveQue, List.Valid, Queues.Valid;
      next := DropSem(trail, point, i);
      GiveUp(point);
    }

    /** A block off the semaphore queue stops waiting and is queued to run. */
    method GiveUp(point: Bque)
      requires Valid() && point !in Repr()
      modifies this`sem, playerQ.Repr, objectQ.Repr, point
      ensures Valid() && Repr() == old(Repr()) + {point} && old(playerQ.nodes) <= playerQ.nodes
      ensures var e := old(point.Val()); var m := old(St());
        St() == QueueModel.GiveQue(w, m.(sem := Add(m.sem, Target(e.sem, e.attr), -1)), e.(sem := NOTHING))
      ensures semQ.nodes == old(semQ.nodes) && semQ.vals == old(semQ.vals) && now == old(now)
    {
      hide QueueModel.GiveQue, List.Valid, Queues.Valid;
      Apart();
      var n := AddTo(point.sem, -1, if point.attr != 0 then point.attr else A_SEMAPHORE);
      point.sem := NOTHING;
      GiveQue(point);
    }

    /** `do_second` */
    method DoSecond()
      requires Valid()
      modifies Repr()
      ensures Valid() && Repr() == old(Repr()) && old(playerQ.nodes) <= playerQ.nodes
      ensures St() == QueueModel.DoSecond(w, old(St()))
    {
      hide QueueModel.ReleaseWaiting, QueueModel.ReleaseTimedOut, List.Valid;
      if !dequeue {
        return;
      }
      playerQ.TakeAllFrom(objectQ);
      ReleaseWaiting();
      ReleaseTimedOut();
    }

    method ShiftTimers(q: List, i: int, waitQueue: bool)
      requires q.Valid()
      modifies q.Repr
      ensures q.Valid() && q.Repr == old(q.Repr) && q.nodes == old(q.nodes)
      ensures q.vals == if waitQueue then WarpWait(old(q.vals), i) else WarpSem(old(q.vals), i)
    {
      hide List.Valid;
      ghost var v0 := q.vals;
      ghost var v1 := if waitQueue then WarpWait(v0, i) else WarpSem(v0, i);
      q.Start();
      var point := q.first;
      ghost var j := 0;
      while point != null
        invariant q.Valid() && q.Repr == old(q.Repr) && q.nodes == old(q.nodes) && q.Holds(j, point) && |q.vals| == |v0|
        invariant forall k :: 0 <= k < |v0| ==> q.vals[k] == if k < j then v1[k] else v0[k]
        decreases |v0| - j
      {
        q.Next(j);
        if waitQueue {
          q.SetTimer(point, -i, j);
        } else if point.waittime > 0 {
          q.SetTimer(point, if point.waittime - i <= 0 then -1 else point.waittime - i, j);
        }
        q.Next(j);
        point := point.next;
        j := j + 1;
      }
    }

    /** `do_queue` with the warp key. */
    method Warp(i: int)
      requires Valid()
      modifies Repr()
      ensures Valid() && Repr() == old(Repr()) && old(playerQ.nodes) <= playerQ.nodes
      ensures St() == QueueModel.Warp(w, old(St()), i)
    {
      hide QueueModel.DoSecond, List.Valid, WarpWait, WarpSem;
      var wasEnabled := dequeue;
      dequeue := true;
      ShiftTimers(waitQ, i, true);
      ShiftTimers(semQ, i, false);
      DoSecond();
      dequeue := wasEnabled;
    }

    // -------------------------------------------------------------------
    // do_top
    // -------------------------------------------------------------------

    /** One action of a running command or of the server's main loop. */
    method Perform(a: Action)
      requires Valid() && w.Sound()
      modifies Repr()
      ensures Valid() && fresh(Repr() - old(Repr())) && old(playerQ.nodes) <= playerQ.nodes
      ensures St() == Do(w, old(St()), a)
    {
      hide QueueModel.WaitQue, QueueModel.DoWait, QueueModel.NfyQue, QueueModel.HaltQue, Destroy, QueueModel.DoSecond, QueueModel.Warp,
        List.Valid, Queues.Valid;
      Apart();
      match a
      case Queue(player, cause, wait, qattr, coin, clock) => WaitQue(player, cause, wait, NOTHING, qattr, coin, clock);
      case SemWait(player, cause, thing, attr, howlong, coin, clock) => DoWait(player, cause, thing, attr, howlong, coin, clock);
      case Notify(s, attr, key, n) => var num := NfyQue(s, attr, key, n);
      case Halt(p, ob) => var num := HaltQue(p, ob);
      case Destroyed(obj) => DestroyObj(obj);
      case Second => DoSecond();
      case WarpTime(i) => Warp(i);
      case Tick(t) => SetClock(t);
      case SetFlags(h, i, d) => SetFlags(h, i, d);
    }

    method SetClock(t: int)
      requires Valid()
      modifies this`now
      ensures Valid() && St() == old(St()).(now := t)
    {
      now := t;
    }

    method SetFlags(h: set<Dbref>, i: bool, d: bool)
      requires Valid()
      modifies this`halted, this`interp, this`dequeue
      ensures Valid() && St() == old(St()).(halted := h, interp := i, dequeue := d)
    {
      halted, interp, dequeue := h, i, d;
    }

    /** Run the commands of the head entry while it stays at the head. */
    method RunCommands(cmds: seq<Action>)
      requires Valid() && w.Sound() && playerQ.nodes != []
      modifies Repr()
      ensures Valid() && fresh(Repr() - old(Repr())) && playerQ.nodes != []
      ensures St() == DoAll(w, old(St()), cmds)
    {
      hide Do, DoAll, List.Valid, Queues.Valid;
      HeadIs();
      var tmp := playerQ.first;
      var j := 0;
      assert cmds[0..] == cmds;
      while j < |cmds| && playerQ.first == tmp
        invariant Valid() && fresh(Repr() - old(Repr())) && 0 <= j <= |cmds|
        invariant playerQ.nodes != [] && playerQ.nodes[0] == tmp == playerQ.first
        invariant DoAll(w, St(), cmds[j..]) == DoAll(w, old(St()), cmds)
      {
        DoOne(w, St(), cmds, j);
        Perform(cmds[j]);
        HeadIs();
        j := j + 1;
      }
      HeadIs();
      DoNone(w, St(), cmds[j..]);
    }

    lemma HeadIs()
      requires Valid() && playerQ.nodes != []
      ensures playerQ.first == playerQ.nodes[0]
    {
      playerQ.Start();
    }

    /** Return the head entry's deposit, lower its owner's count and wipe it. */
    method BeginTop() returns (player: Dbref, live: bool)
      requires Valid() && playerQ.nodes != []
      modifies Repr()
      ensures Valid() && Repr() == old(Repr()) && playerQ.nodes == old(playerQ.nodes) && |playerQ.vals| == |playerQ.nodes|
      ensures playerQ.nodes != [] && old(playerQ.vals) != [] && player == old(playerQ.vals)[0].player
      ensures live == Runnable(w, old(playerQ.vals)[0]) && St() == TopBegin(w, old(St()))
    {
      hide List.Valid, GiveTo;
      playerQ.Start();
      playerQ.Next(0);
      player := playerQ.first.player;
      live := player >= 0 && !w.going(player);
      if live {
        Give(player, w.waitcost);
        count := Add(count, w.owner(player), -1);
        playerQ.Wipe(playerQ.first, 0);
      }
    }

    /** One turn of `do_top`. */
    method TopOnce(cmds: seq<Action>)
      requires Valid() && w.Sound() && playerQ.nodes != []
      modifies Repr()
      ensures Valid() && fresh(Repr() - old(Repr()))
      ensures St() == DoTop(w, old(St()), cmds)
    {
      hide List.Valid, DoAll, TopBegin, TopEnd, Queues.Valid;
      var player, live := BeginTop();
      if live && player !in halted {
        RunCommands(cmds);
      }
      EndTop();
    }

    /** Drop the head entry. */
    method EndTop()
      requires Valid()
      modifies Repr()
      ensures Valid() && Repr() <= old(Repr()) && St() == TopEnd(old(St()))
    {
      hide List.Valid;
      playerQ.Start();
      playerQ.RemoveFirst();
    }

    /** `do_top`: run up to `|script|` commands, unless dequeuing is off; `script[i]` is what the
        `i`th of them does.  One that turns dequeuing off does not stop the others. */
    method DoTopLoop(script: seq<seq<Action>>) returns (ran: nat)
      requires Valid() && w.Sound()
      modifies Repr()
      ensures Valid() && fresh(Repr() - old(Repr())) && ran <= |script|
      ensures St() == if old(dequeue) then Run(w, old(St()), Tops(script)) else old(St())
    {
      hide Run, Tops, DoTop, List.Valid, Queues.Valid;
      ran := 0;
      if !dequeue {
        return;
      }
      assert script[0..] == script;
      while ran < |script|
        invariant Valid() && fresh(Repr() - old(Repr())) && 0 <= ran <= |script|
        invariant Run(w, St(), Tops(script[ran..])) == Run(w, old(St()), Tops(script))
      {
        PlayerStart();
        if playerQ.first == null {
          RunIdle(w, St(), script[ran..]);
          return;
        }
        RunTop(w, St(), script, ran);
        TopOnce(script[ran]);
        ran := ran + 1;
      }
      RunNone(w, St(), script[ran..]);
    }

    lemma PlayerStart()
      requires Valid()
      ensures playerQ.first == null <==> playerQ.nodes == []
      ensures playerQ.nodes == [] <==> St().pq == []
    {
      playerQ.Start();
    }
  }

  function Tops(script: seq<seq<Action>>): seq<Step> {
    seq(|script|, i requires 0 <= i < |script| => Top(script[i]))
  }

  lemma DoOne(w: World, s: State, acts: seq<Action>, i: nat)
    requires i < |acts|
    ensures DoAll(w, s, acts[i..]) == DoAll(w, Do(w, s, acts[i]), acts[i + 1..])
  {
    hide Do;
    assert acts[i..][0] == acts[i] && acts[i..][1..] == acts[i + 1..];
  }

  lemma DoNone(w: World, s: State, acts: seq<Action>)
    ensures acts == [] ==> DoAll(w, s, acts) == s
  {
  }

  lemma RunTop(w: World, s: State, script: seq<seq<Action>>, i: nat)
    requires i < |script|
    ensures Run(w, s, Tops(script[i..])) == Run(w, DoTop(w, s, script[i]), Tops(script[i + 1..]))
  {
    hide DoTop;
    assert Tops(script[i..])[0] == Top(script[i]) && Tops(script[i..])[1..] == Tops(script[i + 1..]);
  }

  lemma RunNone(w: World, s: State, script: seq<seq<Action>>)
    requires script == []
    ensures Run(w, s, Tops(script)) == s
  {
  }

  lemma {:induction false} RunIdle(w: World, s: State, script: seq<seq<Action>>)
    requires s.pq == []
    ensures Run(w, s, Tops(script)) == s
  {
    if script != [] {
      RunIdle(w, s, script[1..]);
      assert Tops(script)[1..] == Tops(script[1..]) && Tops(script)[0] == Top(script[0]);
    }
  }

  lemma {:induction false} PlaceIs(q: seq<Entry>, e: Entry, i: nat)
    requires i <= |q| && (forall j :: 0 <= j < i ==> q[j].waittime <= e.waittime)
    requires i < |q| ==> q[i].waittime > e.waittime
    ensures Laws.Place(q, e) == i
  {
    if i > 0 { PlaceIs(q[1..], e, i - 1); }
  }

  // The state part-way through the time-out pass of `do_second`.

  ghost function Timed(w: World, s: State, out: seq<Entry>, rest: seq<Entry>): State {
    TimeOut(w, s, out).(sq := rest)
  }

  lemma TimedNone(w: World, s: State)
    ensures Timed(w, s, [], s.sq) == s
  {
  }

  lemma TimedOne(w: World, s: State, out: seq<Entry>, rest: seq<Entry>, e: Entry, rest': seq<Entry>)
    ensures var m := Timed(w, s, out, rest).(sq := rest');
      Timed(w, s, out + [e], rest')
      == QueueModel.GiveQue(w, m.(sem := Add(m.sem, Target(e.sem, e.attr), -1)), e.(sem := NOTHING))
  {
    assert (out + [e])[..|out|] == out;
    assert TimeOut(w, s, out + [e]) == (var m := TimeOut(w, s, out);
      QueueModel.GiveQue(w, m.(sem := Add(m.sem, Target(e.sem, e.attr), -1)), e.(sem := NOTHING)));
  }

  lemma TimedAll(w: World, s: State, out: seq<Entry>, rest: seq<Entry>)
    ensures Timed(w, s, out, rest) == TimeOut(w, s.(sq := rest), out)
  {
    TimeOutSq(w, s, out, rest);
  }
}
