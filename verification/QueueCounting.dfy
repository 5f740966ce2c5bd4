/** Counting entries: how each queue operation changes the number of entries that
    satisfy a test.  Everything in `QueueLaws` is a statement about such numbers. */
module QueueCounting {
  import opened Constants
  import opened QueueModel

  ghost function Total(s: State, f: Entry -> bool): nat {
    Size(s.pq, f) + Size(s.oq, f) + Size(s.wq, f) + Size(s.sq, f)
  }

  ghost function Retimed(e: Entry, t: int, m: Dbref): Entry {
    e.(waittime := t, sem := m)
  }

  /** The test does not look at the fields that moving an entry rewrites. */
  ghost predicate Blind(f: Entry -> bool) {
    forall e: Entry, t: int, m: Dbref :: f(Retimed(e, t, m)) == f(e)
  }

  lemma {:induction false} TakeAppend(a: seq<Entry>, b: seq<Entry>, f: Entry -> bool)
    ensures Take(a + b, f) == Take(a, f) + Take(b, f)
  {
    if b == [] {
      assert a + b == a;
    } else {
      var n := |b| - 1;
      assert (a + b)[..|a + b| - 1] == a + b[..n];
      TakeAppend(a, b[..n], f);
    }
  }

  lemma TakeCons(x: Entry, r: seq<Entry>, f: Entry -> bool)
    ensures Take([x] + r, f) == (if f(x) then [x] else []) + Take(r, f)
  {
    TakeAppend([x], r, f);
  }

  lemma TakeSnoc(r: seq<Entry>, x: Entry, f: Entry -> bool)
    ensures Take(r + [x], f) == Take(r, f) + if f(x) then [x] else []
  {
    assert (r + [x])[..|r|] == r;
  }

  lemma {:induction false} TakeIn(q: seq<Entry>, f: Entry -> bool, e: Entry)
    ensures e in Take(q, f) <==> e in q && f(e)
  {
    if q != [] {
      var n := |q| - 1;
      TakeIn(q[..n], f, e);
      assert q == q[..n] + [q[n]];
    }
  }

  lemma TakeSubset(q: seq<Entry>, f: Entry -> bool)
    ensures forall e :: e in Take(q, f) <==> e in q && f(e)
  {
    forall e ensures e in Take(q, f) <==> e in q && f(e) { TakeIn(q, f, e); }
  }

  lemma {:induction false} NoneTaken(q: seq<Entry>, f: Entry -> bool)
    requires forall e :: e in q ==> !f(e)
    ensures Take(q, f) == []
  {
    if q != [] { NoneTaken(q[..|q| - 1], f); }
  }

  lemma {:induction false} AllTaken(q: seq<Entry>, f: Entry -> bool)
    requires forall e :: e in q ==> f(e)
    ensures Take(q, f) == q
  {
    if q != [] { AllTaken(q[..|q| - 1], f); }
  }

  lemma {:induction false} SameTaken(q: seq<Entry>, f: Entry -> bool, g: Entry -> bool)
    requires forall e :: e in q ==> f(e) == g(e)
    ensures Take(q, f) == Take(q, g)
  {
    if q != [] { SameTaken(q[..|q| - 1], f, g); }
  }

  /** Taking entries out splits every count between those taken and those left. */
  lemma {:induction false} Partition(q: seq<Entry>, h: Entry -> bool, f: Entry -> bool)
    ensures Size(q, f) == Size(Take(q, h), f) + Size(Take(q, Not(h)), f)
  {
    if q != [] {
      var n := |q| - 1;
      Partition(q[..n], h, f);
      if h(q[n]) {
        TakeSnoc(Take(q[..n], h), q[n], f);
      } else {
        TakeSnoc(Take(q[..n], Not(h)), q[n], f);
      }
    }
  }

  lemma {:induction false} MarkIndex(q: seq<Entry>, h: Entry -> bool)
    ensures |Mark(q, h)| == |q|
    ensures forall i :: 0 <= i < |q| ==> Mark(q, h)[i] == if h(q[i]) then q[i].(player := NOTHING) else q[i]
  {
    if q != [] { MarkIndex(q[..|q| - 1], h); }
  }

  /** Wiped entries count for nobody: marking is as good as removing. */
  lemma {:induction false} MarkLive(w: World, q: seq<Entry>, h: Entry -> bool, o: Dbref)
    ensures Size(Mark(q, h), LiveOf(w, o)) == Size(Take(q, Not(h)), LiveOf(w, o))
  {
    if q != [] {
      var n := |q| - 1;
      MarkLive(w, q[..n], h, o);
      TakeSnoc(Mark(q[..n], h), if h(q[n]) then q[n].(player := NOTHING) else q[n], LiveOf(w, o));
      if !h(q[n]) { TakeSnoc(Take(q[..n], Not(h)), q[n], LiveOf(w, o)); }
    }
  }

  // ---------------------------------------------------------------------
  // Moving entries
  // ---------------------------------------------------------------------

  // ---------------------------------------------------------------------
  // What the queue primitives leave alone
  // ---------------------------------------------------------------------

  /** An entry goes behind one of the two run queues, and nothing else changes. */
  lemma GiveFrame(w: World, s: State, e: Entry)
    ensures var r := GiveQue(w, s, e); var e' := e.(waittime := 0);
      && r == s.(pq := r.pq, oq := r.oq)
      && (w.isPlayer(e.cause) ==> r.pq == s.pq + [e'] && r.oq == s.oq)
      && (!w.isPlayer(e.cause) ==> r.pq == s.pq && r.oq == s.oq + [e'])
  {
    if w.isPlayer(e.cause) {} else {}
  }

  lemma EnqueueFrame(w: World, s: State, e: Entry, wait: int)
    ensures var r := Enqueue(w, s, e, wait);
      && r == s.(pq := r.pq, oq := r.oq, wq := r.wq, sq := r.sq)
      && r.sq == (if e.sem != NOTHING then s.sq + [e] else s.sq)
      && r.wq == (if e.sem == NOTHING && wait > 0 then Insert(s.wq, e) else s.wq)
      && (e.sem != NOTHING || wait > 0 ==> r.pq == s.pq && r.oq == s.oq)
      && (e.sem == NOTHING && wait <= 0 ==> r == GiveQue(w, s, e))
  {
    hide Insert, GiveQue;
    if e.sem == NOTHING && wait <= 0 { GiveFrame(w, s, e); }
  }

  /** The entry an accepted command becomes. */
  function NewEntry(s: State, player: Dbref, cause: Dbref, wait: int, sem: Dbref, attr: int, clock: int): Entry {
    Entry(s.nextId, player, cause, if wait != 0 then clock + wait else 0, sem, attr)
  }

  lemma WaitCases(w: World, s: State, player: Dbref, cause: Dbref, wait: int, sem: Dbref, attr: int, coin: bool, clock: int)
    ensures var s1 := Setup(w, s, player, coin);
      WaitQue(w, s, player, cause, wait, sem, attr, coin, clock) ==
      if !s.interp then s
      else if Judge(w, s, player, coin) != Accepted then s1
      else Enqueue(w, s1.(nextId := s1.nextId + 1), NewEntry(s1, player, cause, wait, sem, attr, clock), wait)
  {
    hide Setup, Judge, Enqueue;
  }

  /** A refused command changes nothing, unless it makes its owner a runaway. */
  lemma SetupCases(w: World, s: State, player: Dbref, coin: bool)
    ensures match Judge(w, s, player, coin)
      case Accepted => Setup(w, s, player, coin) == Charged(w, s, player, coin)
      case Runaway =>
        var s2 := HaltQue(w, Charged(w, s, player, coin), w.owner(player), NOTHING);
        Setup(w, s, player, coin) == s2.(halted := s2.halted + {player})
      case _ => Setup(w, s, player, coin) == s
  {
    hide HaltQue, Charged;
  }

  lemma ChargedFrame(w: World, s: State, player: Dbref, coin: bool)
    requires PayFor(w, s.money, player, Charge(w, coin)).Some?
    ensures var r := Charged(w, s, player, coin); r == s.(money := r.money, count := r.count)
  {
    hide PayFor;
  }

  lemma TotalGive(w: World, s: State, e: Entry, f: Entry -> bool)
    requires Blind(f)
    ensures Total(GiveQue(w, s, e), f) == Total(s, f) + if f(e) then 1 else 0
  {
    var e' := e.(waittime := 0);
    hide Blind, Take, Size, GiveQue;
    GiveFrame(w, s, e);
    BlindAt(f, e, 0, e.sem);
    assert e' == e.(waittime := 0, sem := e.sem);
    SizeSnoc(s.pq, e', f);
    SizeSnoc(s.oq, e', f);
  }

  lemma SizeSnoc(q: seq<Entry>, x: Entry, f: Entry -> bool)
    ensures Size(q + [x], f) == Size(q, f) + if f(x) then 1 else 0
  {
    TakeSnoc(q, x, f);
  }

  lemma BlindAt(f: Entry -> bool, e: Entry, t: int, m: Dbref)
    requires Blind(f)
    ensures f(e.(waittime := t, sem := m)) == f(e)
  {
    assert f(Retimed(e, t, m)) == f(e);
  }

  lemma {:induction false} TotalGiveAll(w: World, s: State, es: seq<Entry>, f: Entry -> bool)
    requires Blind(f)
    ensures Total(GiveAll(w, s, es), f) == Total(s, f) + Size(es, f)
  {
    if es != [] {
      var n := |es| - 1;
      TotalGiveAll(w, s, es[..n], f);
      TotalGive(w, GiveAll(w, s, es[..n]), es[n], f);
    }
  }

  lemma {:induction false} TotalTimeOut(w: World, s: State, es: seq<Entry>, f: Entry -> bool)
    requires Blind(f)
    ensures Total(TimeOut(w, s, es), f) == Total(s, f) + Size(es, f)
  {
    if es != [] {
      var n := |es| - 1;
      TotalTimeOut(w, s, es[..n], f);
      var s' := TimeOut(w, s, es[..n]);
      var e := es[n].(sem := NOTHING);
      assert e == Retimed(es[n], es[n].waittime, NOTHING);
      TotalGive(w, s'.(sem := Add(s'.sem, Target(es[n].sem, es[n].attr), -1)), e, f);
    }
  }

  lemma {:induction false} InsertSize(q: seq<Entry>, e: Entry, f: Entry -> bool)
    ensures Size(Insert(q, e), f) == Size(q, f) + if f(e) then 1 else 0
  {
    if q == [] || q[0].waittime > e.waittime {
      TakeCons(e, q, f);
    } else {
      InsertSize(q[1..], e, f);
      TakeCons(q[0], Insert(q[1..], e), f);
      TakeCons(q[0], q[1..], f);
      assert q == [q[0]] + q[1..];
    }
  }

  lemma TotalWaiting(w: World, s: State, f: Entry -> bool)
    requires Blind(f)
    ensures Total(ReleaseWaiting(w, s), f) == Total(s, f)
  {
    hide GiveQue, Take, Blind;
    if s.wq != [] && s.wq[0].waittime <= s.now {
      assert s.wq == [s.wq[0]] + s.wq[1..];
      TakeCons(s.wq[0], s.wq[1..], f);
      TotalGive(w, s.(wq := s.wq[1..]), s.wq[0], f);
    }
  }

  lemma TotalReleased(w: World, s: State, f: Entry -> bool)
    requires Blind(f)
    ensures Total(ReleaseTimedOut(w, s), f) == Total(s, f)
  {
    hide TimeOut, Take, Blind;
    Partition(s.sq, Expired(s.now), f);
    TotalTimeOut(w, s.(sq := Take(s.sq, Not(Expired(s.now)))), Take(s.sq, Expired(s.now)), f);
  }

  lemma TotalSecond(w: World, s: State, f: Entry -> bool)
    requires Blind(f)
    ensures Total(DoSecond(w, s), f) == Total(s, f)
  {
    hide ReleaseWaiting, ReleaseTimedOut, Take, Blind;
    if s.dequeue {
      var s1 := MergeObjectQueue(s);
      TakeAppend(s.pq, s.oq, f);
      NoneTaken([], f);
      TotalWaiting(w, s1, f);
      TotalReleased(w, ReleaseWaiting(w, s1), f);
    }
  }

  /** Rewriting only the fields a blind test ignores leaves every count alone. */
  lemma {:induction false} RetimedSize(a: seq<Entry>, b: seq<Entry>, f: Entry -> bool)
    requires Blind(f) && |a| == |b|
    requires forall i :: 0 <= i < |a| ==> b[i] == Retimed(a[i], b[i].waittime, a[i].sem)
    ensures Size(a, f) == Size(b, f)
  {
    if a != [] {
      var n := |a| - 1;
      RetimedSize(a[..n], b[..n], f);
      assert b[n] == Retimed(a[n], b[n].waittime, a[n].sem);
    }
  }

  lemma TotalWarp(w: World, s: State, i: int, f: Entry -> bool)
    requires Blind(f)
    ensures Total(Warp(w, s, i), f) == Total(s, f)
  {
    RetimedSize(s.wq, WarpWait(s.wq, i), f);
    RetimedSize(s.sq, WarpSem(s.sq, i), f);
    TotalSecond(w, s.(wq := WarpWait(s.wq, i), sq := WarpSem(s.sq, i), dequeue := true), f);
  }

  // ---------------------------------------------------------------------
  // Notifying
  // ---------------------------------------------------------------------

  /** How many entries the pass of `nfy_que` looks at. */
  ghost function Looked(q: seq<Entry>, hit: Entry -> bool, limited: bool, left: int): (j: nat)
    ensures j <= |q|
  {
    if q == [] then 0
    else
      var left' := if hit(q[0]) then left - 1 else left;
      if limited && left' <= 0 then 1 else 1 + Looked(q[1..], hit, limited, left')
  }

  /** A pass takes the matching entries of a prefix, in order, and leaves everything else in order. */
  lemma {:induction false} ScanSplits(q: seq<Entry>, hit: Entry -> bool, limited: bool, left: int)
    ensures var r := Scan(q, hit, limited, left); var j := Looked(q, hit, limited, left);
      && r.0 == Take(q[..j], hit)
      && r.1 == Take(q[..j], Not(hit)) + q[j..]
  {
    if q != [] {
      var left' := if hit(q[0]) then left - 1 else left;
      var j := Looked(q, hit, limited, left);
      assert q[..j] == [q[0]] + q[1..][..j - 1];
      TakeCons(q[0], q[1..][..j - 1], hit);
      TakeCons(q[0], q[1..][..j - 1], Not(hit));
      if limited && left' <= 0 {
        assert q[1..][..0] == [];
      } else {
        ScanSplits(q[1..], hit, limited, left');
        assert q[j..] == q[1..][j - 1..];
      }
    }
  }

  lemma ScanSizes(q: seq<Entry>, hit: Entry -> bool, limited: bool, left: int, f: Entry -> bool)
    ensures var r := Scan(q, hit, limited, left); Size(q, f) == Size(r.0, f) + Size(r.1, f)
  {
    ScanSplits(q, hit, limited, left);
    var j := Looked(q, hit, limited, left);
    assert q == q[..j] + q[j..];
    TakeAppend(q[..j], q[j..], f);
    Partition(q[..j], hit, f);
    TakeAppend(Take(q[..j], Not(hit)), q[j..], f);
  }

  /** A limited pass takes exactly as many of the oldest matching entries as asked for, if there are enough. */
  lemma {:induction false} ScanTakesOldest(q: seq<Entry>, hit: Entry -> bool, limited: bool, left: int)
    requires limited ==> left > 0
    ensures var r := Scan(q, hit, limited, left); var all := Take(q, hit);
      var n := if limited && left < |all| then left else |all|;
      r.0 == all[..n] && Take(r.1, hit) == all[n..] && Take(r.1, Not(hit)) == Take(q, Not(hit))
  {
    hide Take;
    NoneTaken([], hit);
    if q != [] {
      var left' := if hit(q[0]) then left - 1 else left;
      assert q == [q[0]] + q[1..];
      TakeCons(q[0], q[1..], hit);
      TakeCons(q[0], q[1..], Not(hit));
      if limited && left' <= 0 {
        assert hit(q[0]) && left == 1;
      } else {
        ScanTakesOldest(q[1..], hit, limited, left');
        var r := Scan(q[1..], hit, limited, left');
        TakeCons(q[0], r.1, hit);
        TakeCons(q[0], r.1, Not(hit));
      }
    }
  }
}
