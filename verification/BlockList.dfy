/** Singly linked lists of queue blocks, edited in place through `next`. */
module BlockList {
  import opened Wrappers
  import opened Constants
  import opened QueueModel

  /** A queue block (BQUE). */
  class Bque {
    ghost const id: nat
    var player: Dbref
    const cause: Dbref
    var waittime: int
    var sem: Dbref
    var attr: int
    var next: Bque?

    constructor (ghost id: nat, player: Dbref, cause: Dbref)
      ensures Val() == Entry(id, player, cause, 0, NOTHING, 0) && next == null
    {
      this.id, this.player, this.cause := id, player, cause;
      waittime, sem, attr, next := 0, NOTHING, 0, null;
    }

    ghost function Val(): Entry
      reads this
    {
      Entry(id, player, cause, waittime, sem, attr)
    }
  }

  ghost predicate Owns(r: set<object>, nodes: seq<Bque>) {
    forall i :: 0 <= i < |nodes| ==> nodes[i] in r
  }

  lemma OwnsBoth(a: seq<Bque>, b: seq<Bque>, ra: set<object>, rb: set<object>, x: List)
    requires Owns(ra, a) && Owns(rb, b)
    ensures Owns(ra + rb - {x}, a + b)
  {}

  lemma Inserted(nodes: seq<Bque>, r: set<object>, tmp: Bque, i: nat)
    requires Distinct(nodes) && Owns(r, nodes) && tmp !in r && i <= |nodes|
    ensures var ns := nodes[..i] + [tmp] + nodes[i..];
      && Distinct(ns) && Owns(r + {tmp}, ns)
      && ns[0] == (if i == 0 then tmp else nodes[0]) && ns[|ns| - 1] == if i == |nodes| then tmp else nodes[|nodes| - 1]
    ensures forall k :: 0 <= k < |nodes| ==> nodes[k] in r
    ensures forall k, l :: 0 <= k < l < |nodes| ==> nodes[k] != nodes[l]
  {}

  lemma DistinctBoth(a: seq<Bque>, b: seq<Bque>, ra: set<object>, rb: set<object>)
    requires Distinct(a) && Distinct(b) && Owns(ra, a) && Owns(rb, b) && ra !! rb
    ensures Distinct(a + b)
  {}

  /** The blocks stand for the values and are linked in order. */
  ghost predicate Linked(nodes: seq<Bque>, vals: seq<Entry>)
    reads nodes
  {
    && |nodes| == |vals|
    && (forall i {:trigger vals[i]} :: 0 <= i < |nodes| ==> nodes[i].Val() == vals[i])
    && (forall i {:trigger nodes[i].next} :: 0 <= i < |nodes| - 1 ==> nodes[i].next == nodes[i + 1])
    && (nodes != [] ==> nodes[|nodes| - 1].next == null)
  }

  /** Two linked stretches become one when the end of the first is linked to the second. */
  twostate lemma Spliced(a: seq<Bque>, new va: seq<Entry>, new b: seq<Bque>, new vb: seq<Entry>)
    requires old(Linked(a, va)) && Linked(b, vb)
    requires forall i :: 0 <= i < |a| - 1 ==> unchanged(a[i])
    requires a != [] ==> a[|a| - 1].Val() == old(a[|a| - 1].Val()) && a[|a| - 1].next == if b == [] then null else b[0]
    ensures Linked(a + b, va + vb)
  {
  }

  /** A block linked in between two others. */
  twostate lemma LinkedIn(nodes: seq<Bque>, new vals: seq<Entry>, new tmp: Bque, new i: nat)
    requires old(Linked(nodes, vals)) && i <= |nodes|
    requires forall k :: 0 <= k < |nodes| && k != i - 1 ==> unchanged(nodes[k])
    requires i > 0 ==> nodes[i - 1].Val() == old(nodes[i - 1].Val()) && nodes[i - 1].next == tmp
    requires tmp.next == if i == |nodes| then null else nodes[i]
    ensures Linked(nodes[..i] + [tmp] + nodes[i..], vals[..i] + [tmp.Val()] + vals[i..])
  {
  }

  /** A block unlinked from between two others. */
  twostate lemma LinkedOver(nodes: seq<Bque>, new vals: seq<Entry>, new i: nat)
    requires old(Linked(nodes, vals)) && i < |nodes|
    requires forall k :: 0 <= k < |nodes| && k != i - 1 ==> unchanged(nodes[k])
    requires i > 0 ==> nodes[i - 1].Val() == old(nodes[i - 1].Val()) && nodes[i - 1].next == old(nodes[i].next)
    ensures Linked(nodes[..i] + nodes[i + 1..], vals[..i] + vals[i + 1..])
  {
  }

  lemma Removed(nodes: seq<Bque>, r: set<object>, i: nat)
    requires Distinct(nodes) && Owns(r, nodes) && i < |nodes|
    ensures var ns := nodes[..i] + nodes[i + 1..];
      && Distinct(ns) && Owns(r - {nodes[i]}, ns)
      && (ns != [] ==> ns[0] == nodes[if i == 0 then 1 else 0] && ns[|ns| - 1] == nodes[if i + 1 == |nodes| then i - 1 else |nodes| - 1])
    ensures forall k :: 0 <= k < |nodes| ==> nodes[k] in r
    ensures forall k, l :: 0 <= k < l < |nodes| ==> nodes[k] != nodes[l]
  {}

  /** A list head with its tail pointer. */
  class List {
    var first: Bque?
    var last: Bque?

    ghost var Repr: set<object>
    ghost var nodes: seq<Bque>
    ghost var vals: seq<Entry>

    /** The blocks are different, linked in order from `first`, and `last` is the last of them. */
    ghost predicate Valid()
      reads this, Repr
      ensures Valid() ==> this in Repr
    {
      && this in Repr
      && first == (if nodes == [] then null else nodes[0])
      && last == (if nodes == [] then null else nodes[|nodes| - 1])
      && Owns(Repr, nodes)
      && Distinct(nodes)
      && Linked(nodes, vals)
    }

    ghost predicate Holds(i: int, p: Bque?)
      reads this
    {
      0 <= i <= |nodes| == |vals| && p == if i == |nodes| then null else nodes[i]
    }

    constructor ()
      ensures Valid() && Repr == {this} && nodes == [] && vals == []
    {
      first, last, nodes, vals, Repr := null, null, [], [], {this};
    }

    method Append(tmp: Bque)
      requires Valid() && tmp !in Repr && tmp.next == null
      modifies Repr
      ensures Valid() && Repr == old(Repr) + {tmp}
      ensures nodes == old(nodes) + [tmp] && vals == old(vals) + [tmp.Val()]
    {
      if last != null {
        last.next := tmp;
        last := tmp;
      } else {
        last, first := tmp, tmp;
      }
      Repr := Repr + {tmp};
      nodes, vals := nodes + [tmp], vals + [tmp.Val()];
    }

    /** Put a block in front of `point`, whose predecessor is `trail`. */
    method InsertBefore(tmp: Bque, trail: Bque?, point: Bque?, ghost i: nat)
      requires Valid() && tmp !in Repr && Holds(i, point) && (if i == 0 then trail == null else Holds(i - 1, trail))
      modifies Repr, tmp`next
      ensures Valid() && Repr == old(Repr) + {tmp}
      ensures nodes == old(nodes)[..i] + [tmp] + old(nodes)[i..]
      ensures vals == old(vals)[..i] + [old(tmp.Val())] + old(vals)[i..]
    {
      hide Distinct, Owns, Linked;
      Inserted(nodes, Repr, tmp, i);
      ghost var ns, vs := nodes, vals;
      assert |ns| == |vs| by { NextOf(i); }
      tmp.next := point;
      if trail != null {
        trail.next := tmp;
      } else {
        first := tmp;
      }
      if point == null {
        last := tmp;
      }
      Repr := Repr + {tmp};
      nodes, vals := nodes[..i] + [tmp] + nodes[i..], vals[..i] + [tmp.Val()] + vals[i..];
      LinkedIn(ns, vs, tmp, i);
    }

    /** Unlink `point`, whose predecessor is `trail`; returns its successor. */
    method Unlink(trail: Bque?, point: Bque, ghost i: nat) returns (next: Bque?)
      requires Valid() && i < |nodes| && point == nodes[i] && (if i == 0 then trail == null else Holds(i - 1, trail))
      modifies Repr
      ensures Valid() && Repr == old(Repr) - {point} && point.Val() == old(point.Val())
      ensures nodes == old(nodes)[..i] + old(nodes)[i + 1..] && vals == old(vals)[..i] + old(vals)[i + 1..]
      ensures Holds(i, next) && (i > 0 ==> Holds(i - 1, trail))
    {
      hide Distinct, Owns, Linked;
      Removed(nodes, Repr, i);
      NextOf(i);
      ghost var ns, vs := nodes, vals;
      next := point.next;
      if trail != null {
        trail.next := next;
      } else {
        first := next;
      }
      if point == last {
        last := trail;
      }
      Repr := Repr - {point};
      nodes, vals := nodes[..i] + nodes[i + 1..], vals[..i] + vals[i + 1..];
      LinkedOver(ns, vs, i);
    }

    lemma NextOf(i: nat)
      requires Valid()
      ensures |nodes| == |vals|
      ensures i < |nodes| ==> nodes[i].next == if i + 1 < |nodes| then nodes[i + 1] else null
    {}

    /** Wipe the player of a block that stays linked. */
    method Wipe(point: Bque, ghost i: nat)
      requires Valid() && i < |nodes| && point == nodes[i]
      modifies Repr
      ensures Valid() && Repr == old(Repr) && nodes == old(nodes)
      ensures vals == old(vals)[i := old(vals)[i].(player := NOTHING)]
      ensures first == old(first) && last == old(last) && forall n: Bque :: n in nodes ==> n.next == old(n.next)
    {
      point.player := NOTHING;
      vals := vals[i := vals[i].(player := NOTHING)];
    }

    method SetTimer(point: Bque, t: int, ghost i: nat)
      requires Valid() && i < |nodes| && point == nodes[i]
      modifies Repr
      ensures Valid() && Repr == old(Repr) && nodes == old(nodes) && vals == old(vals)[i := old(vals)[i].(waittime := t)]
    {
      point.waittime := t;
      vals := vals[i := vals[i].(waittime := t)];
    }

    /** Splice all of `other` behind this list and empty it. */
    method TakeAllFrom(other: List)
      requires Valid() && other.Valid() && Repr !! other.Repr
      modifies Repr, other.Repr
      ensures Valid() && other.Valid() && Repr == old(Repr) + old(other.Repr) - {other} && other.Repr == {other}
      ensures nodes == old(nodes) + old(other.nodes) && vals == old(vals) + old(other.vals)
      ensures other.nodes == [] && other.vals == []
    {
      hide Distinct, Owns, Linked;
      ghost var a, va, b, vb := nodes, vals, other.nodes, other.vals;
      OwnsBoth(a, b, Repr, other.Repr, other);
      DistinctBoth(a, b, Repr, other.Repr);
      NoneOwned(other);
      TailApart(other);
      Ends(a, b);
      if other.first != null {
        if last != null {
          last.next := other.first;
        } else {
          first := other.first;
        }
        last := other.last;
        other.last, other.first := null, null;
      }
      Spliced(a, va, b, vb);
      ghost var r := Repr + other.Repr - {other};
      other.Record([], [], {other});
      Record(a + b, va + vb, r);
    }

    /** The list now stands for these blocks. */
    ghost method Record(ns: seq<Bque>, vs: seq<Entry>, r: set<object>)
      requires Linked(ns, vs)
      modifies this`Repr, this`nodes, this`vals
      ensures Repr == r && nodes == ns && vals == vs && Linked(ns, vs)
    {
      Repr, nodes, vals := r, ns, vs;
    }

    lemma Ends(a: seq<Bque>, b: seq<Bque>)
      ensures (a + b == [] <==> a == [] && b == []) && (b == [] ==> a + b == a)
      ensures a + b != [] ==>
        (a + b)[0] == (if a == [] then b[0] else a[0]) && (a + b)[|a + b| - 1] == if b == [] then a[|a| - 1] else b[|b| - 1]
    {}

    /** The tail is a block of this list and of no other, and no block before it. */
    lemma TailApart(other: List)
      requires Valid() && other.Valid() && Repr !! other.Repr
      ensures |nodes| == |vals| && |other.nodes| == |other.vals| && (last != null ==> last.next == null)
      ensures last != null ==> last in Repr && (forall i :: 0 <= i < |nodes| - 1 ==> nodes[i] != last)
      ensures last != null ==> forall i :: 0 <= i < |other.nodes| ==> other.nodes[i] != last
    {}

    lemma NoneOwned(other: List)
      ensures Owns({other}, []) && Distinct<Bque>([]) && Linked([], [])
    {}

    method RemoveFirst()
      requires Valid()
      modifies Repr
      ensures Valid()
      ensures old(nodes) == [] ==> nodes == [] && vals == [] && Repr == old(Repr)
      ensures old(nodes) != [] ==> nodes == old(nodes)[1..] && vals == old(vals)[1..] && Repr == old(Repr) - {old(nodes)[0]}
      ensures old(nodes) != [] ==> old(nodes)[0].Val() == old(nodes[0].Val())
    {
      if first != null {
        Repr := Repr - {first};
        first := first.next;
        nodes, vals := nodes[1..], vals[1..];
      }
      if first == null {
        last := null;
      }
    }

    lemma Start()
      requires Valid()
      ensures Holds(0, first)
    {
    }

    /** The block after position `i`. */
    lemma Next(i: nat)
      requires Valid() && i < |nodes|
      ensures Holds(i + 1, nodes[i].next) && nodes[i].Val() == vals[i] && nodes[i] in Repr
    {
      if i + 1 < |nodes| { assert nodes[i].next == nodes[i + 1]; }
    }
  }
}
