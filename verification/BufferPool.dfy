/** The buffer pools of src/alloc.c.  Every buffer ever made hangs on a chain; the ones given
    back hang on a free list too and carry a magic word in front. */
module BufferPool {
  import opened Wrappers

  const POOL_MAGICNUM: int := 0xdead_beef

  /** A header (POOLHDR) with the first word of its buffer. */
  class Header {
    const poolSize: int
    var next: Header?
    var nxtfree: Header?
    var word: int

    constructor (poolSize: int, next: Header?)
      ensures this.poolSize == poolSize && this.next == next && nxtfree == null && word == POOL_MAGICNUM
    {
      this.poolSize, this.next, nxtfree, word := poolSize, next, null, POOL_MAGICNUM;
    }
  }

  ghost predicate Chained(head: Header?, s: seq<Header>)
    reads s
  {
    && head == (if s == [] then null else s[0])
    && (forall i {:trigger s[i].next} :: 0 <= i < |s| - 1 ==> s[i].next == s[i + 1])
    && (s != [] ==> s[|s| - 1].next == null)
  }

  ghost predicate FreeChained(head: Header?, s: seq<Header>)
    reads s
  {
    && head == (if s == [] then null else s[0])
    && (forall i {:trigger s[i].nxtfree} :: 0 <= i < |s| - 1 ==> s[i].nxtfree == s[i + 1])
    && (s != [] ==> s[|s| - 1].nxtfree == null)
  }

  lemma {:induction false} SetSize(s: seq<Header>)
    requires Distinct(s)
    ensures |set h | h in s| == |s|
  {
    if s != [] {
      var t := s[..|s| - 1];
      SetSize(t);
      assert (set h | h in s) == (set h | h in t) + {s[|s| - 1]};
    }
  }

  class Pool {
    const poolSize: int
    var freeHead: Header?
    var chainHead: Header?
    var totAlloc: int
    var numAlloc: int
    var maxAlloc: int
    ghost var chain: seq<Header>
    ghost var free: seq<Header>

    /** The chain is the free list and the live buffers, which are told apart by the magic
        word; the counters count them. */
    ghost predicate Valid()
      reads this, chain, free
    {
      && Chained(chainHead, chain) && FreeChained(freeHead, free)
      && Distinct(chain) && Distinct(free)
      && (forall i :: 0 <= i < |free| ==> free[i] in chain)
      && (forall i :: 0 <= i < |chain| ==> chain[i].poolSize == poolSize && (chain[i].word == POOL_MAGICNUM <==> chain[i] in free))
      && numAlloc == |chain| - |free| && maxAlloc == |chain|
    }

    ghost function Live(): set<Header>
      reads this
    {
      (set h | h in chain) - (set h | h in free)
    }

    /** The counter of buffers in use is their number. */
    lemma LiveCount()
      requires Valid()
      ensures |Live()| == numAlloc
    {
      SetSize(chain);
      SetSize(free);
      assert (set h | h in free) <= (set h | h in chain);
    }

    /** pool_init */
    constructor (poolSize: int)
      ensures Valid() && Live() == {} && chain == [] && this.poolSize == poolSize && totAlloc == 0
    {
      this.poolSize, freeHead, chainHead, totAlloc, numAlloc, maxAlloc := poolSize, null, null, 0, 0, 0;
      chain, free := [], [];
    }

    /** A client may write anything into a live buffer but the magic word first. */
    method Write(h: Header, v: int)
      requires Valid() && h in Live() && v != POOL_MAGICNUM
      modifies h`word
      ensures Valid() && h.word == v
    {
      h.word := v;
    }

    /** A new buffer in front of the chain; it looks freed until it is handed out. */
    method Extend() returns (h: Header)
      requires Valid() && free == []
      modifies this
      ensures fresh(h) && h.poolSize == poolSize && h.nxtfree == null
      ensures chain == [h] + old(chain) && free == [] && Distinct(chain) && Chained(chainHead, chain) && maxAlloc == old(maxAlloc) + 1
      ensures freeHead == old(freeHead) && numAlloc == old(numAlloc) && totAlloc == old(totAlloc)
    {
      h := new Header(poolSize, chainHead);
      chainHead := h;
      maxAlloc := maxAlloc + 1;
      chain := [h] + chain;
    }

    /** pool_alloc: a free buffer if there is one, else a new one; never one that is in use. */
    method Alloc() returns (h: Header)
      requires Valid()
      modifies this, chain
      ensures Valid() && h !in old(Live()) && Live() == old(Live()) + {h} && h.word == 0
      ensures if old(free) == [] then fresh(h) && chain == [h] + old(chain)
              else h == old(free)[0] && chain == old(chain) && free == old(free)[1..]
      ensures forall g :: g in old(chain) && g != h ==> g.word == old(g.word)
      ensures numAlloc == old(numAlloc) + 1 && totAlloc == old(totAlloc) + 1
    {
      if freeHead == null {
        h := Extend();
        HandOut(h);
      } else {
        h := freeHead;
        freeHead := h.nxtfree;
        free := free[1..];
        HandOut(h);
      }
    }

    /** Count the buffer as handed out and clear its first word. */
    method HandOut(h: Header)
      requires h in chain && h !in free
      modifies this, h`word
      ensures h.word == 0 && totAlloc == old(totAlloc) + 1 && numAlloc == old(numAlloc) + 1
      ensures chain == old(chain) && free == old(free) && freeHead == old(freeHead) && chainHead == old(chainHead) && maxAlloc == old(maxAlloc)
    {
      totAlloc := totAlloc + 1;
      numAlloc := numAlloc + 1;
      h.word := 0;
    }

    /** pool_free: a live buffer becomes free; a buffer that is free already, or belongs to a
        pool of another size, is left alone. */
    method Free(h: Header)
      requires Valid() && (h.poolSize == poolSize ==> h in chain)
      modifies this, h
      ensures Valid() && chain == old(chain) && totAlloc == old(totAlloc)
      ensures h in old(Live()) ==>
        free == [h] + old(free) && Live() == old(Live()) - {h} && numAlloc == old(numAlloc) - 1
      ensures h !in old(Live()) ==>
        free == old(free) && Live() == old(Live()) && numAlloc == old(numAlloc) && h.word == old(h.word)
    {
      if h.poolSize != poolSize {
        return;
      }
      if h.word != POOL_MAGICNUM {
        h.word := POOL_MAGICNUM;
        h.nxtfree := freeHead;
        freeHead := h;
        numAlloc := numAlloc - 1;
        free := [h] + free;
      }
    }

    /** pool_reset: the free buffers go, the live ones stay, and all that is left is in use. */
    method Reset()
      requires Valid()
      modifies this, chain
      ensures Valid() && Live() == old(Live()) && free == []
      ensures (set h | h in chain) == Live() && numAlloc == old(numAlloc) && maxAlloc == numAlloc
      ensures forall g :: g in old(chain) ==> g.word == old(g.word)
    {
      hide Chained;
      ghost var was, gone := chain, free;
      LiveCount();
      var newchain;
      ghost var kept;
      newchain, kept := ChainLive();
      KeptAll(was, gone, kept);
      SetSize(kept);
      forall i | 0 <= i < |kept| ensures kept[i].poolSize == poolSize && kept[i].word != POOL_MAGICNUM {
        assert kept[i] in set h | h in kept;
        var j :| 0 <= j < |was| && was[j] == kept[i];
      }
      assert (set h | h in kept) == old(Live());
      Settle(newchain, kept);
    }

    method Settle(newchain: Header?, ghost kept: seq<Header>)
      requires Chained(newchain, kept) && Distinct(kept) && numAlloc == |kept|
      requires forall i :: 0 <= i < |kept| ==> kept[i].poolSize == poolSize && kept[i].word != POOL_MAGICNUM
      modifies this
      ensures Valid() && chain == kept && free == [] && numAlloc == old(numAlloc) && maxAlloc == numAlloc
    {
      chainHead, freeHead := newchain, null;
      maxAlloc := numAlloc;
      chain, free := kept, [];
    }

    /** The loop of pool_reset: chain the live buffers anew. */
    method ChainLive() returns (newchain: Header?, ghost kept: seq<Header>)
      requires Valid()
      modifies chain
      ensures Chained(newchain, kept) && KeptOf(chain, free, |chain|, kept)
      ensures forall g :: g in chain ==> g.word == old(g.word)
    {
      hide Chained, KeptOf, FreeChained;
      ghost var was, gone := chain, free;
      kept := [];
      ghost var i := 0;
      ChainedStart(chainHead, chain);
      newchain := null;
      var ph := chainHead;
      while ph != null
        invariant i <= |was| && Chained(newchain, kept) && ChainedFrom(ph, was, i)
        invariant KeptOf(was, gone, i, kept)
        invariant forall g :: g in was ==> g.word == old(g.word)
        decreases |was| - i
      {
        assert ph == was[i];
        var phnext := ph.next;
        ChainedNext(ph, was, i);
        KeptStep(was, gone, i, kept);
        if ph.word != POOL_MAGICNUM {
          Relink(ph, newchain, was, i, kept);
          newchain := ph;
          kept := [ph] + kept;
        }
        ph := phnext;
        i := i + 1;
      }
    }

    /** Put a header in front of the new chain. */
    method Relink(ph: Header, newchain: Header?, ghost was: seq<Header>, ghost i: nat, ghost kept: seq<Header>)
      requires i < |was| && ph == was[i] && Distinct(was) && ChainedFrom(if i + 1 < |was| then was[i + 1] else null, was, i + 1)
      requires Chained(newchain, kept) && ph !in kept
      modifies ph`next, ph`nxtfree
      ensures Chained(ph, [ph] + kept) && ChainedFrom(if i + 1 < |was| then was[i + 1] else null, was, i + 1)
    {
      ph.next := newchain;
      ph.nxtfree := null;
    }
  }

  lemma ChainedStart(head: Header?, s: seq<Header>)
    requires Chained(head, s)
    ensures ChainedFrom(head, s, 0) && Chained(null, []) && KeptOf(s, [], 0, [])
    ensures forall gone :: KeptOf(s, gone, 0, [])
  {}

  /** `s` is chained from position `i` on. */
  ghost predicate ChainedFrom(head: Header?, s: seq<Header>, i: nat)
    reads s
  {
    && head == (if i < |s| then s[i] else null)
    && (forall k {:trigger s[k].next} :: i <= k < |s| - 1 ==> s[k].next == s[k + 1])
    && (i < |s| ==> s[|s| - 1].next == null)
  }

  lemma ChainedNext(head: Header?, s: seq<Header>, i: nat)
    requires ChainedFrom(head, s, i) && i < |s|
    ensures ChainedFrom(s[i].next, s, i + 1) && s[i].next == if i + 1 < |s| then s[i + 1] else null
  {
    if i + 1 < |s| { assert s[i].next == s[i + 1]; }
  }

  /** Of the first `i` headers, those that are not free, each once. */
  ghost predicate KeptOf(was: seq<Header>, gone: seq<Header>, i: nat, kept: seq<Header>)
    requires i <= |was|
  {
    && Distinct(kept)
    && (forall k :: 0 <= k < |kept| ==> kept[k] in was[..i] && kept[k] !in gone)
    && (forall k :: 0 <= k < i ==> was[k] in kept || was[k] in gone)
  }

  lemma NotKeptYet(was: seq<Header>, gone: seq<Header>, i: nat, kept: seq<Header>)
    requires i < |was| && Distinct(was) && KeptOf(was, gone, i, kept)
    ensures was[i] !in kept
  {
    forall k | 0 <= k < |kept| ensures kept[k] != was[i] {
      assert kept[k] in was[..i];
      var j :| 0 <= j < i && was[..i][j] == kept[k];
    }
  }

  lemma KeptStep(was: seq<Header>, gone: seq<Header>, i: nat, kept: seq<Header>)
    requires i < |was| && Distinct(was) && KeptOf(was, gone, i, kept)
    ensures was[i] in gone ==> KeptOf(was, gone, i + 1, kept)
    ensures was[i] !in gone ==> was[i] !in kept && KeptOf(was, gone, i + 1, [was[i]] + kept)
  {
    NotKeptYet(was, gone, i, kept);
    assert was[..i + 1] == was[..i] + [was[i]];
  }

  lemma KeptAll(was: seq<Header>, gone: seq<Header>, kept: seq<Header>)
    requires KeptOf(was, gone, |was|, kept)
    ensures Distinct(kept) && (set h | h in kept) == (set h | h in was) - (set h | h in gone)
  {
    assert was[..|was|] == was;
  }
}
