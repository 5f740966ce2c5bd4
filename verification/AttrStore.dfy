/** The disk back end of src/db.c: a store of attributes with, for each object, an index
    of its attribute numbers kept under `A_LIST`.  One index at a time is held in a
    buffer, edited in place, and written back when another object's is wanted. */
module AttrStore {
  import opened Constants
  import opened Wrappers
  import opened AttrList
  import opened AttrMap

  const ATR_BUF_CHUNK: nat := 100

  /** An index: positive numbers, each once, none of them its own. */
  ghost predicate IndexShape(ns: seq<nat>) {
    Numbers(ns) && Distinct(ns) && A_LIST !in ns
  }

  /** `ns` without `a`. */
  function Without(ns: seq<nat>, a: nat): seq<nat> {
    if ns == [] then [] else if ns[0] == a then ns[1..] else [ns[0]] + Without(ns[1..], a)
  }

  lemma {:induction false} WithoutElements(ns: seq<nat>, a: nat)
    requires IndexShape(ns)
    ensures IndexShape(Without(ns, a)) && forall x :: x in Without(ns, a) <==> x in ns && x != a
  {
    if ns != [] {
      assert ns == [ns[0]] + ns[1..];
      if ns[0] == a {
        assert forall i :: 0 <= i < |ns[1..]| ==> ns[1..][i] == ns[i + 1];
      } else {
        assert IndexShape(ns[1..]) by { assert forall i :: 0 <= i < |ns[1..]| ==> ns[1..][i] == ns[i + 1]; }
        WithoutElements(ns[1..], a);
        assert ns[0] !in ns[1..];
      }
    }
  }

  lemma AppendShape(ns: seq<nat>, a: nat)
    requires IndexShape(ns) && Number(a) && a != A_LIST && a !in ns
    ensures IndexShape(ns + [a])
  {}

  /** The logical index of an object: the buffered one if it is the object held, else the stored one. */
  ghost function IndexOf(lists: map<int, seq<nat>>, t: int): seq<nat> {
    if t in lists then lists[t] else []
  }

  ghost predicate Shapes(lists: map<int, seq<nat>>) {
    forall t :: t >= 0 ==> IndexShape(IndexOf(lists, t))
  }

  /** The store spells every index but that of `held`. */
  ghost predicate Stored(store: map<(int, nat), Text>, lists: map<int, seq<nat>>, held: int) {
    forall t :: t >= 0 && t != held ==>
      Get(store, (t, A_LIST)) == if IndexOf(lists, t) == [] then None else Some(Enc(IndexOf(lists, t)))
  }

  lemma ChangeHeld(store: map<(int, nat), Text>, lists: map<int, seq<nat>>, held: int, ns: seq<nat>)
    requires Shapes(lists) && Stored(store, lists, held) && IndexShape(ns)
    ensures Shapes(lists[held := ns]) && Stored(store, lists[held := ns], held)
  {
    var lists' := lists[held := ns];
    forall t | t >= 0 ensures IndexShape(IndexOf(lists', t)) {
      assert IndexShape(IndexOf(lists, t));
    }
    forall t | t >= 0 && t != held ensures IndexOf(lists', t) == IndexOf(lists, t) {}
  }

  /** Two stores differ in nothing but indexes. */
  ghost predicate SameAttrs(a: map<(int, nat), Text>, b: map<(int, nat), Text>) {
    forall t, n :: n != A_LIST ==> Get(a, (t, n)) == Get(b, (t, n))
  }

  /** The attributes, without the indexes. */
  ghost function AttrsOf(store: map<(int, nat), Text>): map<(int, nat), Text> {
    map k | k in store && k.1 != A_LIST :: store[k]
  }

  lemma SameVisible(a: map<(int, nat), Text>, b: map<(int, nat), Text>)
    requires SameAttrs(a, b)
    ensures AttrsOf(a) == AttrsOf(b)
  {
    forall t: int, n: nat
      ensures (t, n) in AttrsOf(a) <==> (t, n) in AttrsOf(b)
      ensures (t, n) in AttrsOf(a) ==> AttrsOf(a)[(t, n)] == AttrsOf(b)[(t, n)]
    {
      if n != A_LIST { assert Get(a, (t, n)) == Get(b, (t, n)); }
    }
    forall k: (int, nat)
      ensures k in AttrsOf(a) <==> k in AttrsOf(b)
      ensures k in AttrsOf(a) ==> AttrsOf(a)[k] == AttrsOf(b)[k]
    {
      assert k == (k.0, k.1);
    }
  }

  class AttrDb {
    var store: map<(int, nat), Text>
    var modAlId: int
    var modAlist: array?<byte>
    var modSize: nat
    var iterData: array?<byte>
    var iterStack: seq<array?<byte>>
    ghost var lists: map<int, seq<nat>>

    /** Bytes in the store and in the buffer spell the logical indexes. */
    ghost predicate Bytes()
      reads this, modAlist
    {
      && modSize == (if modAlist == null then 0 else modAlist.Length)
      && (modAlist == null || modAlist != iterData)
      && Shapes(lists)
      && Stored(store, lists, modAlId)
      && (modAlId != NOTHING ==> modAlId >= 0 && modAlist != null && Holds(modAlist, 0, IndexOf(lists, modAlId)))
    }

    /** The index of every object lists exactly its stored attributes. */
    ghost predicate Agree()
      reads this
    {
      Agreement(store, lists)
    }

    ghost predicate Valid()
      reads this, modAlist
    {
      Bytes() && Agree()
    }

    ghost function Visible(): map<(int, nat), Text>
      reads this
    {
      AttrsOf(store)
    }

    /** Only the buffer may have been replaced, by a new one. */
    twostate predicate BufferKept()
      reads this
    {
      (modAlist == old(modAlist) || fresh(modAlist)) && iterData == old(iterData) && iterStack == old(iterStack)
    }

    /** al_extend on the index buffer. */
    method AlExtend(len: nat, copy: bool)
      requires modSize == (if modAlist == null then 0 else modAlist.Length) && len > 0
      requires modAlist == null || modAlist != iterData
      modifies this`modAlist, this`modSize
      ensures modAlist != null && modSize == modAlist.Length >= len && modAlist != iterData && BufferKept()
      ensures modAlist == old(modAlist) || old(modSize) < len
      ensures copy && old(modAlist) != null ==>
        old(modSize) <= modSize && modAlist[..old(modSize)] == old(if modAlist == null then [] else modAlist[..])
    {
      if len > modSize {
        var newsize := len + ATR_BUF_CHUNK;
        var tbuff := new byte[newsize];
        if modAlist != null && copy {
          forall i | 0 <= i < modSize { tbuff[i] := modAlist[i]; }
        }
        modAlist := tbuff;
        modSize := newsize;
      }
    }

    /** The stored string, up to its zero byte. */
    method CString(buf: array<byte>, ghost ns: seq<nat>) returns (s: Text)
      requires Holds(buf, 0, ns) && Numbers(ns)
      ensures s == Enc(ns)
    {
      EncNonZero(ns);
      assert forall i :: 0 <= i < |Enc(ns)| ==> buf[i] == Enc(ns)[i] by { assert buf[0..|Enc(ns)|] == Enc(ns); }
      s := [];
      while buf[|s|] != 0
        invariant |s| <= |Enc(ns)| && s == Enc(ns)[..|s|]
        decreases |Enc(ns)| - |s|
      {
        s := s + [buf[|s|]];
      }
    }

    /** al_store: write the buffered index back.  For `A_LIST` itself, atr_add_raw and
        atr_clr only touch the store: al_add and al_delete return at once. */
    method AlStore()
      requires Bytes()
      modifies this`store, this`modAlId
      ensures Bytes() && modAlId == NOTHING && SameAttrs(old(store), store)
    {
      if modAlId != NOTHING {
        ghost var ns := IndexOf(lists, modAlId);
        EncNonZero(ns);
        assert ns != [] ==> modAlist[0] != 0 by { assert ns != [] ==> modAlist[0..|Enc(ns)|][0] == modAlist[0]; }
        if modAlist != null && modAlist[0] != 0 {
          var s := CString(modAlist, ns);
          store := store[(modAlId, A_LIST) := s];
        } else {
          store := store - {(modAlId, A_LIST)};
        }
      }
      modAlId := NOTHING;
    }

    /** al_fetch: make the index of `thing` the buffered one. */
    method AlFetch(thing: int)
      requires Bytes() && thing >= 0
      modifies this`store, this`modAlId, this`modAlist, this`modSize, modAlist
      ensures Bytes() && modAlId == thing && SameAttrs(old(store), store) && BufferKept() && modAlist != null
    {
      if modAlId == thing {
        return;
      }
      AlStore();
      ghost var ns := IndexOf(lists, thing);
      EncNonZero(ns);
      if (thing, A_LIST) in store {
        var astr := store[(thing, A_LIST)];
        AlExtend(|astr| + 1, false);
        forall i | 0 <= i <= |astr| { modAlist[i] := if i < |astr| then astr[i] else 0; }
        assert modAlist[0..|astr|] == astr;
      } else {
        AlExtend(1, false);
        modAlist[0] := 0;
      }
      assert Holds(modAlist, 0, ns);
      modAlId := thing;
    }

    /** The walk of al_add: is the number listed, and where does the list end? */
    method FindEnd(ghost ns: seq<nat>) returns (cp: nat)
      requires modAlist != null && Holds(modAlist, 0, ns) && Numbers(ns)
      ensures cp == |Enc(ns)| < modAlist.Length
    {
      hide Enc, Code, HoldsIn;
      cp := 0;
      ghost var i := 0;
      assert ns[..0] == [] && ns[0..] == ns;
      EncEmpty();
      HoldsFirst(modAlist[..], 0, ns);
      while modAlist[cp] != 0
        invariant i <= |ns| && cp == |Enc(ns[..i])| && HoldsIn(modAlist[..], cp, ns[i..]) && cp < modAlist.Length
        invariant modAlist[cp] != 0 <==> i < |ns|
        decreases |ns| - i
      {
        var n;
        n, cp := AlDecode(modAlist, cp, ns[i..]);
        assert ns[i..][1..] == ns[i + 1..] && ns[..i + 1] == ns[..i] + [ns[i]];
        EncAppend(ns[..i], [ns[i]]);
        EncOne(ns[i]);
        i := i + 1;
        HoldsFirst(modAlist[..], cp, ns[i..]);
      }
      assert ns[..i] == ns;
    }

    /** al_add: list the number, unless it is there. */
    method AlAdd(thing: int, a: nat)
      requires Bytes() && thing >= 0 && Number(a) && a != A_LIST
      modifies this`store, this`modAlId, this`modAlist, this`modSize, this`lists, modAlist
      ensures Bytes() && SameAttrs(old(store), store) && BufferKept()
      ensures var ns := IndexOf(old(lists), thing);
        lists == if a in ns then old(lists) else old(lists)[thing := ns + [a]]
    {
      hide Enc, Code, HoldsIn;
      AlFetch(thing);
      ghost var ns := IndexOf(lists, thing);
      ghost var i;
      var found, start, cp;
      found, start, cp, i := FindNumber(modAlist, a, ns);
      if found {
        return;
      }
      assert ns[..i] == ns;
      var abuf := modAlist;
      ghost var was := modAlist[..];
      AlExtend(cp + ATR_BUF_INCR, true);
      HoldsPrefix(was, modAlist[..], ns);
      if modAlist != abuf {
        cp := FindEnd(ns);
      }
      AppendNumber(modAlist, cp, a, ns);
      AppendShape(ns, a);
      ChangeHeld(store, lists, thing, ns + [a]);
      lists := lists[thing := ns + [a]];
    }

    method DeleteFound(dp: nat, cp: nat, a: nat, ghost ns: seq<nat>, ghost i: nat)
      requires modAlist != null && Holds(modAlist, 0, ns) && Numbers(ns) && i < |ns| && ns[i] == a
      requires dp == |Enc(ns[..i])| && cp == dp + |Code(a)| && HoldsIn(modAlist[..], cp, ns[i + 1..])
      modifies modAlist
      ensures Holds(modAlist, 0, ns[..i] + ns[i + 1..])
    {
      hide Enc, Code, HoldsIn;
      assert ns == ns[..i] + ns[i..];
      HoldsCut(modAlist[..], 0, ns[..i], ns[i..]);
      Compact(modAlist, dp, cp, a, ns[..i], ns[i + 1..]);
    }

    /** al_delete: take the number out of the list, in place. */
    method AlDelete(thing: int, a: nat)
      requires Bytes() && thing >= 0 && Number(a) && a != A_LIST
      modifies this`store, this`modAlId, this`modAlist, this`modSize, this`lists, modAlist
      ensures Bytes() && SameAttrs(old(store), store) && BufferKept()
      ensures lists == old(lists)[thing := Without(IndexOf(old(lists), thing), a)]
    {
      hide Enc, Code, HoldsIn, Holds;
      AlFetch(thing);
      ghost var ns := IndexOf(lists, thing);
      ghost var i;
      var found, dp, cp;
      found, dp, cp, i := FindNumber(modAlist, a, ns);
      WithoutAt(ns, a, i);
      WithoutElements(ns, a);
      if found {
        DeleteFound(dp, cp, a, ns, i);
      }
      ChangeHeld(store, lists, thing, Without(ns, a));
      lists := lists[thing := Without(ns, a)];
    }

    // -------------------------------------------------------------------
    // atr_add_raw, atr_clr, atr_get_raw
    // -------------------------------------------------------------------

    method AtrAddRaw(thing: int, a: nat, buff: Text)
      requires Valid() && thing >= 0 && Number(a) && a != A_LIST && NulFree(buff)
      modifies this`store, this`modAlId, this`modAlist, this`modSize, this`lists, modAlist
      ensures Valid() && Visible() == Set(old(Visible()), (thing, a), buff) && BufferKept()
    {
      if buff == [] {
        AtrClr(thing, a);
        return;
      }
      hide Enc, Code, HoldsIn, Holds, IndexShape;
      ghost var was := store;
      store := store[(thing, a) := buff];
      ghost var put := store;
      AlAdd(thing, a);
      SameVisible(put, store);
      assert AttrsOf(put) == AttrsOf(was)[(thing, a) := buff];
      AgreeAfter(was, put, store, old(lists), lists, thing, a, true);
    }

    method AtrClr(thing: int, a: nat)
      requires Valid() && thing >= 0 && Number(a) && a != A_LIST
      modifies this`store, this`modAlId, this`modAlist, this`modSize, this`lists, modAlist
      ensures Valid() && Visible() == Clear(old(Visible()), (thing, a)) && BufferKept()
      ensures lists == old(lists)[thing := Without(IndexOf(old(lists), thing), a)]
    {
      hide Enc, Code, HoldsIn, Holds;
      WithoutElements(IndexOf(lists, thing), a);
      ghost var was := store;
      store := store - {(thing, a)};
      ghost var put := store;
      hide IndexShape;
      AlDelete(thing, a);
      SameVisible(put, store);
      assert AttrsOf(put) == AttrsOf(was) - {(thing, a)};
      AgreeAfter(was, put, store, old(lists), lists, thing, a, false);
    }

    method AtrGetRaw(thing: int, a: nat) returns (r: Option<Text>)
      requires a != A_LIST
      ensures r == Get(Visible(), (thing, a))
    {
      r := if (thing, a) in store then Some(store[(thing, a)]) else None;
    }

    // -------------------------------------------------------------------
    // Destroying an index, walking and freeing attributes
    // -------------------------------------------------------------------

    /** al_destroy: throw the index of `thing` away.  The indexes still agree with the
        attributes exactly when the object had none. */
    method AlDestroy(thing: int)
      requires Valid() && thing >= 0
      modifies this`store, this`modAlId, this`lists
      ensures Bytes() && Visible() == old(Visible()) && IndexOf(lists, thing) == []
      ensures forall t :: t != thing ==> IndexOf(lists, t) == IndexOf(old(lists), t)
      ensures Agree() <==> forall a :: (thing, a) !in old(Visible())
    {
      hide Enc, AttrsOf, Agreement, SameAttrs, Stored, Shapes;
      ghost var was := store;
      SameItself(was);
      if modAlId == thing {
        AlStore();
      }
      ghost var mid, lists0 := store, lists;
      store := store - {(thing, A_LIST)};
      lists := lists[thing := []];
      DropIndex(was, mid, lists0, modAlId, thing);
      SameVisible(was, store);
      DestroyAgrees(was, store, lists0, lists, thing);
    }

    method AtrPush()
      modifies this`iterData, this`iterStack
      ensures iterStack == [old(iterData)] + old(iterStack) && iterData == null
      ensures old(Bytes()) ==> Bytes()
    {
      iterStack := [iterData] + iterStack;
      iterData := null;
    }

    method AtrPop()
      modifies this`iterData, this`iterStack
      ensures old(iterStack) != [] ==> iterData == old(iterStack)[0] && iterStack == old(iterStack)[1..]
      ensures old(iterStack) == [] ==> iterData == null && iterStack == []
      ensures old(Bytes()) && (modAlist == null || iterData != modAlist) ==> Bytes()
    {
      if iterStack != [] {
        iterData, iterStack := iterStack[0], iterStack[1..];
      } else {
        iterData := null;
      }
    }

    /** Make room in the copy, whatever an earlier walk left there. */
    method ExtendIter(len: nat)
      requires len > 0
      modifies this`iterData
      ensures iterData != null && iterData.Length >= len && (iterData == old(iterData) || fresh(iterData))
    {
      if iterData == null || len > iterData.Length {
        iterData := new byte[len + ATR_BUF_CHUNK];
      }
    }

    /** atr_head: copy the index of `thing` aside, over what an earlier walk left there, and return
        its first number, 0 if there is none. */
    method AtrHead(thing: int) returns (attr: nat, at: nat)
      requires Bytes() && thing >= 0
      modifies this`iterData, iterData
      ensures Bytes() && (iterData == old(iterData) || fresh(iterData))
      ensures var ns := IndexOf(lists, thing);
        if ns == [] then attr == 0
        else attr == ns[0] && iterData != null && Holds(iterData, at, ns[1..])
      ensures iterData == null ==> IndexOf(lists, thing) == []
      ensures IndexOf(lists, thing) == [] && iterData != null && old(iterData) == null ==> Holds(iterData, at, [])
    {
      hide Enc, Code, HoldsIn;
      ghost var ns := IndexOf(lists, thing);
      attr, at := 0, 0;
      var astr: Text;
      if thing == modAlId {
        astr := CString(modAlist, ns);
      } else if (thing, A_LIST) in store {
        astr := store[(thing, A_LIST)];
      } else {
        return;
      }
      EncEmpty();
      ExtendIter(|astr| + 1);
      CopyAside(astr, ns);
      attr, at := AtrNext(0, ns);
    }

    /** Copy a stored index, with its zero byte. */
    method CopyAside(astr: Text, ghost ns: seq<nat>)
      requires iterData != null && |astr| < iterData.Length && astr == Enc(ns)
      modifies iterData
      ensures Holds(iterData, 0, ns)
    {
      hide Enc, Code, HoldsIn;
      var data := iterData;
      forall i | 0 <= i <= |astr| { data[i] := if i < |astr| then astr[i] else 0; }
      assert data[0..|astr|] == astr;
      HoldsDone(data[..], |astr|, ns);
    }

    /** atr_next: the next number of the copy, 0 at its end. */
    method AtrNext(at0: nat, ghost ns: seq<nat>) returns (attr: nat, at: nat)
      requires iterData != null && Holds(iterData, at0, ns) && Numbers(ns)
      ensures if ns == [] then attr == 0 && at == at0 else attr == ns[0] && Holds(iterData, at, ns[1..])
    {
      hide Enc, Code, HoldsIn;
      HoldsFirst(iterData[..], at0, ns);
      if iterData[at0] == 0 {
        return 0, at0;
      }
      attr, at := AlDecode(iterData, at0, ns);
    }

    /** atr_free: the walk reads a copy while its body deletes from the index itself, and
        leaves the object without attributes and without an index. */
    method AtrFree(thing: int)
      requires Valid() && thing >= 0
      modifies this, modAlist
      ensures Valid() && iterData == old(iterData) && iterStack == old(iterStack)
      ensures IndexOf(lists, thing) == [] && forall a :: (thing, a) !in Visible()
      ensures OthersSame(old(Visible()), Visible(), thing)
    {
      hide Enc, Code, HoldsIn, Holds, Bytes, AttrsOf, Agreement, OthersSame, IndexShape, Without, Numbers;
      OthersSelf(Visible(), thing);
      BytesShape(thing);
      AtrPush();
      var attr, at := AtrHead(thing);
      ghost var rest := IndexOf(lists, thing);
      BytesShape(thing);
      if rest != [] { rest := HeadPositive(rest); }
      while attr != 0
        invariant Valid() && iterStack == [old(iterData)] + old(iterStack)
        invariant modAlist == old(modAlist) || fresh(modAlist)
        invariant IndexOf(lists, thing) == if attr == 0 then [] else [attr] + rest
        invariant attr != 0 ==> iterData != null && Holds(iterData, at, rest)
        invariant OthersSame(old(Visible()), Visible(), thing)
        decreases |IndexOf(lists, thing)|
      {
        BytesShape(thing);
        ShapeRest(attr, rest);
        OthersClear(old(Visible()), Visible(), thing, attr);
        AtrClr(thing, attr);
        BytesShape(thing);
        attr, at := AtrNext(at, rest);
        if rest != [] { rest := HeadPositive(rest); }
      }
      AtrPop();
      EmptyAgrees(store, lists, thing);
      AlDestroy(thing);
    }

    lemma BytesShape(thing: int)
      requires Bytes() && thing >= 0
      ensures IndexShape(IndexOf(lists, thing))
      ensures modAlist == null || modAlist != iterData
    {}
  }

  /** The attributes of every object but `thing` are the same. */
  ghost predicate OthersSame(a: map<(int, nat), Text>, b: map<(int, nat), Text>, thing: int) {
    forall t, n :: t != thing ==> Get(a, (t, n)) == Get(b, (t, n))
  }

  lemma ShapeRest(attr: nat, rest: seq<nat>)
    requires IndexShape([attr] + rest)
    ensures Number(attr) && attr != A_LIST && Numbers(rest) && Without([attr] + rest, attr) == rest
  {
    var all := [attr] + rest;
    assert all[0] == attr && all[1..] == rest;
    assert forall i :: 0 <= i < |rest| ==> rest[i] == all[i + 1];
  }

  lemma HeadPositive(ns: seq<nat>) returns (rest: seq<nat>)
    requires IndexShape(ns) && ns != []
    ensures ns[0] != 0 && rest == ns[1..] && ns == [ns[0]] + rest
  {
    rest := ns[1..];
  }

  lemma OthersSelf(a: map<(int, nat), Text>, thing: int)
    ensures OthersSame(a, a, thing)
  {}

  lemma OthersClear(a: map<(int, nat), Text>, b: map<(int, nat), Text>, thing: int, n: nat)
    requires OthersSame(a, b, thing)
    ensures OthersSame(a, Clear(b, (thing, n)), thing)
  {
    forall t, m | t != thing ensures Get(a, (t, m)) == Get(Clear(b, (thing, n)), (t, m)) {
      assert Get(a, (t, m)) == Get(b, (t, m));
    }
  }

  lemma EmptyAgrees(store: map<(int, nat), Text>, lists: map<int, seq<nat>>, thing: int)
    requires Agreement(store, lists) && IndexOf(lists, thing) == [] && thing >= 0
    ensures forall a: nat :: (thing, a) !in AttrsOf(store)
  {
    forall a: nat ensures (thing, a) !in AttrsOf(store) {
      if a != A_LIST { assert (thing, a) in store <==> a in IndexOf(lists, thing); }
    }
  }

  /** A list survives a move to a longer buffer. */
  lemma HoldsPrefix(s: seq<byte>, s': seq<byte>, ns: seq<nat>)
    requires HoldsIn(s, 0, ns) && |s| <= |s'| && s'[..|s|] == s
    ensures HoldsIn(s', 0, ns)
  {
    hide Enc;
    assert s'[0..|Enc(ns)|] == s[0..|Enc(ns)|];
    assert s'[|Enc(ns)|] == s'[..|s|][|Enc(ns)|];
  }

  lemma {:induction false} WithoutAt(ns: seq<nat>, a: nat, i: nat)
    requires i <= |ns| && a !in ns[..i] && (i < |ns| ==> ns[i] == a)
    ensures Without(ns, a) == if i < |ns| then ns[..i] + ns[i + 1..] else ns
  {
    if i > 0 {
      assert ns[..i][0] == ns[0];
      assert ns[1..][..i - 1] == ns[..i][1..];
      WithoutAt(ns[1..], a, i - 1);
    }
  }

  ghost predicate Agreement(store: map<(int, nat), Text>, lists: map<int, seq<nat>>) {
    forall t, a :: t >= 0 && a != A_LIST ==> ((t, a) in store <==> a in IndexOf(lists, t))
  }

  /** The attribute and its index entry came or went together. */
  lemma AgreeAfter(was: map<(int, nat), Text>, put: map<(int, nat), Text>, store: map<(int, nat), Text>,
                   lists0: map<int, seq<nat>>, lists: map<int, seq<nat>>, thing: int, a: nat, added: bool)
    requires Agreement(was, lists0) && SameAttrs(put, store) && thing >= 0 && a != A_LIST
    requires if added then (thing, a) in put && put - {(thing, a)} == was - {(thing, a)} else put == was - {(thing, a)}
    requires forall t :: t != thing ==> IndexOf(lists, t) == IndexOf(lists0, t)
    requires forall x :: x in IndexOf(lists, thing) <==> (x in IndexOf(lists0, thing) && x != a) || (added && x == a)
    ensures Agreement(store, lists)
  {
    forall t, b | t >= 0 && b != A_LIST ensures (t, b) in store <==> b in IndexOf(lists, t) {
      assert Get(put, (t, b)) == Get(store, (t, b));
      if (t, b) != (thing, a) {
        assert (t, b) in put <==> (t, b) in put - {(thing, a)};
        assert (t, b) in was <==> (t, b) in was - {(thing, a)};
      }
    }
  }

  lemma SameItself(store: map<(int, nat), Text>)
    ensures SameAttrs(store, store)
  {}

  /** Without the index of `thing` the store spells the others as before. */
  lemma DropIndex(was: map<(int, nat), Text>, mid: map<(int, nat), Text>, lists: map<int, seq<nat>>, held: int, thing: int)
    requires SameAttrs(was, mid) && Shapes(lists) && Stored(mid, lists, held) && held != thing && thing >= 0
    ensures var store, lists' := mid - {(thing, A_LIST)}, lists[thing := []];
      SameAttrs(was, store) && Shapes(lists') && Stored(store, lists', held)
  {
    hide Enc;
    var store, lists' := mid - {(thing, A_LIST)}, lists[thing := []];
    forall t: int, n: nat | n != A_LIST ensures Get(was, (t, n)) == Get(store, (t, n)) {
      assert Get(was, (t, n)) == Get(mid, (t, n));
    }
    forall t | t >= 0 && t != thing ensures IndexOf(lists', t) == IndexOf(lists, t) {}
    forall t | t >= 0 ensures IndexShape(IndexOf(lists', t)) {
      assert IndexShape(IndexOf(lists, t));
    }
  }

  lemma DestroyAgrees(was: map<(int, nat), Text>, store: map<(int, nat), Text>,
                      lists0: map<int, seq<nat>>, lists: map<int, seq<nat>>, thing: int)
    requires Agreement(was, lists0) && SameAttrs(was, store) && thing >= 0
    requires forall t :: IndexOf(lists, t) == if t == thing then [] else IndexOf(lists0, t)
    ensures Agreement(store, lists) <==> forall a :: (thing, a) !in AttrsOf(was)
  {
    forall t, a | t >= 0 && a != A_LIST ensures (t, a) in store <==> a in IndexOf(lists0, t) {
      assert Get(was, (t, a)) == Get(store, (t, a));
    }
    forall a: nat ensures (thing, a) in AttrsOf(was) <==> a in IndexOf(lists0, thing) && a != A_LIST {}
    if Agreement(store, lists) {
      forall a: nat ensures (thing, a) !in AttrsOf(was) {
        assert (thing, a) in AttrsOf(was) ==> (thing, a) in store;
      }
    }
  }
}
