/** Reading back a flat file: every object that was not going away comes back, field by field. */
module FlatDbRoundTrip {
  import opened CString
  import opened Wrappers
  import opened Constants
  import opened FlatText
  import opened AttrTable
  import opened LockTree
  import opened LockText
  import opened LockRoundTrip
  import opened FlatDb
  import opened FlatDbContent

  predicate InRange(n: int) {
    -INT_LIMIT <= n < INT_LIMIT
  }

  predicate AllInRange(ns: seq<int>) {
    forall i :: 0 <= i < |ns| ==> InRange(ns[i])
  }

  // ---------------------------------------------------------------------
  // Runs of numbers
  // ---------------------------------------------------------------------

  lemma {:induction false} RefsBack(ns: seq<int>, rest: string)
    requires AllInRange(ns)
    ensures GetRefs(PutRefs(ns) + rest, |ns|) == Some((ns, rest))
  {
    hide PutRef, GetRef;
    if ns == [] {
      assert PutRefs(ns) + rest == rest;
    } else {
      assert PutRefs(ns) + rest == PutRef(ns[0]) + (PutRefs(ns[1..]) + rest);
      RefRoundTrip(ns[0], PutRefs(ns[1..]) + rest);
      RefsBack(ns[1..], rest);
      assert ns == [ns[0]] + ns[1..];
    }
  }

  // ---------------------------------------------------------------------
  // Attribute lists
  // ---------------------------------------------------------------------

  /** The walk finds every attribute; texts are C strings, not empty, under numbers that print. */
  predicate AttrsOk(attrs: map<int, string>, walk: seq<int>) {
    && (forall i :: 0 <= i < |walk| ==> InRange(walk[i]) && (walk[i] in attrs || walk[i] in {A_NAME, A_LOCK, A_LIST, A_MONEY}))
    && (forall n :: n in attrs ==> n in walk && attrs[n] != "" && NulFree(attrs[n]))
  }

  /** The attributes that come back: those with a name, each as much of it as a buffer holds. */
  function Kept(t: Table, attrs: map<int, string>): map<int, string> {
    map n | n in attrs && Saved(t, n) :: Fits(attrs[n])
  }

  function AddAll(t: Table, attrs: map<int, string>, walk: seq<int>, m: map<int, string>): map<int, string>
    decreases walk
  {
    if walk == [] then m
    else AddAll(t, attrs, walk[1..], if Saved(t, walk[0]) && walk[0] in attrs then m[walk[0] := Fits(attrs[walk[0]])] else m)
  }

  lemma {:induction false} AddAllIs(t: Table, attrs: map<int, string>, walk: seq<int>, m: map<int, string>)
    requires forall n :: n in m ==> n in attrs && Saved(t, n) && m[n] == Fits(attrs[n])
    ensures var r := AddAll(t, attrs, walk, m);
      forall n :: (n in r <==> n in m || (n in walk && n in attrs && Saved(t, n))) && (n in r ==> n in attrs && r[n] == Fits(attrs[n]))
    decreases walk
  {
    if walk != [] {
      AddAllIs(t, attrs, walk[1..], if Saved(t, walk[0]) && walk[0] in attrs then m[walk[0] := Fits(attrs[walk[0]])] else m);
      assert walk == [walk[0]] + walk[1..];
    }
  }

  predicate TextsOk(t: Table, attrs: map<int, string>, walk: seq<int>) {
    forall i :: 0 <= i < |walk| && Saved(t, walk[i]) ==>
      InRange(walk[i]) && walk[i] in attrs && attrs[walk[i]] != "" && NulFree(attrs[walk[i]])
  }

  lemma OneAttrBack(n: int, v: string, rest: string, m: map<int, string>)
    requires InRange(n) && n > 0 && v != "" && NulFree(v)
    ensures GetList(">" + PutRef(n) + PutString(v) + rest, m, true) == GetList(rest, m[n := Fits(v)], true)
  {
    hide PutRef, PutString, FlatText.GetString, GetRef;
    var s := ">" + PutRef(n) + PutString(v) + rest;
    assert s[0] == '>' && s[1..] == PutRef(n) + (PutString(v) + rest);
    RefRoundTrip(n, PutString(v) + rest);
    StringRoundTrip(v, rest);
    assert Fits(v) != "";
  }

  lemma ListEnds(m: map<int, string>, rest: string)
    ensures GetList("<\n" + rest, m, true) == Some((m, rest))
  {
    var s := "<\n" + rest;
    assert s[1..] == "\n" + rest && ("\n" + rest)[1..] == rest;
  }

  lemma RestOk(t: Table, attrs: map<int, string>, walk: seq<int>)
    requires TextsOk(t, attrs, walk) && walk != []
    ensures TextsOk(t, attrs, walk[1..])
  {
  }

  lemma {:induction false} ListBack(t: Table, attrs: map<int, string>, walk: seq<int>, m: map<int, string>, rest: string)
    requires TextsOk(t, attrs, walk)
    ensures GetList(PutList(t, attrs, walk) + rest, m, true) == Some((AddAll(t, attrs, walk, m), rest))
    decreases walk
  {
    hide GetList, Fits;
    var s := PutList(t, attrs, walk) + rest;
    if walk == [] {
      ListEnds(m, rest);
      assert s == "<\n" + rest;
    } else {
      var n := walk[0];
      var u := PutList(t, attrs, walk[1..]) + rest;
      RestOk(t, attrs, walk);
      assert s == PutAttr(t, attrs, n) + u;
      if Saved(t, n) {
        OneAttrBack(n, attrs[n], u, m);
        ListBack(t, attrs, walk[1..], m[n := Fits(attrs[n])], rest);
      } else {
        assert s == u;
        ListBack(t, attrs, walk[1..], m, rest);
      }
    }
  }

  lemma KeptAttrs(t: Table, attrs: map<int, string>)
    ensures SameAttrs(t, attrs, Kept(t, attrs))
  {
  }

  /** The list of an object comes back as the attributes that have names. */
  lemma AttrsBack(t: Table, attrs: map<int, string>, walk: seq<int>, rest: string)
    requires AttrsOk(attrs, walk)
    ensures GetList(PutList(t, attrs, walk) + rest, map[], true) == Some((Kept(t, attrs), rest))
    ensures SameAttrs(t, attrs, Kept(t, attrs))
  {
    KeptAttrs(t, attrs);
    hide SameAttrs;
    ListBack(t, attrs, walk, map[], rest);
    AddAllIs(t, attrs, walk, map[]);
    var r, k := AddAll(t, attrs, walk, map[]), Kept(t, attrs);
    forall n ensures n in r <==> n in k {
      assert n in r <==> n in walk && n in attrs && Saved(t, n);
    }
    assert r == k;
  }

  // ---------------------------------------------------------------------
  // Objects
  // ---------------------------------------------------------------------

  /** Two tables name the attributes a lock tests alike. */
  predicate SameNames(t: Table, t': Table, b: BoolExp) {
    match b
    case Pair(_, l, r) => SameNames(t, t', l) && SameNames(t, t', r)
    case Prefix(_, s) => SameNames(t, t', s)
    case Atr(n, _) => NameOf(t, n) == NameOf(t', n)
    case Eval(n, _) => NameOf(t, n) == NameOf(t', n)
    case _ => true
  }

  lemma {:induction false} SameText(t: Table, t': Table, b: BoolExp)
    requires Whole(b) && SameNames(t, t', b)
    ensures PutSub(t, b) == PutSub(t', b)
  {
    match b {
      case Pair(_, l, r) => SameText(t, t', l); SameText(t, t', r);
      case Prefix(_, s) => SameText(t, t', s);
      case _ =>
    }
  }

  /** What the format can carry: numbers in range, a C string for a name, and a lock that is
      readable with the names the file defines. */
  predicate ObjOk(t: Table, t': Table, o: Obj, walk: seq<int>) {
    && Writable(o) && NulFree(o.name) && AttrsOk(o.attrs, walk)
    && AllInRange(Links(o)) && AllInRange(FlatDb.Numbers(o))
    && SameNames(t, t', o.lock) && Readable(t', o.lock)
  }

  /** An object as it comes back: disconnected, cut to what the buffers hold, and without
      the attributes that have lost their names. */
  function Back(t: Table, o: Obj): Obj {
    Disconnected(o).(name := ClipName(Fits(o.name)), attrs := Kept(t, o.attrs))
  }

  lemma BackSame(t: Table, o: Obj)
    ensures Same(t, o, Back(t, o))
  {
    KeptAttrs(t, o.attrs);
    NameCut(o.name);
    BackFields(t, o);
    if o.IsPlayer() { SwitchedOff(o.flags2); }
    hide Back, SameAttrs, SameName, ClearBit;
  }

  lemma NameCut(s: string)
    ensures SameName(s, ClipName(Fits(s)))
  {
  }

  lemma BackFields(t: Table, o: Obj)
    ensures var r := Back(t, o);
      && SameFields(o, r) && r.name == ClipName(Fits(o.name)) && r.attrs == Kept(t, o.attrs)
      && r.flags2 == if o.IsPlayer() then ClearBit(o.flags2, CONNECTED) else o.flags2
  {
    hide ClearBit, Kept, ClipName, Fits;
  }

  lemma SwitchedOff(f: int)
    ensures var g := ClearBit(f, CONNECTED);
      g / 0x4000_0000 % 2 == 0 && g % 0x4000_0000 == f % 0x4000_0000 && g / 0x8000_0000 == f / 0x8000_0000
  {
  }

  lemma LockBack(t: Table, t': Table, b: BoolExp, n: int, rest: string)
    requires Sound(t') && (b.True? || (Whole(b) && SameNames(t, t', b))) && Readable(t', b)
    ensures Get(t', Put(t, b) + (PutRef(n) + rest)) == Some(Got(b, PutRef(n) + rest, t'))
  {
    if !b.True? { SameText(t, t', b); }
    LockRoundTrip.LockRoundTrip(t', b, PutRef(n) + rest);
    assert (PutRef(n) + rest)[0] == PutRef(n)[0];
  }

  lemma FieldsBack(t: Table, o: Obj, slot: Obj)
    ensures var o1 := slot.(name := ClipName(Fits(o.name)), lock := o.lock, attrs := Kept(t, o.attrs));
      Disconnected(SetNumbers(SetLinks(o1, Links(o)), FlatDb.Numbers(o))) == Back(t, o)
  {
    hide ClipName, Kept, ClearBit;
  }

  lemma FiveJoined(a: string, b: string, c: string, d: string, e: string, rest: string)
    ensures a + (b + (c + (d + e))) + rest == a + (b + (c + (d + (e + rest))))
  {
    assert b + (c + (d + e)) + rest == b + (c + (d + e) + rest);
    assert c + (d + e) + rest == c + (d + e + rest);
    assert d + e + rest == d + (e + rest);
  }

  lemma FirstRef(ns: seq<int>)
    requires ns != []
    ensures PutRefs(ns) == PutRef(ns[0]) + PutRefs(ns[1..])
  {
  }

  lemma Grouped(a: string, b: string, c: string)
    ensures a + b + c == a + (b + c)
  {
  }

  lemma OwnerFirst(o: Obj, u: string)
    ensures PutRefs(FlatDb.Numbers(o)) + u == PutRef(o.owner) + (PutRefs(FlatDb.Numbers(o)[1..]) + u)
  {
    hide PutRef, PutRefs;
    var ns := FlatDb.Numbers(o);
    FirstRef(ns);
    Grouped(PutRef(o.owner), PutRefs(ns[1..]), u);
  }

  lemma ObjectBack(t: Table, t': Table, o: Obj, walk: seq<int>, slot: Obj, rest: string)
    requires Sound(t') && ObjOk(t, t', o, walk) && slot.attrs == map[]
    ensures GetObject(t', PutObject(t, o, walk) + rest, slot) == Some((Back(t, o), t', rest)) && Same(t, o, Back(t, o))
  {
    BackSame(t, o);
    hide Same, PutRefs, GetRefs, PutRef, PutString, FlatText.GetString, Put, Get, PutList, GetList, Back, Disconnected, SetLinks, SetNumbers, Kept,
      ClipName, Fits, NulFree, AttrsOk, Sound, Links, FlatDb.Numbers, Readable, SameNames;
    Sizes(o);
    var u4 := PutList(t, o.attrs, walk) + rest;
    var u3 := PutRefs(FlatDb.Numbers(o)) + u4;
    var u2 := Put(t, o.lock) + u3;
    var u1 := PutRefs(Links(o)) + u2;
    FiveJoined(PutString(o.name), PutRefs(Links(o)), Put(t, o.lock), PutRefs(FlatDb.Numbers(o)), PutList(t, o.attrs, walk), rest);
    StringRoundTrip(o.name, u1);
    RefsBack(Links(o), u2);
    OwnerFirst(o, u4);
    LockBack(t, t', o.lock, o.owner, PutRefs(FlatDb.Numbers(o)[1..]) + u4);
    RefsBack(FlatDb.Numbers(o), u4);
    AttrsBack(t, o.attrs, walk, rest);
    FieldsBack(t, o, slot);
  }

  lemma Sizes(o: Obj)
    ensures |Links(o)| == 6 && |FlatDb.Numbers(o)| == 8
  {}

  // ---------------------------------------------------------------------
  // The object table
  // ---------------------------------------------------------------------

  /** Slots hold what they held, or garbage where the object was going away; what is missing at
      the end was going away too. */
  ghost predicate Restored(t: Table, objs: seq<Obj>, n: nat, r: seq<Obj>)
    requires n <= |objs|
  {
    && |r| <= n
    && (forall j :: 0 <= j < |r| ==> r[j] == if objs[j].Going() then GARBAGE else Back(t, objs[j]))
    && (forall j :: |r| <= j < n ==> objs[j].Going())
  }

  lemma EntryBack(t: Table, d: Database, o: Obj, walk: seq<int>, i: nat, rest: string)
    requires Sound(d.table) && ObjOk(t, d.table, o, walk) && InRange(i) && |d.objs| <= i
    ensures GetEntry(d, PutRef(i) + PutObject(t, o, walk) + rest)
         == Some((d.(objs := Grow(d.objs, i) + [Back(t, o)]), rest))
  {
    hide PutRef, PutObject, GetRef, GetObject, Back, Sound, AttrsOk, SameNames, Readable, AllInRange;
    assert PutRef(i) + PutObject(t, o, walk) + rest == PutRef(i) + (PutObject(t, o, walk) + rest);
    RefRoundTrip(i, PutObject(t, o, walk) + rest);
    var objs := Grow(d.objs, i + 1);
    ObjectBack(t, d.table, o, walk, objs[i], rest);
    assert objs[i := Back(t, o)] == Grow(d.objs, i) + [Back(t, o)];
  }

  lemma {:induction false} ObjectsBack(t: Table, d: Database, seen: Seen, objs: seq<Obj>, walks: seq<seq<int>>, i: nat,
                                       rest: string, df: int) returns (r: seq<Obj>)
    requires |walks| == |objs| < INT_LIMIT && i <= |objs| && seen.header && Sound(d.table)
    requires forall j :: 0 <= j < |objs| ==> Writable(objs[j]) && (objs[j].Going() || ObjOk(t, d.table, objs[j], walks[j]))
    requires Restored(t, objs, i, d.objs)
    ensures Restored(t, objs, |objs|, r)
    ensures GetDb(d, seen, PutObjects(t, objs, walks, i) + rest, df) == GetDb(d.(objs := r), seen, rest, df)
    decreases |objs| - i
  {
    hide GetDb, PutEntry, Back, Sound, ObjOk, Restored, Grow;
    if i == |objs| {
      assert PutObjects(t, objs, walks, i) + rest == rest;
      r := d.objs;
      assert d.(objs := r) == d;
    } else {
      var u := PutObjects(t, objs, walks, i + 1) + rest;
      assert PutObjects(t, objs, walks, i) + rest == PutEntry(t, i, objs[i], walks[i]) + u;
      if objs[i].Going() {
        assert PutEntry(t, i, objs[i], walks[i]) + u == u by { SkipsGoing(t, i, objs[i], walks[i]); }
        SkipSlot(t, objs, i, d.objs);
        r := ObjectsBack(t, d, seen, objs, walks, i + 1, rest, df);
      } else {
        var d' := d.(objs := Grow(d.objs, i) + [Back(t, objs[i])]);
        Bounded(t, objs, i, d.objs);
        OneEntry(t, d, seen, objs[i], walks[i], i, u, df);
        NextSlot(t, objs, i, d.objs, d'.objs);
        r := ObjectsBack(t, d', seen, objs, walks, i + 1, rest, df);
        assert d.(objs := r) == d'.(objs := r);
      }
    }
  }

  lemma SkipsGoing(t: Table, i: nat, o: Obj, walk: seq<int>)
    requires Writable(o) && o.Going()
    ensures PutEntry(t, i, o, walk) == ""
  {}

  lemma SkipSlot(t: Table, objs: seq<Obj>, i: nat, cur: seq<Obj>)
    requires i < |objs| && Restored(t, objs, i, cur) && objs[i].Going()
    ensures Restored(t, objs, i + 1, cur)
  {
    hide Back;
  }

  lemma Bounded(t: Table, objs: seq<Obj>, i: nat, cur: seq<Obj>)
    requires i <= |objs| && Restored(t, objs, i, cur)
    ensures |cur| <= i
  {}

  lemma NextSlot(t: Table, objs: seq<Obj>, i: nat, cur: seq<Obj>, cur': seq<Obj>)
    requires i < |objs| && Restored(t, objs, i, cur) && !objs[i].Going() && cur' == Grow(cur, i) + [Back(t, objs[i])]
    ensures Restored(t, objs, i + 1, cur')
  {
    hide Back;
  }

  lemma OneEntry(t: Table, d: Database, seen: Seen, o: Obj, walk: seq<int>, i: nat, u: string, df: int)
    requires Sound(d.table) && ObjOk(t, d.table, o, walk) && InRange(i) && |d.objs| <= i && seen.header && !o.Going()
    ensures GetDb(d, seen, PutEntry(t, i, o, walk) + u, df)
         == GetDb(d.(objs := Grow(d.objs, i) + [Back(t, o)]), seen, u, df)
  {
    hide PutRef, PutObject, GetEntry, Back, AttrsOk, SameNames, Readable, AllInRange, Sound, GetMinus, GetPlus, FlatText.GetString;
    EntryBack(t, d, o, walk, i, u);
    var s := PutEntry(t, i, o, walk) + u;
    assert s == "!" + (PutRef(i) + PutObject(t, o, walk) + u);
    assert s[1..] == PutRef(i) + PutObject(t, o, walk) + u;
  }
}
