/** The whole file: header, user-named attributes, objects, end mark. */
module FlatDbWhole {
  import opened CString
  import opened Wrappers
  import opened Constants
  import opened FlatText
  import opened AttrTable
  import opened FlatDb
  import opened FlatDbContent
  import opened FlatDbRoundTrip

  // ---------------------------------------------------------------------
  // Lines
  // ---------------------------------------------------------------------

  lemma {:induction false} PlainEscaped(s: string)
    requires forall i :: 0 <= i < |s| ==> s[i] != '"' && s[i] != '\\'
    ensures Escaped(s) == s
  {
    if s != [] { PlainEscaped(s[1..]); }
  }

  predicate PlainLine(s: string) {
    forall i :: 0 <= i < |s| ==> s[i] != '\0' && s[i] != '\n' && s[i] != '\r'
  }

  lemma {:induction false} BareBack(s: string, last: char, buf: string)
    requires PlainLine(s) && last != '\r'
    ensures Bare(s + "\n", last, buf) == (Fill(buf, s), [])
    decreases s
  {
    if s == [] {
      assert s + "\n" == "\n";
    } else {
      assert (s + "\n")[1..] == s[1..] + "\n";
      BareBack(s[1..], s[0], SafeChr(buf, s[0]));
    }
  }

  lemma LineBack(s: string)
    requires PlainLine(s) && |s| < LBUF_SIZE
    ensures GetString(s + "\n", false) == (s, [])
  {
    BareBack(s, '\0', []);
    FillFits([], s);
    assert [] + s == s;
  }

  // ---------------------------------------------------------------------
  // User-named attributes
  // ---------------------------------------------------------------------

  /** What the name table keeps of an attribute. */
  predicate VattrOk(v: Vattr) {
    InRange(v.number) && InRange(v.flags) && v.flags >= 0 && A_USER_START <= v.number
    && OkName(v.name) && |v.name| < VNAME_SIZE && Key(v.name) == v.name
  }

  /** Different names and numbers, none of them taken. */
  ghost predicate VattrsOk(t: Table, vs: seq<Vattr>) {
    && (forall i :: 0 <= i < |vs| ==> VattrOk(vs[i]) && vs[i].number < t.next && vs[i].number !in t.names && vs[i].name !in t.numbers)
    && (forall i, j :: 0 <= i < j < |vs| ==> vs[i].number != vs[j].number && vs[i].name != vs[j].name)
  }

  function Install(d: Database, vs: seq<Vattr>): Database
    decreases vs
  {
    if vs == [] then d else Install(Define(d, vs[0]), vs[1..])
  }

  /** The attributes that are written. */
  function NotDeleted(vs: seq<Vattr>): seq<Vattr> {
    if vs == [] then [] else (if HasBit(vs[0].flags, AF_DELETED) then [] else [vs[0]]) + NotDeleted(vs[1..])
  }

  lemma NotNameChars()
    ensures !OkChar('"') && !OkChar('\\') && !OkChar('\0')
  {
  }

  lemma OkNamePlain(s: string, i: nat)
    requires OkName(s) && i < |s|
    ensures s[i] != '"' && s[i] != '\\' && s[i] != '\0'
  {
    NotNameChars();
    hide OkChar;
    assert OkChar(s[i]);
  }

  lemma DigitsPlain(n: nat, i: nat)
    requires i < |Decimal(n)|
    ensures IsDigit(Decimal(n)[i])
  {
    DecimalDigits(n);
  }

  lemma VattrTextPlain(v: Vattr)
    requires VattrOk(v)
    ensures var s := Print(v.flags) + ":" + v.name;
      |s| < LBUF_SIZE && forall i :: 0 <= i < |s| ==> s[i] != '"' && s[i] != '\\' && s[i] != '\0'
  {
    hide Decimal, Key, OkName;
    var p := Print(v.flags);
    var s := p + ":" + v.name;
    forall i | 0 <= i < |s| ensures s[i] != '"' && s[i] != '\\' && s[i] != '\0' {
      if i < |p| {
        DigitsPlain(v.flags, i);
      } else if i > |p| {
        OkNamePlain(v.name, i - |p| - 1);
        assert s[i] == v.name[i - |p| - 1];
      }
    }
    assert Power(10) == 100_0000_0000 by { assert Power(5) == 10_0000; }
    DecimalShort(v.flags, 10);
  }

  /** The line of an attribute reads back as that attribute. */
  lemma VattrBack(v: Vattr, rest: string, df: int)
    requires VattrOk(v)
    ensures var s := Print(v.flags) + ":" + v.name;
      GetString("\"" + s + "\"\n" + rest, true) == (s, rest) && SplitVattr(v.number, s, df) == v
  {
    hide Print;
    VattrTextPlain(v);
    TextBack(Print(v.flags) + ":" + v.name, rest);
    SplitBack(v, df);
  }

  lemma TextBack(s: string, rest: string)
    requires |s| < LBUF_SIZE && forall i :: 0 <= i < |s| ==> s[i] != '"' && s[i] != '\\' && s[i] != '\0'
    ensures GetString("\"" + s + "\"\n" + rest, true) == (s, rest)
  {
    PlainEscaped(s);
    assert PutString(s) + rest == "\"" + s + "\"\n" + rest;
    StringRoundTrip(s, rest);
  }

  lemma SplitBack(v: Vattr, df: int)
    requires v.flags >= 0
    ensures SplitVattr(v.number, Print(v.flags) + ":" + v.name, df) == v
  {
    hide Decimal;
    var s := Print(v.flags) + ":" + v.name;
    assert s == Decimal(v.flags) + (":" + v.name);
    ReadDecimal(v.flags, ":" + v.name);
    assert (":" + v.name)[1..] == v.name && s[0] == Decimal(v.flags)[0];
  }

  lemma PlusVattr(d: Database, seen: Seen, v: Vattr, rest: string, df: int)
    requires VattrOk(v) && seen.header
    ensures var line := "\"" + (Print(v.flags) + ":" + v.name) + "\"\n" + rest;
      GetPlus(d, seen, "A" + (PutRef(v.number) + line), df) == Some((Define(d, v), seen, rest))
  {
    hide PutRef, GetRef, FlatText.GetString, SplitVattr, Define, OkName, Key, Print;
    var line := "\"" + (Print(v.flags) + ":" + v.name) + "\"\n" + rest;
    VattrBack(v, rest, df);
    var u := "A" + (PutRef(v.number) + line);
    assert u[0] == 'A' && u[1..] == PutRef(v.number) + line;
    RefRoundTrip(v.number, line);
  }

  lemma OneVattr(d: Database, seen: Seen, v: Vattr, rest: string, df: int)
    requires VattrOk(v) && seen.header && !HasBit(v.flags, AF_DELETED)
    ensures GetDb(d, seen, PutVattr(v) + rest, df) == GetDb(Define(d, v), seen, rest, df)
  {
    hide PutRef, GetPlus, Define, GetEntry, GetMinus, OkName, Key, Print, FlatText.GetString;
    var text := Print(v.flags) + ":" + v.name;
    var u := "A" + (PutRef(v.number) + ("\"" + text + "\"\n" + rest));
    var s := PutVattr(v) + rest;
    assert s == "+" + u && s[1..] == u;
    PlusVattr(d, seen, v, rest, df);
  }

  lemma {:induction false} VattrsBack(d: Database, seen: Seen, vs: seq<Vattr>, rest: string, df: int)
    requires seen.header && forall i :: 0 <= i < |vs| ==> VattrOk(vs[i])
    ensures GetDb(d, seen, PutVattrs(vs) + rest, df) == GetDb(Install(d, NotDeleted(vs)), seen, rest, df)
    decreases vs
  {
    hide GetDb, Define, VattrOk, PutVattr;
    if vs == [] {
      assert PutVattrs(vs) + rest == rest;
    } else {
      var u := PutVattrs(vs[1..]) + rest;
      assert PutVattrs(vs) + rest == PutVattr(vs[0]) + u;
      if HasBit(vs[0].flags, AF_DELETED) {
        assert PutVattr(vs[0]) + u == u by { DeletedSkipped(vs[0]); }
        assert NotDeleted(vs) == NotDeleted(vs[1..]);
        VattrsBack(d, seen, vs[1..], rest, df);
      } else {
        OneVattr(d, seen, vs[0], u, df);
        var ns := NotDeleted(vs);
        assert ns[0] == vs[0] && ns[1..] == NotDeleted(vs[1..]);
        VattrsBack(Define(d, vs[0]), seen, vs[1..], rest, df);
      }
    }
  }

  lemma DeletedSkipped(v: Vattr)
    requires HasBit(v.flags, AF_DELETED)
    ensures PutVattr(v) == ""
  {}

  lemma DefineOk(d: Database, v: Vattr)
    requires Sound(d.table) && VattrsOk(d.table, [v])
    ensures Define(d, v) == d.(table := d.table.(names := d.table.names[v.number := v.name],
                                                 numbers := d.table.numbers[v.name := v.number]),
                               attrFlags := d.attrFlags[v.number := v.flags])
    ensures Sound(Define(d, v).table)
  {
    assert VattrOk([v][0]) && v.number < d.table.next && v.name !in d.table.numbers && v.number !in d.table.names;
    var t, t' := d.table, Define(d, v).table;
    OkNameShape(v.name);
    forall m | m in t'.names
      ensures 0 < m < t'.next && NameShape(t'.names[m]) && Key(t'.names[m]) in t'.numbers && t'.numbers[Key(t'.names[m])] == m
    {
      if m != v.number { assert m in t.names && Key(t.names[m]) != v.name; }
    }
    forall k | k in t'.numbers ensures Finds(t', k, t'.numbers[k]) {
      if k != v.name { assert Finds(t, k, t.numbers[k]) && t.numbers[k] != v.number; }
    }
  }

  lemma VattrsRest(d: Database, vs: seq<Vattr>)
    requires Sound(d.table) && vs != [] && VattrsOk(d.table, vs)
    ensures VattrsOk(d.table, [vs[0]]) && VattrsOk(Define(d, vs[0]).table, vs[1..])
  {
    assert VattrsOk(d.table, [vs[0]]);
    DefineOk(d, vs[0]);
    hide Define, VattrOk, Sound;
    assert forall i :: 0 <= i < |vs[1..]| ==> vs[1..][i] == vs[i + 1];
  }

  /** The first attribute is there and stays there while the others are installed. */
  lemma FirstInstalled(d: Database, vs: seq<Vattr>)
    requires Sound(d.table) && VattrsOk(d.table, vs) && vs != []
    ensures var d' := Define(d, vs[0]);
      && Install(d, vs) == Install(d', vs[1..]) && Sound(d'.table) && VattrsOk(d'.table, vs[1..])
      && d' == d.(table := d'.table, attrFlags := d'.attrFlags) && d'.table.next == d.table.next
      && (forall n :: n != vs[0].number ==> NameOf(d'.table, n) == NameOf(d.table, n))
      && Holds(Install(d', vs[1..]), vs[0])
  {
    hide Sound;
    VattrsRest(d, vs);
    DefineOk(d, vs[0]);
    assert forall i, j :: 0 <= i < j < |vs| ==> vs[i].number != vs[j].number;
    HoldsFirst(Define(d, vs[0]), vs);
  }

  /** Installing attributes gives each its number, name and flags, leaves everything else alone,
      and keeps the table sound. */
  lemma {:induction false} InstallNames(d: Database, vs: seq<Vattr>)
    requires Sound(d.table) && VattrsOk(d.table, vs)
    ensures var r := Install(d, vs);
      && Sound(r.table) && r.table.next == d.table.next
      && r == d.(table := r.table, attrFlags := r.attrFlags)
      && (forall i :: 0 <= i < |vs| ==> Holds(r, vs[i]))
      && (forall n :: !Numbered(vs, n) ==> NameOf(r.table, n) == NameOf(d.table, n))
    decreases vs
  {
    if vs != [] {
      var d' := Define(d, vs[0]);
      FirstInstalled(d, vs);
      InstallNames(d', vs[1..]);
      OneMoreInstalled(d, d', Install(d', vs[1..]), vs);
    }
  }

  lemma OneMoreInstalled(d: Database, d': Database, r: Database, vs: seq<Vattr>)
    requires vs != [] && Holds(r, vs[0]) && forall i :: 0 <= i < |vs[1..]| ==> Holds(r, vs[1..][i])
    requires forall n :: n != vs[0].number ==> NameOf(d'.table, n) == NameOf(d.table, n)
    requires forall n :: !Numbered(vs[1..], n) ==> NameOf(r.table, n) == NameOf(d'.table, n)
    ensures forall i :: 0 <= i < |vs| ==> Holds(r, vs[i])
    ensures forall n :: !Numbered(vs, n) ==> NameOf(r.table, n) == NameOf(d.table, n)
  {
    hide Holds;
    forall i | 0 <= i < |vs| ensures Holds(r, vs[i]) {
      if i > 0 { assert vs[i] == vs[1..][i - 1]; }
    }
    forall n | !Numbered(vs, n) ensures NameOf(r.table, n) == NameOf(d.table, n) {
      assert vs[0].number != n;
      assert forall i :: 0 <= i < |vs[1..]| ==> vs[1..][i] == vs[i + 1];
      assert !Numbered(vs[1..], n);
    }
  }

  ghost predicate Numbered(vs: seq<Vattr>, n: int) {
    exists i :: 0 <= i < |vs| && vs[i].number == n
  }

  /** Does the database hold the attribute? */
  predicate Holds(d: Database, v: Vattr) {
    && v.number in d.table.names && d.table.names[v.number] == v.name
    && v.name in d.table.numbers && d.table.numbers[v.name] == v.number
    && v.number in d.attrFlags && d.attrFlags[v.number] == v.flags
  }

  lemma HoldsFirst(d: Database, vs: seq<Vattr>)
    requires vs != [] && Sound(d.table) && VattrsOk(d.table, vs[1..]) && Holds(d, vs[0])
    requires forall i, j :: 0 <= i < j < |vs| ==> vs[i].number != vs[j].number
    ensures Holds(Install(d, vs[1..]), vs[0])
  {
    HoldsKept(d, vs[1..], vs[0]);
  }

  lemma {:induction false} HoldsKept(d: Database, vs: seq<Vattr>, v: Vattr)
    requires Sound(d.table) && VattrsOk(d.table, vs) && Holds(d, v)
    ensures Holds(Install(d, vs), v)
    decreases vs
  {
    if vs != [] {
      VattrsRest(d, vs);
      DefineOk(d, vs[0]);
      assert vs[0].number !in d.table.names && vs[0].name !in d.table.numbers;
      hide VattrsOk, Sound, Define;
      HoldsKept(Define(d, vs[0]), vs[1..], v);
    }
  }

  lemma {:induction false} NotDeletedOk(t: Table, vs: seq<Vattr>)
    requires VattrsOk(t, vs)
    ensures VattrsOk(t, NotDeleted(vs)) && forall v :: v in NotDeleted(vs) <==> v in vs && !HasBit(v.flags, AF_DELETED)
    decreases vs
  {
    hide VattrOk, HasBit;
    if vs != [] {
      var ms := NotDeleted(vs[1..]);
      assert forall i :: 0 <= i < |vs[1..]| ==> vs[1..][i] == vs[i + 1];
      NotDeletedOk(t, vs[1..]);
      assert vs == [vs[0]] + vs[1..];
      if !HasBit(vs[0].flags, AF_DELETED) { OneMoreOk(t, vs, ms); }
    }
  }

  lemma OneMoreOk(t: Table, vs: seq<Vattr>, ms: seq<Vattr>)
    requires vs != [] && VattrsOk(t, vs) && VattrsOk(t, ms) && forall v :: v in ms ==> v in vs[1..]
    ensures VattrsOk(t, [vs[0]] + ms)
  {
    hide VattrOk;
    var ns := [vs[0]] + ms;
    forall j | 0 < j < |ns| ensures ns[j] == ms[j - 1] && ns[j].number != vs[0].number && ns[j].name != vs[0].name {
      assert ms[j - 1] in vs[1..];
      var k :| 0 <= k < |vs[1..]| && vs[1..][k] == ms[j - 1];
      assert vs[k + 1] == ns[j];
    }
  }

  // ---------------------------------------------------------------------
  // The header
  // ---------------------------------------------------------------------

  lemma HeaderBack(d: Database, top: int, next: int, players: int, rest: string, df: int)
    requires InRange(top) && InRange(next) && InRange(players)
    ensures GetDb(d, Seen(false, false, false), PutHeader(top, next, players) + rest, df)
         == GetDb(d.(minSize := top, table := d.table.(next := next), players := players), Seen(true, true, true), rest, df)
  {
    hide PutRef, GetDb;
    var u4 := "-R" + (PutRef(players) + rest);
    var u3 := "+N" + (PutRef(next) + u4);
    var u2 := "+S" + (PutRef(top) + u3);
    var s := PutHeader(top, next, players) + rest;
    HeaderJoined(PutRef(UNLOAD_FORMAT), PutRef(top), PutRef(next), PutRef(players), rest);
    assert s == "+T" + (PutRef(UNLOAD_FORMAT) + u2);
    hide PutHeader;
    var d1 := d.(minSize := top);
    var d2 := d1.(table := d.table.(next := next));
    var s1, s2, s3 := Seen(true, false, false), Seen(true, true, false), Seen(true, true, true);
    assert "+" + ['T'] == "+T" && "+" + ['S'] == "+S" && "+" + ['N'] == "+N";
    PlusLine(d, Seen(false, false, false), 'T', UNLOAD_FORMAT, u2, df, d, s1);
    PlusLine(d, s1, 'S', top, u3, df, d1, s2);
    PlusLine(d1, s2, 'N', next, u4, df, d2, s3);
    PlayersLine(d2, s3, players, rest, df);
  }

  lemma HeaderJoined(a: string, b: string, c: string, e: string, rest: string)
    ensures "+T" + (a + ("+S" + (b + ("+N" + (c + ("-R" + e)))))) + rest
         == "+T" + (a + ("+S" + (b + ("+N" + (c + ("-R" + (e + rest)))))))
  {
    assert "-R" + e + rest == "-R" + (e + rest);
    assert "+N" + (c + ("-R" + e)) + rest == "+N" + (c + ("-R" + e + rest));
    assert "+S" + (b + ("+N" + (c + ("-R" + e)))) + rest == "+S" + (b + ("+N" + (c + ("-R" + e)) + rest));
  }

  lemma PlayersLine(d: Database, seen: Seen, players: int, rest: string, df: int)
    requires InRange(players)
    ensures GetDb(d, seen, "-R" + (PutRef(players) + rest), df) == GetDb(d.(players := players), seen, rest, df)
  {
    hide PutRef, GetRef, GetEntry, GetPlus, FlatText.GetString, Define;
    var u := "R" + (PutRef(players) + rest);
    assert ("-R" + (PutRef(players) + rest))[1..] == u && u[1..] == PutRef(players) + rest;
    RefRoundTrip(players, rest);
  }

  /** One line of the header that starts with `+`. */
  lemma PlusLine(d: Database, seen: Seen, c: char, n: int, u: string, df: int, d': Database, seen': Seen)
    requires InRange(n) && c in "TSN"
    requires c == 'T' ==> n == UNLOAD_FORMAT && !seen.header && d' == d && seen' == seen.(header := true)
    requires c == 'S' ==> !seen.size && d' == d.(minSize := n) && seen' == seen.(size := true)
    requires c == 'N' ==> !seen.next && d' == d.(table := d.table.(next := n)) && seen' == seen.(next := true)
    ensures GetDb(d, seen, "+" + [c] + (PutRef(n) + u), df) == GetDb(d', seen', u, df)
  {
    hide PutRef, GetRef, GetEntry, GetMinus, FlatText.GetString, Define;
    var s := "+" + [c] + (PutRef(n) + u);
    var v := [c] + (PutRef(n) + u);
    assert s[1..] == v && v[1..] == PutRef(n) + u;
    RefRoundTrip(n, u);
    assert GetPlus(d, seen, v, df) == Some((d', seen', u));
    hide GetPlus;
  }

  // ---------------------------------------------------------------------
  // The file
  // ---------------------------------------------------------------------

  const NOTHING_SEEN: Seen := Seen(false, false, false)

  /** What db_write can carry: `base` has the built-in names, `vs` the user-named attributes,
      and what is read back are the names that are not deleted. */
  ghost predicate Dumpable(base: Database, d: Database, vs: seq<Vattr>, walks: seq<seq<int>>) {
    && Sound(base.table.(next := d.table.next)) && base.objs == [] && VattrsOk(base.table.(next := d.table.next), vs)
    && d.table == Install(Reset(base, d), vs).table && d.attrFlags == Install(Reset(base, d), vs).attrFlags
    && |walks| == |d.objs| < INT_LIMIT && InRange(d.table.next) && InRange(d.players)
    && forall j :: 0 <= j < |d.objs| ==>
         Writable(d.objs[j])
         && (d.objs[j].Going() || ObjOk(d.table, Install(Reset(base, d), NotDeleted(vs)).table, d.objs[j], walks[j]))
  }

  function Reset(base: Database, d: Database): Database {
    base.(minSize := |d.objs|, table := base.table.(next := d.table.next), players := d.players)
  }

  /** What `Back` makes of the objects is the same but for what `Survived` says. */
  lemma AllSurvive(t: Table, objs: seq<Obj>, r: seq<Obj>)
    requires Restored(t, objs, |objs|, r)
    ensures Survived(t, objs, r)
  {
    hide Back, Same;
    forall j | 0 <= j < |objs| && !GoingAway(objs[j]) ensures Same(t, objs[j], Back(t, objs[j])) {
      BackSame(t, objs[j]);
    }
  }

  /** db_read of db_write: the counters, every user-named attribute that is not deleted, and
      every object that is not going away, field by field; other slots are garbage. */
  lemma FlatRoundTrip(base: Database, d: Database, vs: seq<Vattr>, walks: seq<seq<int>>, df: int)
    requires Dumpable(base, d, vs, walks)
    ensures var r := GetDb(base, NOTHING_SEEN, PutDb(d, vs, walks), df);
      && r.Some? && r.value.players == d.players && r.value.minSize == |d.objs|
      && r.value == Install(Reset(base, d), NotDeleted(vs)).(objs := r.value.objs)
      && Restored(d.table, d.objs, |d.objs|, r.value.objs)
      && Survived(d.table, d.objs, r.value.objs)
      && (forall i :: 0 <= i < |vs| && !Deleted(vs[i]) ==> Holds(r.value, vs[i]))
      && (forall n :: !Numbered(vs, n) ==> NameOf(r.value.table, n) == NameOf(base.table, n))
  {
    var b := Reset(base, d);
    var r := LoadsObjects(base, d, vs, walks, df);
    AllSurvive(d.table, d.objs, r);
    hide Survived;
    NotDeletedOk(b.table, vs);
    InstallNames(b, NotDeleted(vs));
    NamesBack(b, Install(b, NotDeleted(vs)).(objs := r), vs);
  }

  lemma LoadsObjects(base: Database, d: Database, vs: seq<Vattr>, walks: seq<seq<int>>, df: int) returns (r: seq<Obj>)
    requires Dumpable(base, d, vs, walks)
    ensures GetDb(base, NOTHING_SEEN, PutDb(d, vs, walks), df) == Some(Install(Reset(base, d), NotDeleted(vs)).(objs := r))
    ensures Restored(d.table, d.objs, |d.objs|, r)
  {
    var tail := "*" + EOF_MARK + "\n";
    var b := Reset(base, d);
    var body := PutObjects(d.table, d.objs, walks, 0) + tail;
    NotDeletedOk(b.table, vs);
    InstallNames(b, NotDeleted(vs));
    assert forall i :: 0 <= i < |vs| ==> VattrOk(vs[i]);
    var b' := Install(b, NotDeleted(vs));
    HeaderBack(base, |d.objs|, d.table.next, d.players, PutVattrs(vs) + body, df);
    VattrsBack(b, Seen(true, true, true), vs, body, df);
    assert Restored(d.table, d.objs, 0, b'.objs);
    r := ObjectsBack(d.table, b', Seen(true, true, true), d.objs, walks, 0, tail, df);
    EndOfFile(b'.(objs := r), tail, df);
  }

  lemma SameHolds(d: Database, r: Database, v: Vattr)
    requires Holds(d, v) && r.table == d.table && r.attrFlags == d.attrFlags
    ensures Holds(r, v)
  {
  }

  lemma NamesBack(b: Database, r: Database, vs: seq<Vattr>)
    requires Sound(b.table) && VattrsOk(b.table, vs)
    requires r.table == Install(b, NotDeleted(vs)).table && r.attrFlags == Install(b, NotDeleted(vs)).attrFlags
    ensures forall i :: 0 <= i < |vs| && !HasBit(vs[i].flags, AF_DELETED) ==> Holds(r, vs[i])
    ensures forall n :: !Numbered(vs, n) ==> NameOf(r.table, n) == NameOf(b.table, n)
  {
    hide Sound, VattrsOk, Install, Holds, NotDeleted, HasBit, Numbered;
    NotDeletedOk(b.table, vs);
    InstallNames(b, NotDeleted(vs));
    var ns := NotDeleted(vs);
    forall i | 0 <= i < |vs| && !HasBit(vs[i].flags, AF_DELETED) ensures Holds(r, vs[i]) {
      assert vs[i] in ns;
      var j :| 0 <= j < |ns| && ns[j] == vs[i];
      SameHolds(Install(b, ns), r, vs[i]);
    }
    forall n | !Numbered(vs, n) ensures NameOf(r.table, n) == NameOf(b.table, n) {
      FewerNumbers(vs, ns, n);
    }
  }

  lemma FewerNumbers(vs: seq<Vattr>, ns: seq<Vattr>, n: int)
    requires !Numbered(vs, n) && forall v :: v in ns ==> v in vs
    ensures !Numbered(ns, n)
  {
    hide HasBit;
    forall j | 0 <= j < |ns| ensures ns[j].number != n {
      assert ns[j] in vs;
    }
  }

  lemma EndOfFile(d: Database, tail: string, df: int)
    requires tail == "*" + EOF_MARK + "\n"
    ensures GetDb(d, Seen(true, true, true), tail, df) == Some(d)
  {
    LineBack(EOF_MARK);
    assert tail[1..] == EOF_MARK + "\n";
  }

  /** The object fits the buffers of the reader, and its attributes have names. */
  predicate Fitting(t: Table, o: Obj) {
    |o.name| <= MBUF_SIZE && forall n :: n in o.attrs ==> Carried(t, n) && |o.attrs[n]| < LBUF_SIZE
  }

  /** When nothing is too long and nothing tested or set has a deleted name, all that a dump and
      a load change in an object is the mark of a connected player. */
  lemma OnlyDisconnects(t: Table, o: Obj)
    requires Fitting(t, o)
    ensures Back(t, o) == Disconnected(o)
  {
    assert Kept(t, o.attrs) == o.attrs;
  }

  /** So a database of such objects comes back as it was, but for players no longer connected. */
  lemma NothingLost(base: Database, d: Database, vs: seq<Vattr>, walks: seq<seq<int>>, df: int)
    requires Dumpable(base, d, vs, walks)
    requires forall j :: 0 <= j < |d.objs| ==> d.objs[j].Going() || Fitting(d.table, d.objs[j])
    ensures var r := GetDb(base, NOTHING_SEEN, PutDb(d, vs, walks), df);
      r.Some? && forall j :: 0 <= j < |d.objs| && !d.objs[j].Going() ==>
                   j < |r.value.objs| && r.value.objs[j] == Disconnected(d.objs[j])
  {
    hide Dumpable, GetDb, PutDb, Install, Disconnected;
    FlatRoundTrip(base, d, vs, walks, df);
    forall j | 0 <= j < |d.objs| && !d.objs[j].Going() ensures Back(d.table, d.objs[j]) == Disconnected(d.objs[j]) {
      OnlyDisconnects(d.table, d.objs[j]);
    }
  }

  lemma CanWrite(base: Database, d: Database, vs: seq<Vattr>, walks: seq<seq<int>>)
    requires Dumpable(base, d, vs, walks)
    ensures |walks| == |d.objs| && forall j :: 0 <= j < |d.objs| ==> Writable(d.objs[j])
  {
  }

  /** An attribute a player has named comes back with the object, like any other. */
  lemma UserAttributeKept(base: Database, d: Database, vs: seq<Vattr>, walks: seq<seq<int>>, df: int, j: nat, n: int)
    requires Dumpable(base, d, vs, walks) && j < |d.objs| && !GoingAway(d.objs[j])
    requires n >= A_USER_START && n in d.table.names && n in d.objs[j].attrs && |d.objs[j].attrs[n]| < LBUF_SIZE
    ensures var r := GetDb(base, NOTHING_SEEN, PutDb(d, vs, walks), df);
      r.Some? && j < |r.value.objs| && n in r.value.objs[j].attrs && r.value.objs[j].attrs[n] == d.objs[j].attrs[n]
  {
    hide Dumpable, GetDb, PutDb, Install, Restored, SameFields, LoggedOff, SameName, Numbered;
    CanWrite(base, d, vs, walks);
    FlatRoundTrip(base, d, vs, walks, df);
  }
}
