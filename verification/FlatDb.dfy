/** The database in the flat format (db_write, db_read and get_list in src/db_rw.c): a
    header, the user-named attributes, and every object that is not going away. */
module FlatDb {
  import opened CString
  import opened Wrappers
  import opened Constants
  import opened FlatText
  import opened AttrTable
  import opened LockTree
  import opened LockText

  const AF_DELETED: nat := 0x80
  const TYPE_PLAYER: int := 3
  const TYPE_GARBAGE: int := 5
  const GOING: nat := 0x4000
  const CONNECTED: nat := 0x4000_0000

  /** V_LINK, V_PARENT, V_XFLAGS, V_ZONE, V_POWERS, V_3FLAGS, V_QUOTED and V_TQUOTAS, with
      the version in the low byte. */
  const UNLOAD_FORMAT: int := 0x1f_2301

  predicate HasBit(flags: int, bit: nat)
    requires bit > 0
  {
    flags / bit % 2 == 1
  }

  function ClearBit(flags: int, bit: nat): int
    requires bit > 0
  {
    if HasBit(flags, bit) then flags - bit else flags
  }

  /** An object.  The name, the lock and the money are attributes too, kept here as fields. */
  datatype Obj = Obj(name: string, location: int, zone: int, contents: int, exits: int, link: int, next: int,
                     lock: BoolExp, owner: int, parent: int, pennies: int, flags: int, flags2: int, flags3: int,
                     powers: int, powers2: int, attrs: map<int, string>) {

    predicate Going() {
      HasBit(flags, GOING)
    }

    predicate IsPlayer() {
      flags % 8 == TYPE_PLAYER
    }
  }

  /** What db_grow puts in a slot; fields the source leaves unset are zero here. */
  const GARBAGE: Obj := Obj("", NOTHING, NOTHING, NOTHING, NOTHING, NOTHING, NOTHING, True, GOD, NOTHING, 0,
                            TYPE_GARBAGE + GOING, 0, 0, 0, 0, map[])

  datatype Vattr = Vattr(number: int, flags: int, name: string)

  /** The names, the flags of user-named attributes, the object table and two counters. */
  datatype Database = Database(table: Table, attrFlags: map<int, int>, objs: seq<Obj>, minSize: int, players: int)

  // ---------------------------------------------------------------------
  // Writing
  // ---------------------------------------------------------------------

  /** Is the attribute written with the object's list? */
  predicate Saved(t: Table, n: int) {
    NameOf(t, n).Some? && n > 0 && n != A_NAME && n != A_LOCK && n != A_LIST && n != A_MONEY
  }

  function PutAttr(t: Table, attrs: map<int, string>, n: int): string {
    if Saved(t, n) then ">" + PutRef(n) + PutString(if n in attrs then attrs[n] else "") else ""
  }

  function PutList(t: Table, attrs: map<int, string>, order: seq<int>): string {
    if order == [] then "<\n" else PutAttr(t, attrs, order[0]) + PutList(t, attrs, order[1..])
  }

  function PutRefs(ns: seq<int>): string {
    if ns == [] then "" else PutRef(ns[0]) + PutRefs(ns[1..])
  }

  /** The fields before the lock, and those behind it, in file order. */
  function Links(o: Obj): seq<int> {
    [o.location, o.zone, o.contents, o.exits, o.link, o.next]
  }

  function Numbers(o: Obj): seq<int> {
    [o.owner, o.parent, o.pennies, o.flags, o.flags2, o.flags3, o.powers, o.powers2]
  }

  predicate Writable(o: Obj) {
    o.lock.True? || Whole(o.lock)
  }

  /** db_write_object, with `walk` the numbers in the order atr_head and atr_next give them. */
  function PutObject(t: Table, o: Obj, walk: seq<int>): string
    requires Writable(o)
  {
    PutString(o.name) + (PutRefs(Links(o)) + (Put(t, o.lock) + (PutRefs(Numbers(o)) + PutList(t, o.attrs, walk))))
  }

  function PutEntry(t: Table, i: nat, o: Obj, walk: seq<int>): string
    requires Writable(o)
  {
    if o.Going() then "" else "!" + (PutRef(i) + PutObject(t, o, walk))
  }

  function PutObjects(t: Table, objs: seq<Obj>, walks: seq<seq<int>>, i: nat): string
    requires |walks| == |objs| && forall j :: 0 <= j < |objs| ==> Writable(objs[j])
    requires i <= |objs|
    decreases |objs| - i
  {
    if i == |objs| then "" else PutEntry(t, i, objs[i], walks[i]) + PutObjects(t, objs, walks, i + 1)
  }

  function PutVattr(v: Vattr): string {
    if HasBit(v.flags, AF_DELETED) then "" else "+A" + (PutRef(v.number) + ("\"" + Print(v.flags) + ":" + v.name + "\"\n"))
  }

  function PutVattrs(vs: seq<Vattr>): string {
    if vs == [] then "" else PutVattr(vs[0]) + PutVattrs(vs[1..])
  }

  const EOF_MARK: string := "**END OF DUMP***"

  function PutHeader(top: int, next: int, players: int): string {
    "+T" + (PutRef(UNLOAD_FORMAT) + ("+S" + (PutRef(top) + ("+N" + (PutRef(next) + ("-R" + PutRef(players)))))))
  }

  /** db_write, with `vs` the user-named attributes in the order of the name table. */
  function PutDb(d: Database, vs: seq<Vattr>, walks: seq<seq<int>>): string
    requires |walks| == |d.objs| && forall j :: 0 <= j < |d.objs| ==> Writable(d.objs[j])
  {
    PutHeader(|d.objs|, d.table.next, d.players)
    + (PutVattrs(vs) + (PutObjects(d.table, d.objs, walks, 0) + ("*" + EOF_MARK + "\n")))
  }

  // ---------------------------------------------------------------------
  // Reading
  // ---------------------------------------------------------------------

  /** atr_add_raw */
  function AddAttr(attrs: map<int, string>, n: int, v: string): map<int, string> {
    if v == "" then attrs - {n} else attrs[n := v]
  }

  /** get_list; `None` at the end of the file, where the source loops for ever. */
  function GetList(s: string, attrs: map<int, string>, newStrings: bool): (r: Option<(map<int, string>, string)>)
    ensures r.Some? ==> |r.value.1| < |s|
    decreases |s|
  {
    if s == [] then None
    else if s[0] == '>' then
      match GetRef(s[1..])
      case None => None
      case Some(n) =>
        var v := GetString(n.1, newStrings);
        GetList(v.1, if n.0 > 0 then AddAttr(attrs, n.0, v.0) else attrs, newStrings)
    else if s[0] == '\n' then GetList(s[1..], attrs, newStrings)
    else if s[0] == '<' then Some((attrs, SkipNewline(s[1..])))
    else GetList(GetString(s[1..], newStrings).1, attrs, newStrings)
  }

  function GetRefs(s: string, k: nat): (r: Option<(seq<int>, string)>)
    ensures r.Some? ==> |r.value.0| == k && |r.value.1| <= |s|
    decreases k
  {
    if k == 0 then Some(([], s))
    else
      match GetRef(s)
      case None => None
      case Some(n) =>
        match GetRefs(n.1, k - 1)
        case None => None
        case Some(ns) => Some(([n.0] + ns.0, ns.1))
  }

  /** s_Name: a name that is too long is cut. */
  function ClipName(s: string): string {
    if |s| > MBUF_SIZE then s[..MBUF_SIZE - 1] else s
  }

  /** c_Connected for players */
  function Disconnected(o: Obj): Obj {
    if o.IsPlayer() then o.(flags2 := ClearBit(o.flags2, CONNECTED)) else o
  }

  function SetLinks(o: Obj, ns: seq<int>): Obj
    requires |ns| == 6
  {
    o.(location := ns[0], zone := ns[1], contents := ns[2], exits := ns[3], link := ns[4], next := ns[5])
  }

  function SetNumbers(o: Obj, ns: seq<int>): Obj
    requires |ns| == 8
  {
    o.(owner := ns[0], parent := ns[1], pennies := ns[2], flags := ns[3], flags2 := ns[4], flags3 := ns[5],
       powers := ns[6], powers2 := ns[7])
  }

  /** One object's entry, read over what is in its slot. */
  function GetObject(t: Table, s: string, o: Obj): (r: Option<(Obj, Table, string)>)
    ensures r.Some? ==> |r.value.2| <= |s|
  {
    var n := GetString(s, true);
    match GetRefs(n.1, 6)
    case None => None
    case Some(a) =>
      match Get(t, a.1)
      case None => None
      case Some(g) =>
        match GetRefs(g.rest, 8)
        case None => None
        case Some(b) =>
          match GetList(b.1, o.attrs, true)
          case None => None
          case Some(l) =>
            var o1 := SetNumbers(SetLinks(o.(name := ClipName(n.0), lock := g.tree, attrs := l.0), a.0), b.0);
            Some((Disconnected(o1), g.table, l.1))
  }

  /** db_grow: garbage up to `n` objects. */
  function Grow(objs: seq<Obj>, n: nat): (r: seq<Obj>)
    ensures |r| == if n <= |objs| then |objs| else n
    ensures objs <= r && forall j :: |objs| <= j < |r| ==> r[j] == GARBAGE
  {
    objs + seq(if n <= |objs| then 0 else n - |objs|, _ => GARBAGE)
  }

  /** vattr_define: a name that is taken, or will not do, is passed over. */
  function Define(d: Database, v: Vattr): Database {
    var k := Key(v.name);
    if !OkName(k) || (k in d.table.numbers && d.table.numbers[k] >= A_USER_START) then d
    else if k in d.table.numbers then
      d.(table := d.table.(names := d.table.names[v.number := k]), attrFlags := d.attrFlags[v.number := v.flags])
    else
      d.(table := d.table.(names := d.table.names[v.number := k], numbers := d.table.numbers[k := v.number]),
         attrFlags := d.attrFlags[v.number := v.flags])
  }

  /** The flags and the name in an attribute's line. */
  function SplitVattr(number: int, s: string, defaultFlags: int): Vattr {
    if s != [] && IsDigit(s[0]) then
      var d := ReadDigits(s, 0);
      Vattr(number, d.0, if d.1 == [] then [] else d.1[1..])
    else Vattr(number, defaultFlags, s)
  }

  /** How far the header has been read. */
  datatype Seen = Seen(header: bool, size: bool, next: bool)

  function DropLine(s: string): (r: string)
    ensures |r| <= |s|
  {
    GetString(s, false).1
  }

  /** The header, the size and the next number count once only. */
  predicate SeenBefore(seen: Seen, c: char) {
    (c == 'T' && seen.header) || (c == 'S' && seen.size) || (c == 'N' && seen.next)
  }

  /** A line of the header behind its number. */
  function PlusTaken(d: Database, seen: Seen, c: char, n: int, s: string, defaultFlags: int): (r: Option<(Database, Seen, string)>)
    ensures r.Some? ==> |r.value.2| <= |s|
  {
    match c
    case 'T' => if n == UNLOAD_FORMAT then Some((d, seen.(header := true), s)) else None
    case 'S' => Some((d.(minSize := n), seen.(size := true), s))
    case 'A' =>
      var v := GetString(s, seen.header);
      Some((Define(d, SplitVattr(n, v.0, defaultFlags)), seen, v.1))
    case 'N' => Some((d.(table := d.table.(next := n)), seen.(next := true), s))
    case _ => Some((d, seen, s))
  }

  /** A line of the header behind its `+`; `None` for the formats of other servers. */
  function GetPlus(d: Database, seen: Seen, s: string, defaultFlags: int): (r: Option<(Database, Seen, string)>)
    ensures r.Some? ==> |r.value.2| <= |s|
  {
    if s == [] || s[0] == 'V' || s[0] == 'X' then None
    else if s[0] !in "TSAFN" || SeenBefore(seen, s[0]) then Some((d, seen, DropLine(s[1..])))
    else
      match GetRef(s[1..])
      case None => None
      case Some(n) => PlusTaken(d, seen, s[0], n.0, n.1, defaultFlags)
  }

  /** A line that starts with `-`. */
  function GetMinus(d: Database, s: string): (r: Option<(Database, string)>)
    ensures r.Some? ==> |r.value.1| <= |s|
  {
    if s != [] && s[0] == 'R' then
      match GetRef(s[1..])
      case None => None
      case Some(n) => Some((d.(players := n.0), n.1))
    else Some((d, DropLine(if s == [] then s else s[1..])))
  }

  /** An object behind its `!`. */
  function GetEntry(d: Database, s: string): (r: Option<(Database, string)>)
    ensures r.Some? ==> |r.value.1| <= |s|
  {
    match GetRef(s)
    case None => None
    case Some(n) =>
      if n.0 < 0 then None
      else
        var objs := Grow(d.objs, n.0 + 1);
        match GetObject(d.table, n.1, objs[n.0])
        case None => None
        case Some(o) => Some((d.(table := o.1, objs := objs[n.0 := o.0]), o.2))
  }

  /** db_read from the database `d` on; `None` when it gives up. */
  function GetDb(d: Database, seen: Seen, s: string, defaultFlags: int): Option<Database>
    decreases |s|
  {
    if s == [] then None
    else
      match s[0]
      case '-' =>
        (match GetMinus(d, s[1..])
         case None => None
         case Some(r) => GetDb(r.0, seen, r.1, defaultFlags))
      case '+' =>
        (match GetPlus(d, seen, s[1..], defaultFlags)
         case None => None
         case Some(r) => GetDb(r.0, r.1, r.2, defaultFlags))
      case '!' =>
        if !seen.header then None
        else
          (match GetEntry(d, s[1..])
           case None => None
           case Some(r) => GetDb(r.0, seen, r.1, defaultFlags))
      case '*' => if GetString(s[1..], false).0 == EOF_MARK then Some(d) else None
      case _ => None
  }
}
