/** db_write and db_read of src/db_rw.c on files: what they do is what `FlatDb` says. */
module FlatDbFile {
  import opened Constants
  import opened Wrappers
  import opened FlatText
  import opened TextFile
  import opened AttrTable
  import LockText
  import LockFile
  import opened FlatDb

  // ---------------------------------------------------------------------
  // Writing
  // ---------------------------------------------------------------------

  method WriteRefs(f: Writer, ns: seq<int>)
    modifies f
    ensures f.text == old(f.text) + PutRefs(ns)
  {
    hide PutRef;
    ghost var done := "";
    var i := 0;
    assert ns[0..] == ns;
    while i < |ns|
      invariant 0 <= i <= |ns| && f.text == old(f.text) + done && done + PutRefs(ns[i..]) == PutRefs(ns)
    {
      assert ns[i..][1..] == ns[i + 1..];
      Grows(old(f.text), done, PutRef(ns[i]), PutRefs(ns[i + 1..]));
      f.PutRef(ns[i]);
      done := done + PutRef(ns[i]);
      i := i + 1;
    }
  }

  /** A piece moves from what is still to be written to what is done. */
  lemma Grows(before: string, done: string, piece: string, rest: string)
    ensures done + (piece + rest) == done + piece + rest
    ensures before + done + piece == before + (done + piece)
  {}

  /** The attribute loop of db_write_object. */
  method WriteList(f: Writer, t: Table, attrs: map<int, string>, walk: seq<int>)
    modifies f
    ensures f.text == old(f.text) + PutList(t, attrs, walk)
  {
    hide PutAttr;
    ghost var done := "";
    var i := 0;
    assert walk[0..] == walk;
    while i < |walk|
      invariant 0 <= i <= |walk| && f.text == old(f.text) + done
      invariant done + PutList(t, attrs, walk[i..]) == PutList(t, attrs, walk)
    {
      assert walk[i..][1..] == walk[i + 1..];
      Grows(old(f.text), done, PutAttr(t, attrs, walk[i]), PutList(t, attrs, walk[i + 1..]));
      WriteAttr(f, t, attrs, walk[i]);
      done := done + PutAttr(t, attrs, walk[i]);
      i := i + 1;
    }
    f.Puts("<\n");
  }

  method WriteAttr(f: Writer, t: Table, attrs: map<int, string>, n: int)
    modifies f
    ensures f.text == old(f.text) + PutAttr(t, attrs, n)
  {
    hide PutRef, FlatText.PutString;
    if Saved(t, n) {
      f.PutC('>');
      f.PutRef(n);
      f.PutString(if n in attrs then attrs[n] else "");
    }
    assert f.text == old(f.text) + PutAttr(t, attrs, n);
  }

  /** db_write_object */
  method WriteObject(f: Writer, attrs: Attrs, o: Obj, walk: seq<int>)
    requires Writable(o)
    modifies f
    ensures f.text == old(f.text) + PutObject(attrs.table, o, walk)
  {
    hide PutRefs, PutString, LockText.Put, PutList, Links, FlatDb.Numbers;
    ghost var t := attrs.table;
    f.PutString(o.name);
    WriteRefs(f, Links(o));
    LockFile.PutBoolExp(f, attrs, o.lock);
    WriteRefs(f, FlatDb.Numbers(o));
    WriteList(f, attrs.table, o.attrs, walk);
    Joined(old(f.text), PutString(o.name), PutRefs(Links(o)), LockText.Put(t, o.lock), PutRefs(FlatDb.Numbers(o)),
           PutList(t, o.attrs, walk));
  }

  lemma Joined(z: string, a: string, b: string, c: string, d: string, e: string)
    ensures z + a + b + c + d + e == z + (a + (b + (c + (d + e))))
  {
    assert c + d + e == c + (d + e);
    assert b + (c + (d + e)) == b + c + (d + e);
  }

  method WriteVattrs(f: Writer, vs: seq<Vattr>)
    modifies f
    ensures f.text == old(f.text) + PutVattrs(vs)
  {
    hide PutVattr;
    ghost var done := "";
    var i := 0;
    assert vs[0..] == vs;
    while i < |vs|
      invariant 0 <= i <= |vs| && f.text == old(f.text) + done && done + PutVattrs(vs[i..]) == PutVattrs(vs)
    {
      assert vs[i..][1..] == vs[i + 1..];
      Grows(old(f.text), done, PutVattr(vs[i]), PutVattrs(vs[i + 1..]));
      WriteVattr(f, vs[i]);
      done := done + PutVattr(vs[i]);
      i := i + 1;
    }
  }

  method WriteVattr(f: Writer, v: Vattr)
    modifies f
    ensures f.text == old(f.text) + PutVattr(v)
  {
    if !HasBit(v.flags, AF_DELETED) {
      f.Puts("+A");
      f.PutRef(v.number);
      f.Puts("\"" + Print(v.flags) + ":" + v.name + "\"\n");
    }
  }

  method WriteEntry(f: Writer, attrs: Attrs, i: nat, o: Obj, walk: seq<int>)
    requires Writable(o)
    modifies f
    ensures f.text == old(f.text) + PutEntry(attrs.table, i, o, walk)
  {
    hide PutObject, PutRef;
    if !o.Going() {
      f.PutC('!');
      f.PutRef(i);
      WriteObject(f, attrs, o, walk);
      assert f.text == old(f.text) + ("!" + (PutRef(i) + PutObject(attrs.table, o, walk)));
    }
  }

  method WriteObjects(f: Writer, attrs: Attrs, objs: seq<Obj>, walks: seq<seq<int>>)
    requires |walks| == |objs| && forall j :: 0 <= j < |objs| ==> Writable(objs[j])
    modifies f
    ensures f.text == old(f.text) + PutObjects(attrs.table, objs, walks, 0)
  {
    hide PutEntry, Writable;
    ghost var t := attrs.table;
    ghost var done := "";
    for i := 0 to |objs|
      invariant f.text == old(f.text) + done && done + PutObjects(t, objs, walks, i) == PutObjects(t, objs, walks, 0)
    {
      Grows(old(f.text), done, PutEntry(t, i, objs[i], walks[i]), PutObjects(t, objs, walks, i + 1));
      WriteEntry(f, attrs, i, objs[i], walks[i]);
      done := done + PutEntry(t, i, objs[i], walks[i]);
    }
  }

  method WriteHeader(f: Writer, top: int, next: int, players: int)
    modifies f
    ensures f.text == old(f.text) + PutHeader(top, next, players)
  {
    hide PutRef;
    f.Puts("+T");
    f.PutRef(UNLOAD_FORMAT);
    f.Puts("+S");
    f.PutRef(top);
    f.Puts("+N");
    f.PutRef(next);
    f.Puts("-R");
    f.PutRef(players);
    assert f.text == old(f.text) + PutHeader(top, next, players) by {
      ghost var a, b, c, d := PutRef(UNLOAD_FORMAT), PutRef(top), PutRef(next), PutRef(players);
      assert "+N" + (c + ("-R" + d)) == "+N" + c + "-R" + d;
      assert "+S" + (b + ("+N" + (c + ("-R" + d)))) == "+S" + b + ("+N" + c + "-R" + d);
    }
  }

  /** db_write */
  method DbWrite(f: Writer, attrs: Attrs, d: Database, vs: seq<Vattr>, walks: seq<seq<int>>)
    requires |walks| == |d.objs| && (forall j :: 0 <= j < |d.objs| ==> Writable(d.objs[j])) && d.table == attrs.table
    modifies f
    ensures f.text == old(f.text) + PutDb(d, vs, walks)
  {
    hide PutHeader, PutVattrs, PutObjects;
    WriteHeader(f, |d.objs|, d.table.next, d.players);
    WriteVattrs(f, vs);
    WriteObjects(f, attrs, d.objs, walks);
    f.Puts("*" + EOF_MARK + "\n");
    ghost var h, v, o := PutHeader(|d.objs|, d.table.next, d.players), PutVattrs(vs), PutObjects(d.table, d.objs, walks, 0);
    assert f.text == old(f.text) + (h + (v + (o + ("*" + EOF_MARK + "\n"))));
  }

  // ---------------------------------------------------------------------
  // Reading
  // ---------------------------------------------------------------------

  method ReadRefs(f: Reader, k: nat) returns (ns: Option<seq<int>>)
    requires f.Valid()
    modifies f
    ensures f.Valid()
    ensures match GetRefs(old(f.Rest()), k)
      case None => ns.None?
      case Some(r) => ns == Some(r.0) && f.Rest() == r.1
    decreases k
  {
    hide GetRef, Reader.Valid, Reader.Rest;
    if k == 0 {
      return Some([]);
    }
    var n := f.GetRef();
    if n.None? {
      return None;
    }
    var rest := ReadRefs(f, k - 1);
    return if rest.None? then None else Some([n.value] + rest.value);
  }

  /** get_list */
  method ReadList(f: Reader, attrs0: map<int, string>) returns (attrs: Option<map<int, string>>)
    requires f.Valid()
    modifies f
    ensures f.Valid()
    ensures match GetList(old(f.Rest()), attrs0, true)
      case None => attrs.None?
      case Some(r) => attrs == Some(r.0) && f.Rest() == r.1
  {
    hide GetRef, FlatText.GetString;
    var m := attrs0;
    while true
      invariant f.Valid() && GetList(old(f.Rest()), attrs0, true) == GetList(f.Rest(), m, true)
      decreases |f.Rest()|
    {
      ListStep(f.Rest(), m);
      hide GetList, LockText.SkipNewline;
      var c := f.GetC();
      if c == None {
        return None;
      } else if c == Some('>') {
        var n := f.GetRef();
        if n.None? {
          return None;
        }
        var v := f.GetString(true);
        if n.value > 0 {
          m := AddAttr(m, n.value, v);
        }
      } else if c == Some('<') {
        SkipNewline(f);
        return Some(m);
      } else if c != Some('\n') {
        var v := f.GetString(true);
      }
    }
  }

  method SkipNewline(f: Reader)
    requires f.Valid()
    modifies f
    ensures f.Valid() && f.Rest() == LockText.SkipNewline(old(f.Rest()))
  {
    var c := f.GetC();
    if c != Some('\n') {
      f.UngetC(c);
    }
  }

  /** One turn of get_list. */
  lemma ListStep(s: string, m: map<int, string>)
    ensures s == [] ==> GetList(s, m, true) == None
    ensures s != [] && s[0] == '>' ==>
      GetList(s, m, true) == match GetRef(s[1..])
        case None => None
        case Some(n) =>
          var v := FlatText.GetString(n.1, true);
          GetList(v.1, if n.0 > 0 then AddAttr(m, n.0, v.0) else m, true)
    ensures s != [] && s[0] == '\n' ==> GetList(s, m, true) == GetList(s[1..], m, true)
    ensures s != [] && s[0] == '<' ==> GetList(s, m, true) == Some((m, LockText.SkipNewline(s[1..])))
    ensures s != [] && s[0] != '>' && s[0] != '\n' && s[0] != '<' ==>
      GetList(s, m, true) == GetList(FlatText.GetString(s[1..], true).1, m, true)
  {
    hide GetRef, FlatText.GetString;
  }

  /** The part of db_read behind an object's number. */
  method ReadObject(f: Reader, attrs: Attrs, slot: Obj) returns (o: Option<Obj>)
    requires f.Valid()
    modifies f, attrs
    ensures f.Valid()
    ensures match GetObject(old(attrs.table), old(f.Rest()), slot)
      case None => o.None?
      case Some(r) => o == Some(r.0) && attrs.table == r.1 && f.Rest() == r.2
  {
    hide GetRefs, FlatText.GetString, LockText.Get, GetList, SetLinks, SetNumbers, Disconnected;
    var name := f.GetString(true);
    var a := ReadRefs(f, 6);
    if a.None? {
      return None;
    }
    var lock := LockFile.GetBoolExp(f, attrs);
    if lock.None? {
      return None;
    }
    var b := ReadRefs(f, 8);
    if b.None? {
      return None;
    }
    var l := ReadList(f, slot.attrs);
    if l.None? {
      return None;
    }
    var o1 := SetNumbers(SetLinks(slot.(name := ClipName(name), lock := lock.value, attrs := l.value), a.value), b.value);
    return Some(Disconnected(o1));
  }

  /** The database being filled, and how far the header has been read. */
  class Loader {
    const attrs: Attrs
    const vattrFlags: int
    var attrFlags: map<int, int>
    var objs: seq<Obj>
    var minSize: int
    var players: int
    var seen: Seen

    ghost function Db(): Database
      reads this, attrs
    {
      Database(attrs.table, attrFlags, objs, minSize, players)
    }

    constructor (attrs: Attrs, vattrFlags: int, attrFlags: map<int, int>, minSize: int, players: int)
      ensures this.attrs == attrs && this.vattrFlags == vattrFlags && seen == Seen(false, false, false)
      ensures Db() == Database(attrs.table, attrFlags, [], minSize, players)
    {
      this.attrs, this.vattrFlags, this.attrFlags, this.minSize, this.players := attrs, vattrFlags, attrFlags, minSize, players;
      objs, seen := [], Seen(false, false, false);
    }

    /** vattr_define */
    method VattrDefine(number: int, flags: int, name: string)
      modifies this`attrFlags, attrs
      ensures Db() == Define(old(Db()), Vattr(number, flags, name))
    {
      var k := Key(name);
      if !OkName(k) || (k in attrs.table.numbers && attrs.table.numbers[k] >= A_USER_START) {
        return;
      }
      if k !in attrs.table.numbers {
        attrs.table := attrs.table.(numbers := attrs.table.numbers[k := number]);
      }
      attrs.table := attrs.table.(names := attrs.table.names[number := k]);
      attrFlags := attrFlags[number := flags];
    }

    /** A header line behind its `+`. */
    method ReadPlus(f: Reader) returns (ok: bool)
      requires f.Valid()
      modifies this, attrs, f
      ensures f.Valid()
      ensures match GetPlus(old(Db()), old(seen), old(f.Rest()), vattrFlags)
        case None => !ok
        case Some(r) => ok && Db() == r.0 && seen == r.1 && f.Rest() == r.2
    {
      hide GetRef, FlatText.GetString, PlusTaken, SeenBefore, Db;
      hide Reader.Valid, Reader.Rest, Reader.Behind;
      var c := f.GetC();
      if c == None || c == Some('V') || c == Some('X') {
        return false;
      }
      if c.value !in "TSAFN" || SeenBefore(seen, c.value) {
        var line := f.GetString(false);
        return true;
      }
      var n := f.GetRef();
      if n.None? {
        return false;
      }
      ok := TakePlus(f, c.value, n.value);
    }

    /** The number has been read. */
    method TakePlus(f: Reader, c: char, n: int) returns (ok: bool)
      requires f.Valid()
      modifies this, attrs, f
      ensures f.Valid()
      ensures match PlusTaken(old(Db()), old(seen), c, n, old(f.Rest()), vattrFlags)
        case None => !ok
        case Some(r) => ok && Db() == r.0 && seen == r.1 && f.Rest() == r.2
    {
      hide FlatText.GetString, Define, SplitVattr, Reader.Valid, Reader.Rest;
      ok := true;
      if c == 'T' {
        if n != UNLOAD_FORMAT {
          return false;
        }
        seen := seen.(header := true);
      } else if c == 'S' {
        minSize, seen := n, seen.(size := true);
      } else if c == 'N' {
        attrs.table, seen := attrs.table.(next := n), seen.(next := true);
      } else if c == 'A' {
        var tstr := f.GetString(seen.header);
        var v := SplitVattr(n, tstr, vattrFlags);
        VattrDefine(v.number, v.flags, v.name);
      }
    }

    method ReadMinus(f: Reader) returns (ok: bool)
      requires f.Valid()
      modifies this, f
      ensures f.Valid() && seen == old(seen)
      ensures match GetMinus(old(Db()), old(f.Rest()))
        case None => !ok
        case Some(r) => ok && Db() == r.0 && f.Rest() == r.1
    {
      hide GetRef, FlatText.GetString;
      var c := f.GetC();
      if c == Some('R') {
        var n := f.GetRef();
        if n.None? {
          return false;
        }
        players := n.value;
      } else {
        var line := f.GetString(false);
      }
      return true;
    }

    /** An object behind its `!`. */
    method ReadEntry(f: Reader) returns (ok: bool)
      requires f.Valid()
      modifies this, attrs, f
      ensures f.Valid() && seen == old(seen)
      ensures match GetEntry(old(Db()), old(f.Rest()))
        case None => !ok
        case Some(r) => ok && Db() == r.0 && f.Rest() == r.1
    {
      hide GetRef, GetObject;
      var n := f.GetRef();
      if n.None? || n.value < 0 {
        return false;
      }
      var i := n.value;
      objs := Grow(objs, i + 1);
      var o := ReadObject(f, attrs, objs[i]);
      if o.None? {
        return false;
      }
      objs := objs[i := o.value];
      return true;
    }

    /** db_read */
    method DbRead(f: Reader) returns (ok: bool)
      requires f.Valid()
      modifies this, attrs, f
      ensures f.Valid()
      ensures match GetDb(old(Db()), old(seen), old(f.Rest()), vattrFlags)
        case None => !ok
        case Some(r) => ok && Db() == r
    {
      hide GetPlus, GetMinus, GetEntry, FlatText.GetString;
      while true
        invariant f.Valid()
        invariant GetDb(old(Db()), old(seen), old(f.Rest()), vattrFlags) == GetDb(Db(), seen, f.Rest(), vattrFlags)
        decreases |f.Rest()|
      {
        var ch := f.GetC();
        if ch == Some('-') {
          ok := ReadMinus(f);
        } else if ch == Some('+') {
          ok := ReadPlus(f);
        } else if ch == Some('!') {
          if !seen.header {
            return false;
          }
          ok := ReadEntry(f);
        } else if ch == Some('*') {
          var tstr := f.GetString(false);
          return tstr == EOF_MARK;
        } else {
          return false;
        }
        if !ok {
          return;
        }
      }
    }
  }
}
