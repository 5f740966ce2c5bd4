/** The routines of src/db_rw.c that move locks to and from the file.  They are proved to do
    what `LockText` says, so `LockRoundTrip` is about them. */
module LockFile {
  import opened CString
  import opened Wrappers
  import opened FlatText
  import opened TextFile
  import opened AttrTable
  import opened LockTree
  import opened LockText
  import LockRoundTrip

  /** What a reading routine must leave behind. */
  ghost predicate Read(want: Option<Got>, got: Option<BoolExp>, rest: string, table: Table) {
    match want
    case None => got.None?
    case Some(g) => got == Some(g.tree) && rest == g.rest && table == g.table
  }

  /** One more character of a name, or its end. */
  lemma ReadNameStep(name: string, r: string)
    ensures r == [] || EndsName(r[0]) ==> NameSpan(r) == 0
    ensures r != [] && !EndsName(r[0]) ==> NameSpan(r) == 1 + NameSpan(r[1..]) && name + [r[0]] + r[1..] == name + r
  {
    if r != [] { assert r == [r[0]] + r[1..]; }
  }

  method ReadName(f: Reader) returns (name: string, c: Option<char>)
    requires f.Valid()
    modifies f
    ensures var s := old(f.Rest()); var k := NameSpan(s);
      f.Valid() && f.Behind(c) && name == s[..k] && f.Rest() == Drop1(s[k..]) && c == First(s[k..])
  {
    hide NameSpan, Reader.Valid, Reader.Rest, Reader.Behind;
    name := [];
    while true
      invariant f.Valid() && name + f.Rest() == old(f.Rest())
      invariant NameSpan(old(f.Rest())) == |name| + NameSpan(f.Rest())
      decreases |f.Rest()|
    {
      ghost var r := f.Rest();
      ReadNameStep(name, r);
      c := f.GetC();
      if c == None || c == Some('\n') || c == Some(':') || c == Some('/') {
        assert old(f.Rest())[|name|..] == r;
        return;
      }
      name := name + [c.value];
    }
  }

  /** One more character of a key, or its end. */
  lemma ReadKeyStep(key: string, r: string)
    ensures r == [] || EndsKey(r[0]) ==> KeySpan(r) == 0
    ensures r != [] && !EndsKey(r[0]) ==> KeySpan(r) == 1 + KeySpan(r[1..]) && key + [r[0]] + r[1..] == key + r
  {
    if r != [] { assert r == [r[0]] + r[1..]; }
  }

  method ReadKey(f: Reader) returns (key: string, c: Option<char>)
    requires f.Valid()
    modifies f
    ensures var s := old(f.Rest()); var k := KeySpan(s);
      f.Valid() && f.Behind(c) && key == s[..k] && f.Rest() == Drop1(s[k..]) && c == First(s[k..])
  {
    hide KeySpan, Reader.Valid, Reader.Rest, Reader.Behind;
    key := [];
    while true
      invariant f.Valid() && key + f.Rest() == old(f.Rest())
      invariant KeySpan(old(f.Rest())) == |key| + KeySpan(f.Rest())
      decreases |f.Rest()|
    {
      ghost var r := f.Rest();
      ReadKeyStep(key, r);
      c := f.GetC();
      if c == None || c == Some('\n') || c == Some(')') || c == Some('|') || c == Some('&') {
        assert old(f.Rest())[|key|..] == r;
        return;
      }
      key := key + [c.value];
    }
  }

  method ReadNumber(f: Reader) returns (n: int, c: Option<char>)
    requires f.Valid()
    modifies f
    ensures var d := ReadDigits(old(f.Rest()), 0);
      f.Valid() && f.Behind(c) && n == d.0 && f.Rest() == Drop1(d.1) && c == First(d.1)
  {
    n := 0;
    while true
      invariant f.Valid() && ReadDigits(old(f.Rest()), 0) == ReadDigits(f.Rest(), n)
      decreases |f.Rest()|
    {
      c := f.GetC();
      if c == None || !IsDigit(c.value) {
        return;
      }
      n := n * 10 + DigitValue(c.value);
    }
  }

  function First(s: string): Option<char> {
    if s == [] then None else Some(s[0])
  }

  function Drop1(s: string): string {
    if s == [] then s else s[1..]
  }

  /** The closing parenthesis of a subexpression. */
  method ReadClose(f: Reader) returns (ok: bool)
    requires f.Valid()
    modifies f
    ensures var v := SkipNewline(old(f.Rest()));
      f.Valid() && ok == (v != [] && v[0] == ')') && (ok ==> f.Rest() == v[1..])
  {
    var d := NextInLine(f);
    ok := d == Some(')');
  }

  /** The next character, perhaps behind a newline. */
  method NextInLine(f: Reader) returns (c: Option<char>)
    requires f.Valid()
    modifies f
    ensures var v := SkipNewline(old(f.Rest())); f.Valid() && c == First(v) && f.Rest() == Drop1(v)
  {
    c := f.GetC();
    if c == Some('\n') {
      c := f.GetC();
    }
  }

  /** The end of a leaf: `c` was read behind the number. */
  method ReadLeaf(f: Reader, attrs: Attrs, n: int, c0: Option<char>, ghost s: string) returns (b: Option<BoolExp>)
    requires f.Valid() && f.Behind(c0) && f.Rest() == Drop1(s) && c0 == First(s)
    modifies f
    ensures f.Valid() && Read(Leaf(attrs.table, n, s), b, f.Rest(), attrs.table)
  {
    if c0 == Some(':') || c0 == Some('/') {
      assert s == [c0.value] + Drop1(s);
      b := ReadTest(f, attrs, n, c0 == Some('/'));
      return;
    }
    f.UngetC(c0);
    return Some(Const(n));
  }

  /** The key of an attribute test. */
  method ReadTest(f: Reader, attrs: Attrs, n: int, eval: bool) returns (b: Option<BoolExp>)
    requires f.Valid()
    modifies f
    ensures f.Valid() && Read(Leaf(attrs.table, n, (if eval then "/" else ":") + old(f.Rest())), b, f.Rest(), attrs.table)
  {
    KeyLeaf(attrs.table, n, eval, f.Rest());
    hide KeySpan, Leaf;
    var key, c := ReadKey(f);
    if c == None {
      return None;
    }
    f.UngetC(c);
    return Some(if eval then Eval(n, key) else Atr(n, key));
  }

  lemma KeyLeaf(t: Table, n: int, eval: bool, s: string)
    ensures var k := KeySpan(s);
      Leaf(t, n, (if eval then "/" else ":") + s)
      == if k == |s| then None else Some(Got(if eval then Eval(n, s[..k]) else Atr(n, s[..k]), s[k..], t))
    ensures var u := s[KeySpan(s)..]; (u == [] <==> KeySpan(s) == |s|) && (u != [] ==> [u[0]] + Drop1(u) == u)
  {
    hide KeySpan, Leaf;
    if eval {
      LeafAt(t, n, '/', s);
    } else {
      LeafAt(t, n, ':', s);
    }
    Rejoined(s[KeySpan(s)..]);
  }

  /** The key behind a `:` or a `/`. */
  lemma LeafAt(t: Table, n: int, c: char, s: string)
    requires c == ':' || c == '/'
    ensures var k := KeySpan(s);
      Leaf(t, n, [c] + s)
      == if k == |s| then None else Some(Got(if c == '/' then Eval(n, s[..k]) else Atr(n, s[..k]), s[k..], t))
  {
    hide KeySpan;
    assert ([c] + s)[1..] == s;
  }

  lemma Rejoined(u: string)
    ensures u != [] ==> [u[0]] + Drop1(u) == u
  {}

  method ReadNamed(f: Reader, attrs: Attrs) returns (b: Option<BoolExp>)
    requires f.Valid()
    modifies f, attrs
    ensures f.Valid() && Read(Named(old(attrs.table), old(f.Rest())), b, f.Rest(), attrs.table)
  {
    hide MkAttr, Leaf;
    var name, c := ReadName(f);
    if c == None {
      return None;
    }
    var anum := attrs.MakeAttr(name);
    if anum <= 0 {
      return None;
    }
    b := ReadLeaf(f, attrs, anum, c, old(f.Rest())[NameSpan(old(f.Rest()))..]);
  }

  method ReadQuoted(f: Reader, attrs: Attrs) returns (b: Option<BoolExp>)
    requires f.Valid()
    modifies f, attrs
    ensures f.Valid() && Read(QuotedName(old(attrs.table), old(f.Rest())), b, f.Rest(), attrs.table)
  {
    hide MkAttr, FlatText.GetString;
    var name := f.GetString(true);
    var c := f.GetC();
    if c == None {
      return Some(True);
    }
    var anum := attrs.MakeAttr(name);
    if anum <= 0 || !(c == Some(':') || c == Some('/')) {
      return None;
    }
    var key := f.GetString(true);
    return Some(if c == Some('/') then Eval(anum, key) else Atr(anum, key));
  }

  method ReadDash(f: Reader, attrs: Attrs) returns (b: Option<BoolExp>)
    requires f.Valid()
    modifies f
    ensures f.Valid() && Read(Dash(attrs.table, old(f.Rest())), b, f.Rest(), attrs.table)
  {
    while true
      invariant f.Valid() && Dash(attrs.table, old(f.Rest())) == Dash(attrs.table, f.Rest())
      decreases |f.Rest()|
    {
      var c := f.GetC();
      if c == None {
        return None;
      }
      if c == Some('\n') {
        f.UngetC(c);
        return Some(True);
      }
    }
  }

  /** getboolexp1; `None` is the abort. */
  method GetBoolExp1(f: Reader, attrs: Attrs) returns (b: Option<BoolExp>)
    requires f.Valid()
    modifies f, attrs
    ensures f.Valid() && Read(Get1(old(attrs.table), old(f.Rest())), b, f.Rest(), attrs.table)
    decreases |f.Rest()|, 1
  {
    hide MkAttr, Leaf, Named, QuotedName, Dash, GetPair, ReadDigits;
    ghost var s := f.Rest();
    var c := f.GetC();
    if c == None {
      return None;
    }
    if c.value == '\n' {
      f.UngetC(c);
      return Some(True);
    } else if c.value == '(' {
      assert s == "(" + s[1..];
      b := GetGroup(f, attrs);
    } else if c.value == '-' {
      b := ReadDash(f, attrs);
    } else {
      f.UngetC(c);
      assert f.Rest() == s;
      if c.value == '"' {
        b := ReadQuoted(f, attrs);
      } else if IsDigit(c.value) {
        var n, d := ReadNumber(f);
        b := ReadLeaf(f, attrs, n, d, ReadDigits(s, 0).1);
      } else if IsAlpha(c.value) {
        b := ReadNamed(f, attrs);
      } else {
        return None;
      }
    }
  }

  /** Behind an opening parenthesis: a token and a tree, or two trees with a token between. */
  method GetGroup(f: Reader, attrs: Attrs) returns (b: Option<BoolExp>)
    requires f.Valid()
    modifies f, attrs
    ensures f.Valid() && Read(Get1(old(attrs.table), "(" + old(f.Rest())), b, f.Rest(), attrs.table)
    decreases |f.Rest()|, 4
  {
    ghost var s := f.Rest();
    assert ("(" + s)[1..] == s;
    var c := f.GetC();
    if c.Some? && PrefixOf(c.value).Some? {
      assert ("(" + s)[2..] == s[1..];
      var sub := GetBoolExp1(f, attrs);
      if sub.None? {
        return None;
      }
      var ok := ReadClose(f);
      return if ok then Some(Prefix(PrefixOf(c.value).value, sub.value)) else None;
    }
    f.UngetC(c);
    assert f.Rest() == s;
    b := GetTwo(f, attrs);
  }

  method GetTwo(f: Reader, attrs: Attrs) returns (b: Option<BoolExp>)
    requires f.Valid()
    modifies f, attrs
    ensures f.Valid() && Read(GetPair(old(attrs.table), old(f.Rest())), b, f.Rest(), attrs.table)
    decreases |f.Rest()|, 3
  {
    hide Get1, LockText.GetRight;
    var left := GetBoolExp1(f, attrs);
    if left.None? {
      return None;
    }
    b := GetRight(f, attrs, left.value);
  }

  method GetRight(f: Reader, attrs: Attrs, left: BoolExp) returns (b: Option<BoolExp>)
    requires f.Valid()
    modifies f, attrs
    ensures f.Valid() && Read(LockText.GetRight(old(attrs.table), left, old(f.Rest())), b, f.Rest(), attrs.table)
    decreases |f.Rest()|, 2
  {
    hide Get1, SkipNewline;
    var c := NextInLine(f);
    if c.None? || PairOf(c.value).None? {
      return None;
    }
    var right := GetBoolExp1(f, attrs);
    if right.None? {
      return None;
    }
    var ok := ReadClose(f);
    return if ok then Some(Pair(PairOf(c.value).value, left, right.value)) else None;
  }

  /** getboolexp, for the server's own format. */
  method GetBoolExp(f: Reader, attrs: Attrs) returns (b: Option<BoolExp>)
    requires f.Valid()
    modifies f, attrs
    ensures f.Valid() && Read(Get(old(attrs.table), old(f.Rest())), b, f.Rest(), attrs.table)
  {
    hide Get1;
    b := GetBoolExp1(f, attrs);
    if b.None? {
      return;
    }
    var c := f.GetC();
    if c != Some('\n') {
      return None;
    }
    c := f.GetC();
    if c != Some('\n') {
      f.UngetC(c);
    }
  }

  /** read_comsys: one of a channel's locks. */
  method GetChannelLock(f: Reader, attrs: Attrs) returns (b: Option<BoolExp>)
    requires f.Valid()
    modifies f, attrs
    ensures f.Valid() && Read(LockRoundTrip.GetChannelLock(old(attrs.table), old(f.Rest())), b, f.Rest(), attrs.table)
  {
    hide Get1, LockRoundTrip.AfterLock;
    b := GetBoolExp1(f, attrs);
    if b.Some? {
      SkipDash(f);
    }
  }

  method SkipDash(f: Reader)
    requires f.Valid()
    modifies f
    ensures f.Valid() && f.Rest() == LockRoundTrip.AfterLock(old(f.Rest()))
  {
    var c := f.GetC();
    c := f.GetC();
    if c == Some('\n') {
      c := f.GetC();
      c := f.GetC();
    } else if c == Some('-') {
      c := f.GetC();
    }
  }

  /** putbool_subexp */
  method PutBoolSubexp(f: Writer, attrs: Attrs, b: BoolExp)
    requires Whole(b)
    modifies f
    ensures f.text == old(f.text) + PutSub(attrs.table, b)
    decreases b
  {
    match b {
      case Pair(op, left, right) =>
        f.PutC('(');
        PutBoolSubexp(f, attrs, left);
        f.PutC(PairToken(op));
        PutBoolSubexp(f, attrs, right);
        f.PutC(')');
      case Prefix(pre, sub) =>
        f.PutC('(');
        f.PutC(PrefixToken(pre));
        PutBoolSubexp(f, attrs, sub);
        f.PutC(')');
      case Const(thing) =>
        f.Puts(Print(thing));
      case Atr(attr, key) =>
        var va := NameOf(attrs.table, attr);
        if va.Some? {
          f.Puts(va.value + ":" + key);
        } else {
          f.Puts(Print(attr) + ":" + key + "\n");
        }
      case Eval(attr, key) =>
        var va := NameOf(attrs.table, attr);
        if va.Some? {
          f.Puts(va.value + "/" + key + "\n");
        } else {
          f.Puts(Print(attr) + "/" + key + "\n");
        }
    }
    assert f.text == old(f.text) + PutSub(attrs.table, b);
  }

  /** putboolexp */
  method PutBoolExp(f: Writer, attrs: Attrs, b: BoolExp)
    requires b.True? || Whole(b)
    modifies f
    ensures f.text == old(f.text) + Put(attrs.table, b)
  {
    if !b.True? {
      PutBoolSubexp(f, attrs, b);
    }
    f.PutC('\n');
  }

  /** Written and read back: the lock and the position behind it, for every readable lock. */
  method DumpAndLoad(attrs: Attrs, b: BoolExp) returns (r: Option<BoolExp>)
    requires Sound(attrs.table) && (b.True? || Whole(b))
    modifies attrs
    ensures r == Some(b) <==> LockRoundTrip.Readable(old(attrs.table), b)
  {
    var w := new Writer();
    PutBoolExp(w, attrs, b);
    LockRoundTrip.LockRoundTrip(attrs.table, b, []);
    assert w.text + [] == w.text == Put(attrs.table, b);
    var f := new Reader(w.text);
    r := GetBoolExp(f, attrs);
  }
}
