/** Reading back what was written: when a lock comes out of the flat file as it went in. */
module LockRoundTrip {
  import opened Constants
  import opened CString
  import opened Wrappers
  import opened FlatText
  import opened AttrTable
  import opened LockTree
  import opened LockText

  predicate KeyOk(k: string) {
    forall i :: 0 <= i < |k| ==> !EndsKey(k[i])
  }

  /** Objects have numbers, keys hold nothing that ends a key, and names start with a letter
      and hold no slash. */
  predicate Readable(t: Table, b: BoolExp) {
    match b
    case True => true
    case Pair(_, l, r) => Readable(t, l) && Readable(t, r)
    case Prefix(_, s) => Readable(t, s)
    case Const(n) => n >= 0
    case Atr(n, k) => KeyOk(k) && NameReadable(t, n)
    case Eval(n, k) => KeyOk(k) && NameReadable(t, n)
  }

  predicate NameReadable(t: Table, n: int) {
    n in t.names ==> t.names[n] != "" && IsAlpha(t.names[n][0]) && '/' !in t.names[n]
  }

  /** Something that ends a key follows. */
  predicate Stops(s: string) {
    s != [] && EndsKey(s[0])
  }

  // ---------------------------------------------------------------------
  // Spans
  // ---------------------------------------------------------------------

  lemma {:induction false} KeySpanAt(k: string, tail: string)
    requires Stops(tail)
    ensures KeyOk(k) ==> KeySpan(k + tail) == |k|
    ensures !KeyOk(k) ==> KeySpan(k + tail) < |k|
  {
    if k == [] {
      assert k + tail == tail;
    } else {
      assert (k + tail)[1..] == k[1..] + tail;
      assert k == [k[0]] + k[1..];
      KeySpanAt(k[1..], tail);
      assert KeyOk(k) <==> !EndsKey(k[0]) && KeyOk(k[1..]);
    }
  }

  lemma {:induction false} NameSpanAt(m: string, tail: string)
    requires tail != [] && EndsName(tail[0]) && forall i :: 0 <= i < |m| ==> !EndsName(m[i])
    ensures NameSpan(m + tail) == |m|
  {
    if m == [] {
      assert m + tail == tail;
    } else {
      assert (m + tail)[1..] == m[1..] + tail;
      NameSpanAt(m[1..], tail);
    }
  }

  function Test(slash: bool, n: int, k: string): BoolExp {
    if slash then Eval(n, k) else Atr(n, k)
  }

  /** A key is read whole when nothing in it ends it, and short otherwise. */
  lemma ReadKey(t: Table, n: int, slash: bool, k: string, tail: string)
    requires Stops(tail)
    ensures var g := Leaf(t, n, (if slash then "/" else ":") + k + tail);
      if KeyOk(k) then g == Some(Got(Test(slash, n, k), tail, t))
      else g.Some? && g.value.tree != Test(slash, n, k)
  {
    var s := (if slash then "/" else ":") + k + tail;
    assert s[1..] == k + tail;
    KeySpanAt(k, tail);
    var j := KeySpan(k + tail);
    if j == |k| {
      assert (k + tail)[..j] == k && (k + tail)[j..] == tail;
    }
  }

  // ---------------------------------------------------------------------
  // One test
  // ---------------------------------------------------------------------

  /** Part of a name is not that name's number. */
  lemma PartOfName(t: Table, n: int, j: nat)
    requires Sound(t) && n in t.names && j < |t.names[n]| && '/' in t.names[n]
    ensures MkAttr(t, t.names[n][..j]).1 != n
  {
    MkAttrSound(t, t.names[n][..j]);
    assert |Key(t.names[n][..j])| == j && |Key(t.names[n])| == |t.names[n]|;
  }

  lemma FirstSlash(m: string) returns (j: nat)
    requires '/' in m && ':' !in m && '\n' !in m
    ensures j < |m| && m[j] == '/' && forall i :: 0 <= i < j ==> !EndsName(m[i])
  {
    j := 0;
    while m[j] != '/'
      invariant j < |m| && '/' in m[j..] && forall i :: 0 <= i < j ==> !EndsName(m[i])
      decreases |m| - j
    {
      assert m[j..] == [m[j]] + m[j + 1..];
      j := j + 1;
    }
  }

  /** A name as far as the reader takes it. */
  lemma ReadNamed(t: Table, m: string, u: string)
    requires m != [] && IsAlpha(m[0]) && u != [] && EndsName(u[0]) && forall i :: 0 <= i < |m| ==> !EndsName(m[i])
    ensures Get1(t, m + u) == var r := MkAttr(t, m); if r.1 <= 0 then None else Leaf(r.0, r.1, u)
  {
    hide Leaf, MkAttr, NameSpan;
    NameSpanAt(m, u);
    var s := m + u;
    assert s[..|m|] == m && s[|m|..] == u && s[0] == m[0];
  }

  lemma ReadNumbered(t: Table, n: nat, u: string)
    requires u == [] || !IsDigit(u[0])
    ensures Get1(t, Decimal(n) + u) == Leaf(t, n, u)
  {
    hide Leaf, Decimal;
    ReadDecimal(n, u);
    assert (Decimal(n) + u)[0] == Decimal(n)[0];
  }

  /** Behind a slash in the name the reader sees an eval lock on another attribute. */
  lemma SlashMisread(t: Table, n: int, u: string)
    requires Sound(t) && n in t.names && IsAlpha(t.names[n][0]) && '/' in t.names[n]
    ensures var g := Get1(t, t.names[n] + u); g.Some? ==> g.value.tree.Eval? && g.value.tree.attr != n
  {
    hide Get1, MkAttr, Key, KeySpan, NameSpan;
    var m := t.names[n];
    var j := FirstSlash(m);
    assert m + u == m[..j] + (m[j..] + u);
    ReadNamed(t, m[..j], m[j..] + u);
    PartOfName(t, n, j);
    assert (m[j..] + u)[0] == '/';
  }

  /** What the reader makes of an attribute's text with a key behind it. */
  lemma ReadTest(t: Table, n: int, slash: bool, k: string, tail: string)
    requires Sound(t) && n >= 0 && Stops(tail)
    ensures var g := Get1(t, AttrText(t, n) + ((if slash then "/" else ":") + k + tail));
      if KeyOk(k) && NameReadable(t, n) then g == Some(Got(Test(slash, n, k), tail, t))
      else g.None? || g.value.tree != Test(slash, n, k)
  {
    hide Leaf, KeyOk;
    var m := AttrText(t, n);
    var u := (if slash then "/" else ":") + k + tail;
    ReadKey(t, n, slash, k, tail);
    if n !in t.names {
      ReadNumbered(t, n, u);
    } else if !IsAlpha(m[0]) {
      assert (m + u)[0] == '*';
    } else if '/' in m {
      SlashMisread(t, n, u);
    } else {
      MkAttrSound(t, m);
      ReadNamed(t, m, u);
    }
  }

  // ---------------------------------------------------------------------
  // Trees
  // ---------------------------------------------------------------------

  lemma {:induction false} FirstChar(t: Table, b: BoolExp)
    requires Sound(t) && Whole(b)
    ensures PutSub(t, b) != [] && PrefixOf(PutSub(t, b)[0]).None?
  {
    if b.Atr? || b.Eval? { assert AttrText(t, b.attr) != []; }
  }

  lemma SkipTrailing(t: Table, b: BoolExp, s: string)
    requires s != [] && s[0] != '\n'
    ensures SkipNewline(Trailing(t, b) + s) == s
  {
    if Trailing(t, b) == "\n" { assert (Trailing(t, b) + s)[1..] == s; }
  }

  /** Was the tree read as it was written, and nothing of what follows it? */
  predicate Exact(t: Table, b: BoolExp, s: string, rest: string) {
    Get1(t, s) == Some(Got(b, Trailing(t, b) + rest, t))
  }

  predicate Lost(t: Table, b: BoolExp, s: string) {
    Get1(t, s).None? || Get1(t, s).value.tree != b
  }

  lemma ConstBack(t: Table, n: int, rest: string)
    requires Stops(rest)
    ensures var b := Const(n); var s := PutSub(t, b) + rest; if Readable(t, b) then Exact(t, b, s, rest) else Lost(t, b, s)
  {
    var s := PutSub(t, Const(n)) + rest;
    if n >= 0 {
      ReadNumbered(t, n, rest);
      assert Trailing(t, Const(n)) + rest == rest;
    } else {
      DashGivesTrue(t, s[1..]);
    }
  }

  lemma TestBack(t: Table, n: int, slash: bool, k: string, rest: string)
    requires Sound(t) && n >= 0 && Stops(rest)
    ensures var b := Test(slash, n, k); var s := PutSub(t, b) + rest; if Readable(t, b) then Exact(t, b, s, rest) else Lost(t, b, s)
  {
    var b := Test(slash, n, k);
    var tail := Trailing(t, b) + rest;
    TestText(t, n, slash, k, rest);
    assert Stops(tail);
    ReadTest(t, n, slash, k, tail);
    hide Get1, AttrText, PutSub, NameReadable, KeyOk;
  }

  lemma TestText(t: Table, n: int, slash: bool, k: string, rest: string)
    requires n >= 0
    ensures var b := Test(slash, n, k);
      PutSub(t, b) + rest == AttrText(t, n) + ((if slash then "/" else ":") + k + (Trailing(t, b) + rest))
  {
    var b := Test(slash, n, k);
    var m := AttrText(t, n);
    var sep := if slash then "/" else ":";
    assert PutSub(t, b) == m + sep + k + Trailing(t, b);
    hide AttrText, PutSub, Trailing;
  }

  lemma LeafBack(t: Table, b: BoolExp, rest: string)
    requires Sound(t) && Whole(b) && Stops(rest) && (b.Const? || b.Atr? || b.Eval?)
    ensures var s := PutSub(t, b) + rest; if Readable(t, b) then Exact(t, b, s, rest) else Lost(t, b, s)
  {
    hide Readable, Exact, Lost, PutSub;
    match b {
      case Const(n) => ConstBack(t, n, rest);
      case Atr(n, k) => TestBack(t, n, false, k, rest);
      case Eval(n, k) => TestBack(t, n, true, k, rest);
    }
  }

  lemma {:induction false} DashGivesTrue(t: Table, s: string)
    ensures Dash(t, s).Some? ==> Dash(t, s).value.tree == True
  {
    if s != [] && s[0] != '\n' { DashGivesTrue(t, s[1..]); }
  }

  /** A tree comes back exactly when it is readable. */
  lemma {:induction false} TreeBack(t: Table, b: BoolExp, rest: string)
    requires Sound(t) && Whole(b) && Stops(rest)
    ensures var s := PutSub(t, b) + rest; if Readable(t, b) then Exact(t, b, s, rest) else Lost(t, b, s)
    decreases b, 1
  {
    hide Readable, Exact, Lost, PutSub;
    match b {
      case Pair(op, l, r) => PairBack(t, op, l, r, rest);
      case Prefix(op, sub) => PrefixBack(t, op, sub, rest);
      case _ => LeafBack(t, b, rest);
    }
  }

  lemma PrefixBack(t: Table, op: PrefixOp, sub: BoolExp, rest: string)
    requires Sound(t) && Whole(sub) && Stops(rest)
    ensures var b := Prefix(op, sub); var s := PutSub(t, b) + rest;
      if Readable(t, b) then Exact(t, b, s, rest) else Lost(t, b, s)
    decreases Prefix(op, sub), 0
  {
    var u := ")" + rest;
    TreeBack(t, sub, u);
    PrefixOpens(t, op, sub, rest);
    hide PutSub, Get1;
    SkipTrailing(t, sub, u);
    assert u[1..] == rest == Trailing(t, Prefix(op, sub)) + rest;
  }

  lemma PrefixOpens(t: Table, op: PrefixOp, sub: BoolExp, rest: string)
    requires Whole(sub)
    ensures var g := Get1(t, PutSub(t, sub) + (")" + rest));
      Get1(t, PutSub(t, Prefix(op, sub)) + rest) == if g.None? then None else Close(Prefix(op, g.value.tree), g.value)
  {
    var a := PutSub(t, sub);
    var s := PutSub(t, Prefix(op, sub)) + rest;
    assert s == "(" + [PrefixToken(op)] + a + ")" + rest;
    hide PutSub, Close;
    assert s[2..] == a + (")" + rest) && s[0] == '(' && s[1] == PrefixToken(op);
    assert PrefixOf(s[1]) == Some(op);
  }

  /** Two trees and a token, up to the closing parenthesis. */
  lemma PairBack(t: Table, op: PairOp, l: BoolExp, r: BoolExp, rest: string)
    requires Sound(t) && Whole(l) && Whole(r) && Stops(rest)
    ensures var b := Pair(op, l, r); var s := PutSub(t, b) + rest;
      if Readable(t, b) then Exact(t, b, s, rest) else Lost(t, b, s)
    decreases Pair(op, l, r), 0
  {
    hide PutSub, Get1, GetPair, Sound, Whole;
    var w := ")" + rest;
    var v := [PairToken(op)] + (PutSub(t, r) + w);
    TreeBack(t, l, v);
    TreeBack(t, r, w);
    PairOpens(t, op, l, r, rest);
    PairSteps(t, op, l, r, rest, PutSub(t, l) + v, v, w);
    assert Trailing(t, Pair(op, l, r)) + rest == rest;
  }

  lemma Opened(a: string, b: string, c: string, rest: string)
    ensures "(" + a + b + c + ")" + rest == "(" + (a + (b + (c + (")" + rest))))
    ensures ("(" + a + b + c + ")" + rest)[1..] == a + (b + (c + (")" + rest)))
  {}

  lemma PairOpens(t: Table, op: PairOp, l: BoolExp, r: BoolExp, rest: string)
    requires Sound(t) && Whole(l) && Whole(r)
    ensures var u := PutSub(t, l) + ([PairToken(op)] + (PutSub(t, r) + (")" + rest)));
      Get1(t, PutSub(t, Pair(op, l, r)) + rest) == GetPair(t, u)
  {
    var a, c := PutSub(t, l), PutSub(t, r);
    var s := PutSub(t, Pair(op, l, r)) + rest;
    assert s == "(" + a + [PairToken(op)] + c + ")" + rest;
    FirstChar(t, l);
    hide PutSub, GetPair;
    Opened(a, [PairToken(op)], c, rest);
    assert s[0] == '(' && s[1] == s[1..][0] == a[0];
  }

  lemma PairSteps(t: Table, op: PairOp, l: BoolExp, r: BoolExp, rest: string, u: string, v: string, w: string)
    requires Whole(l) && Whole(r) && w == ")" + rest && v == [PairToken(op)] + (PutSub(t, r) + w)
    requires if Readable(t, l) then Exact(t, l, u, v) else Lost(t, l, u)
    requires if Readable(t, r) then Exact(t, r, PutSub(t, r) + w, w) else Lost(t, r, PutSub(t, r) + w)
    ensures var g := GetPair(t, u);
      if Readable(t, l) && Readable(t, r) then g == Some(Got(Pair(op, l, r), rest, t))
      else g.None? || g.value.tree != Pair(op, l, r)
  {
    hide PutSub, Get1, Readable;
    SkipTrailing(t, l, v);
    assert v[1..] == PutSub(t, r) + w;
    SkipTrailing(t, r, w);
    assert w[1..] == rest;
    assert PairOf(v[0]) == Some(op);
  }

  // ---------------------------------------------------------------------
  // Whole locks
  // ---------------------------------------------------------------------

  /** getboolexp after putboolexp: the same lock, exactly the text behind it, and no new
      attribute, if and only if the lock is readable and no newline is in the way. */
  lemma LockRoundTrip(t: Table, b: BoolExp, rest: string)
    requires Sound(t) && (b.True? || Whole(b))
    ensures Get(t, Put(t, b) + rest) == Some(Got(b, rest, t)) <==>
            Readable(t, b) && (Trailing(t, b) != "" || rest == [] || rest[0] != '\n')
    ensures (Get(t, Put(t, b) + rest).Some? && Get(t, Put(t, b) + rest).value.tree == b) <==> Readable(t, b)
  {
    Opening(t, b, rest);
    hide Put, Get1, Readable;
    AfterTrailing(t, b, rest);
  }

  /** The reader behind a lock that was written: at its newline, or at the one it brought along. */
  lemma Opening(t: Table, b: BoolExp, rest: string)
    requires Sound(t) && (b.True? || Whole(b))
    ensures var s := Put(t, b) + rest;
      if Readable(t, b) then Get1(t, s) == Some(Got(b, Trailing(t, b) + ("\n" + rest), t))
      else Get1(t, s).None? || Get1(t, s).value.tree != b
  {
    hide Put, Get1, Readable;
    if b.True? { OpeningTrue(t, rest); } else { OpeningWhole(t, b, rest); }
  }

  lemma OpeningTrue(t: Table, rest: string)
    ensures Get1(t, Put(t, True) + rest) == Some(Got(True, Trailing(t, True) + ("\n" + rest), t)) && Readable(t, True)
  {
    assert Put(t, True) + rest == "\n" + rest;
    assert Trailing(t, True) + ("\n" + rest) == "\n" + rest;
  }

  lemma OpeningWhole(t: Table, b: BoolExp, rest: string)
    requires Sound(t) && Whole(b)
    ensures var s := Put(t, b) + rest;
      if Readable(t, b) then Get1(t, s) == Some(Got(b, Trailing(t, b) + ("\n" + rest), t))
      else Get1(t, s).None? || Get1(t, s).value.tree != b
  {
    hide PutSub, Readable, Get1;
    PutJoined(t, b, rest);
    TreeBack(t, b, "\n" + rest);
  }

  lemma PutJoined(t: Table, b: BoolExp, rest: string)
    requires Whole(b)
    ensures Put(t, b) + rest == PutSub(t, b) + ("\n" + rest)
  {
    hide PutSub;
  }

  lemma AfterTrailing(t: Table, b: BoolExp, rest: string)
    ensures var u := Trailing(t, b) + ("\n" + rest);
      u[0] == '\n' && u[1..] == if Trailing(t, b) == "" then rest else "\n" + rest
    ensures ("\n" + rest)[1..] == rest && ("\n" + rest)[0] == '\n'
    ensures Trailing(t, b) == "" || Trailing(t, b) == "\n"
  {}

  /** A slash in a name is enough to lose a lock. */
  lemma SlashLost(t: Table, n: int, k: string, rest: string)
    requires Sound(t) && n in t.names && '/' in t.names[n]
    ensures Get(t, Put(t, Atr(n, k)) + rest) != Some(Got(Atr(n, k), rest, t))
  {
    LockRoundTrip(t, Atr(n, k), rest);
  }

  lemma SlashNamed()
    ensures OkName("A/B") && Key("A/B") == "A/B" && '/' in "A/B"
  {
    assert "A/B"[1] == '/';
  }

  /** An attribute by that name, in a table with no other. */
  function SlashTable(): Table {
    MkAttr(Table(map[], map[], A_USER_START), "A/B").0
  }

  lemma SlashTabled()
    ensures Sound(SlashTable()) && SlashTable().names == map[A_USER_START + 1 := "A/B"]
  {
    SlashNamed();
    hide Key, OkName;
    MkAttrSound(Table(map[], map[], A_USER_START), "A/B");
  }

  /** Such a name can be had: `A/B` is a good attribute name, and a test of it does not come back. */
  lemma SlashExample()
    ensures var b := Atr(A_USER_START + 1, "X"); var t := SlashTable();
      Sound(t) && t.names == map[A_USER_START + 1 := "A/B"] && Get(t, Put(t, b) + "") != Some(Got(b, "", t))
  {
    SlashTabled();
    SlashNamed();
    hide Get, Put, Sound, SlashTable;
    SlashLost(SlashTable(), A_USER_START + 1, "X", "");
  }

  // ---------------------------------------------------------------------
  // The locks of a channel
  // ---------------------------------------------------------------------

  function Drop(s: string, k: nat): (r: string)
    ensures |r| <= |s|
  {
    if |s| < k then [] else s[k..]
  }

  /** read_comsys: a lock, a newline, and the line with a dash; an eval lock brings an
      extra newline, which is skipped. */
  function GetChannelLock(t: Table, s: string): (r: Option<Got>)
    ensures r.Some? ==> |r.value.rest| <= |s|
  {
    match Get1(t, s)
    case None => None
    case Some(g) => Some(g.(rest := AfterLock(g.rest)))
  }

  function AfterLock(s: string): (r: string)
    ensures |r| <= |s|
  {
    var u := Drop(s, 1);
    if u == [] then u else if u[0] == '\n' then Drop(u, 3) else if u[0] == '-' then Drop(u, 2) else u[1..]
  }

  /** save_comsys */
  function PutChannelLock(t: Table, b: BoolExp): string
    requires b.True? || Whole(b)
  {
    Put(t, b) + "-\n"
  }

  /** The reader is behind the dash whenever the lock is readable, and gets the lock then only. */
  lemma ChannelLockBack(t: Table, b: BoolExp, rest: string)
    requires Sound(t) && (b.True? || Whole(b))
    ensures Readable(t, b) <==> GetChannelLock(t, PutChannelLock(t, b) + rest) == Some(Got(b, rest, t))
  {
    var v := "-\n" + rest;
    assert PutChannelLock(t, b) + rest == Put(t, b) + v;
    Opening(t, b, v);
    hide Put, Get1, Readable, PutChannelLock;
    AfterTrailing(t, b, v);
    assert v[2..] == rest && ("\n" + v)[3..] == rest;
  }

  /** The three locks of a channel, one behind the other. */
  lemma ChannelLocksBack(t: Table, join: BoolExp, trans: BoolExp, recv: BoolExp, rest: string)
    requires Sound(t) && (join.True? || Whole(join)) && (trans.True? || Whole(trans)) && (recv.True? || Whole(recv))
    requires Readable(t, join) && Readable(t, trans) && Readable(t, recv)
    ensures var s3 := PutChannelLock(t, recv) + rest;
      var s2 := PutChannelLock(t, trans) + s3;
      GetChannelLock(t, PutChannelLock(t, join) + s2) == Some(Got(join, s2, t))
      && GetChannelLock(t, s2) == Some(Got(trans, s3, t))
      && GetChannelLock(t, s3) == Some(Got(recv, rest, t))
  {
    hide GetChannelLock, PutChannelLock, Readable, Whole, Sound;
    var s3 := PutChannelLock(t, recv) + rest;
    ChannelLockBack(t, join, PutChannelLock(t, trans) + s3);
    ChannelLockBack(t, trans, s3);
    ChannelLockBack(t, recv, rest);
  }
}
