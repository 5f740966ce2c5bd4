/** Which lock a text denotes: a printer of locks, and the parser as its inverse. */
module LockPrinter {
  import opened CString
  import opened Wrappers
  import opened FlatText
  import opened AttrTable
  import opened LockTree
  import opened LockParser

  /** How a lock is written: with blanks in front of every token, and with parentheses around every
      pair or only where they are needed.  `&` binds closer than `|`, and both lean to the right. */
  datatype Style = Style(gap: string, loose: bool)

  predicate Blank(s: string) {
    forall i :: 0 <= i < |s| ==> IsSpace(s[i])
  }

  /** The precedence a place asks for: 0 for anything, 1 for what may stand beside `&`, 2 for what
      may stand on its left and under `!`. */
  function Level(b: BoolExp): nat {
    if b.Pair? then (if b.op == Or then 0 else 1) else 2
  }

  /** The name by which a test calls its attribute, or its number if it has none. */
  function TestName(t: Table, n: int): string {
    if n in t.names then t.names[n] else Print(n)
  }

  /** Not, the lock of, carrying, being, and having the same owner as. */
  function Sign(op: PrefixOp): (c: char)
    ensures c == PrefixToken(op)
  {
    match op
    case Not => '!'
    case Indir => '@'
    case Carry => '+'
    case Is => '='
    case Owner => '$'
  }

  /** An object is written by its number, a test by the name of its attribute and a key. */
  function Word(t: Table, b: BoolExp): string {
    match b
    case Const(n) => "#" + Print(n)
    case Atr(n, k) => TestName(t, n) + ":" + k
    case Eval(n, k) => TestName(t, n) + "/" + k
    case _ => ""
  }

  /** The lock at a place that asks for precedence `lvl`. */
  function Show(t: Table, st: Style, lvl: nat, b: BoolExp): string
    decreases b, 1
  {
    if b.Pair? && (st.loose || Level(b) < lvl) then st.gap + "(" + Bare(t, st, b) + st.gap + ")" else Bare(t, st, b)
  }

  /** The lock without parentheses around it. */
  function Bare(t: Table, st: Style, b: BoolExp): string
    decreases b, 0
  {
    match b
    case Pair(And, l, r) => Show(t, st, 2, l) + st.gap + "&" + Show(t, st, 1, r)
    case Pair(Or, l, r) => Show(t, st, 1, l) + st.gap + "|" + Show(t, st, 0, r)
    case Prefix(op, s) => st.gap + [Sign(op)] + Show(t, st, 2, s)
    case _ => st.gap + Word(t, b)
  }

  // ---------------------------------------------------------------------
  // Which locks can be written down
  // ---------------------------------------------------------------------

  /** No character that ends an object. */
  predicate InWord(s: string) {
    forall i :: 0 <= i < |s| ==> !EndsObject(s[i])
  }

  /** The parser finds the object by its number. */
  predicate Found(cx: Context, n: int) {
    n >= 0 && if cx.internal then n in cx.objects else cx.Match("#" + Print(n)) == n
  }

  /** The attribute has a name without a slash that does not end the test early, or God calls it by
      its number; and the key does not end the test early. */
  predicate Testable(cx: Context, n: int, key: string) {
    && (if n in cx.table.names then '/' !in cx.table.names[n] && InWord(cx.table.names[n])
        else cx.god && n >= 0 && Key(Print(n)) !in cx.table.numbers)
    && InWord(key) && (key != [] ==> !IsSpace(key[|key| - 1]))
  }

  /** What may stand under a sign: anything under `!`, an object under `@` and `$`, an object or a
      plain attribute test under `+` and `=`. */
  predicate MayStand(op: PrefixOp, b: BoolExp) {
    if op == Not then true else if op == Indir || op == Owner then b.Const? else b.Const? || b.Atr?
  }

  predicate Showable(cx: Context, b: BoolExp) {
    match b
    case True => false
    case Pair(_, l, r) => Showable(cx, l) && Showable(cx, r)
    case Prefix(op, s) => Showable(cx, s) && MayStand(op, s)
    case Const(n) => Found(cx, n)
    case Atr(n, k) => Testable(cx, n, k)
    case Eval(n, k) => Testable(cx, n, k)
  }

  // ---------------------------------------------------------------------
  // Words
  // ---------------------------------------------------------------------

  lemma {:induction false} SkipBlank(g: string, s: string)
    requires Blank(g)
    ensures SkipSpace(g + s) == SkipSpace(s)
  {
    if g == [] {
      assert g + s == s;
    } else {
      assert (g + s)[1..] == g[1..] + s;
      SkipBlank(g[1..], s);
    }
  }

  lemma SkipTwice(s: string)
    ensures SkipSpace(SkipSpace(s)) == SkipSpace(s)
  {}

  /** What may follow a word: blanks, and then the end or something that ends an object. */
  predicate Follows(rest: string) {
    var v := SkipSpace(rest);
    v == [] || EndsObject(v[0])
  }

  lemma {:induction false} SpanOfBlanks(rest: string)
    requires Follows(rest)
    ensures var k := ObjectSpan(rest); rest[k..] == SkipSpace(rest) && Blank(rest[..k])
  {
    if rest != [] && IsSpace(rest[0]) {
      SpanOfBlanks(rest[1..]);
      var k := ObjectSpan(rest);
      assert rest[k..] == rest[1..][k - 1..] && rest[..k] == [rest[0]] + rest[1..][..k - 1];
    }
  }

  lemma {:induction false} SpanOfWord(s: string, rest: string)
    requires InWord(s)
    ensures ObjectSpan(s + rest) == |s| + ObjectSpan(rest)
  {
    if s == [] {
      assert s + rest == rest;
    } else {
      assert (s + rest)[1..] == s[1..] + rest;
      SpanOfWord(s[1..], rest);
    }
  }

  lemma {:induction false} TrimBlanks(s: string, g: string)
    requires Blank(g) && (s != [] ==> !IsSpace(s[|s| - 1]))
    ensures TrimEnd(s + g) == s
  {
    if g == [] {
      assert s + g == s;
    } else {
      assert (s + g)[..|s + g| - 1] == s + g[..|g| - 1];
      TrimBlanks(s, g[..|g| - 1]);
    }
  }

  /** A word and what follows it: the parser takes the word and the blanks behind it. */
  lemma WordTaken(s: string, rest: string)
    requires InWord(s) && Follows(rest) && (s != [] ==> !IsSpace(s[|s| - 1]))
    ensures var k := ObjectSpan(s + rest); TrimEnd((s + rest)[..k]) == s && (s + rest)[k..] == SkipSpace(rest)
  {
    hide ObjectSpan, TrimEnd, SkipSpace, Follows, InWord, Blank;
    var g := ObjectSpan(rest);
    SpanOfWord(s, rest);
    SpanOfBlanks(rest);
    assert (s + rest)[..|s| + g] == s + rest[..g] && (s + rest)[|s| + g..] == rest[g..];
    TrimBlanks(s, rest[..g]);
  }

  lemma {:induction false} NoTest(s: string)
    requires ':' !in s && '/' !in s
    ensures TestSpan(s) == |s|
  {
    if s != [] { NoTest(s[1..]); }
  }

  lemma {:induction false} TestAt(name: string, c: char, key: string)
    requires ':' !in name && '/' !in name && (c == ':' || c == '/')
    ensures TestSpan(name + [c] + key) == |name|
  {
    if name != [] {
      assert (name + [c] + key)[1..] == name[1..] + [c] + key;
      TestAt(name[1..], c, key);
    }
  }

  lemma ObjectWord(cx: Context, n: int)
    requires Found(cx, n)
    ensures var s := Word(cx.table, Const(n));
      InWord(s) && !IsSpace(s[|s| - 1]) && TestAtr(cx, s) == None && ObjectOf(cx, s) == Some(Const(n))
  {
    var d := Decimal(n);
    DecimalDigits(n);
    ReadDecimal(n, []);
    assert d + [] == d;
    var s := "#" + d;
    assert s[1..] == d && s[0] == '#';
    assert forall i :: 0 < i < |s| ==> s[i] == d[i - 1];
    NoTest(s);
    assert Atoi(d) == n;
  }

  lemma NameFound(cx: Context, n: int, key: string)
    requires Testable(cx, n, key) && AttrTable.Sound(cx.table)
    ensures var name := TestName(cx.table, n);
      && name != [] && InWord(name) && ':' !in name && '/' !in name
      && (if Key(name) in cx.table.numbers then cx.table.numbers[Key(name)] == n else cx.god && AllDigits(name) && Atoi(name) == n)
  {
    hide Key;
    if n !in cx.table.names {
      var d := Decimal(n);
      DecimalDigits(n);
      ReadDecimal(n, []);
      assert d + [] == d;
    }
  }

  lemma TestWord(cx: Context, b: BoolExp)
    requires (b.Atr? || b.Eval?) && Testable(cx, b.attr, b.key) && AttrTable.Sound(cx.table)
    ensures var s := Word(cx.table, b); InWord(s) && !IsSpace(s[|s| - 1]) && TestAtr(cx, s) == Some(b)
  {
    hide Key, AllDigits, Atoi, AttrTable.Sound;
    NameFound(cx, b.attr, b.key);
    var name, c := TestName(cx.table, b.attr), if b.Atr? then ':' else '/';
    var s := name + [c] + b.key;
    assert s == Word(cx.table, b);
    TestAt(name, c, b.key);
    assert s[..|name|] == name && s[|name|] == c && s[|name| + 1..] == b.key;
    forall i | 0 <= i < |s| ensures !EndsObject(s[i]) {
      if i < |name| { assert s[i] == name[i]; } else if i > |name| { assert s[i] == b.key[i - |name| - 1]; }
    }
    if b.key != [] { assert s[|s| - 1] == b.key[|b.key| - 1]; }
  }

  /** A word denotes its object or its test. */
  lemma WordBack(cx: Context, b: BoolExp, rest: string)
    requires (b.Const? || b.Atr? || b.Eval?) && Showable(cx, b) && AttrTable.Sound(cx.table) && Follows(rest)
    ensures ParseName(cx, Word(cx.table, b) + rest) == Some((b, SkipSpace(rest)))
  {
    hide Word, TestAtr, ObjectOf, ObjectSpan, TrimEnd, Found, Testable, InWord, AttrTable.Sound;
    if b.Const? { ObjectWord(cx, b.thing); } else { TestWord(cx, b); }
    WordTaken(Word(cx.table, b), rest);
  }

  // ---------------------------------------------------------------------
  // Expressions
  // ---------------------------------------------------------------------

  /** The parser for a place that asks for precedence `lvl`. */
  function ParseAt(cx: Context, lvl: nat, s: string): Parsed {
    if lvl == 0 then ParseE(cx, s) else if lvl == 1 then ParseT(cx, s) else ParseF(cx, s)
  }

  /** What may follow the expression at such a place. */
  predicate Stops(lvl: nat, rest: string) {
    var v := SkipSpace(rest);
    v == [] || v[0] == ')' || (lvl >= 1 && v[0] == '|') || (lvl >= 2 && v[0] == '&')
  }

  /** The text denotes `b`, and `rest` is left of it but for blanks. */
  predicate Denotes(cx: Context, lvl: nat, s: string, b: BoolExp, rest: string) {
    var p := ParseAt(cx, lvl, s);
    p.Some? && p.value.0 == b && SkipSpace(p.value.1) == SkipSpace(rest)
  }

  lemma ClimbOne(cx: Context, lvl: nat, s: string, b: BoolExp, rest: string)
    requires 0 < lvl <= 2 && Denotes(cx, lvl, s, b, rest) && Stops(lvl - 1, rest)
    ensures Denotes(cx, lvl - 1, s, b, rest)
  {
    SkipTwice(rest);
    if lvl == 2 {
      hide ParseF, ParseE, SkipSpace;
      assert ParseT(cx, s) == Some((b, SkipSpace(rest)));
    } else {
      hide ParseT, SkipSpace;
      assert ParseE(cx, s) == Some((b, SkipSpace(rest)));
    }
  }

  /** What is read where closer binding is asked for is read the same where less is. */
  lemma {:induction false} Climb(cx: Context, lvl: nat, lvl': nat, s: string, b: BoolExp, rest: string)
    requires lvl' <= lvl <= 2 && Denotes(cx, lvl, s, b, rest) && Stops(lvl', rest)
    ensures Denotes(cx, lvl', s, b, rest)
    decreases lvl
  {
    hide Denotes;
    if lvl' < lvl {
      ClimbOne(cx, lvl, s, b, rest);
      Climb(cx, lvl - 1, lvl', s, b, rest);
    }
  }

  /** A word starts with nothing that starts something else. */
  lemma FirstOfWord(cx: Context, b: BoolExp, rest: string)
    requires (b.Const? || b.Atr? || b.Eval?) && Showable(cx, b) && AttrTable.Sound(cx.table)
    ensures var s := Word(cx.table, b) + rest; s != [] && !IsSpace(s[0]) && s[0] != '(' && PrefixOf(s[0]).None?
  {
    if b.Const? {
      assert (Word(cx.table, b) + rest)[0] == '#';
    } else {
      var name := TestName(cx.table, b.attr);
      if b.attr in cx.table.names { assert NameShape(name); } else { assert IsDigit(name[0]); }
      assert (Word(cx.table, b) + rest)[0] == name[0];
    }
  }

  lemma LeafBack(cx: Context, g: string, b: BoolExp, rest: string)
    requires (b.Const? || b.Atr? || b.Eval?) && Showable(cx, b) && AttrTable.Sound(cx.table) && Follows(rest) && Blank(g)
    ensures ParseL(cx, g + (Word(cx.table, b) + rest)) == Some((b, SkipSpace(rest)))
    ensures ParseF(cx, g + (Word(cx.table, b) + rest)) == Some((b, SkipSpace(rest)))
  {
    hide ParseName, Word, AttrTable.Sound, Showable;
    SkipBlank(g, Word(cx.table, b) + rest);
    FirstOfWord(cx, b, rest);
    WordBack(cx, b, rest);
  }

  /** Two expressions and a token between them. */
  lemma PairBack(cx: Context, op: PairOp, g: string, sl: string, sr: string, l: BoolExp, r: BoolExp, rest: string)
    requires Blank(g) && l != True && r != True
    requires var lvl := if op == And then 2 else 1; Denotes(cx, lvl, sl + (g + [PairToken(op)] + (sr + rest)), l, g + [PairToken(op)] + (sr + rest))
    requires Denotes(cx, if op == And then 1 else 0, sr + rest, r, rest)
    ensures Denotes(cx, if op == And then 1 else 0, sl + (g + [PairToken(op)] + (sr + rest)), Pair(op, l, r), rest)
  {
    var v := [PairToken(op)] + (sr + rest);
    assert g + [PairToken(op)] + (sr + rest) == g + v;
    SkipBlank(g, v);
    assert SkipSpace(v) == v && v[1..] == sr + rest;
    var s := sl + (g + v);
    hide ParseF, SkipSpace;
    if op == And {
      hide ParseE;
      assert ParseT(cx, s).Some? && ParseT(cx, s).value.0 == Pair(op, l, r);
    } else {
      hide ParseT;
      assert ParseE(cx, s).Some? && ParseE(cx, s).value.0 == Pair(op, l, r);
    }
  }

  lemma PrefixBack(cx: Context, op: PrefixOp, g: string, u: string, b: BoolExp, rest: string)
    requires Blank(g) && Suits(op, b)
    requires if op == Not then Denotes(cx, 2, u, b, rest) else ParseL(cx, u) == Some((b, SkipSpace(rest)))
    ensures Denotes(cx, 2, g + ([PrefixToken(op)] + u), Prefix(op, b), rest)
  {
    var v := [PrefixToken(op)] + u;
    SkipBlank(g, v);
    SkipTwice(rest);
    assert SkipSpace(v) == v && v[1..] == u && PrefixOf(v[0]) == Some(op);
    hide ParseL, SkipSpace, ParseE;
  }

  lemma ParenBack(cx: Context, g: string, u: string, b: BoolExp, rest: string)
    requires Blank(g) && Denotes(cx, 0, u, b, g + (")" + rest))
    ensures Denotes(cx, 2, g + ("(" + u), b, rest)
  {
    var v := "(" + u;
    SkipBlank(g, v);
    SkipBlank(g, ")" + rest);
    assert SkipSpace(v) == v && v[1..] == u && SkipSpace(")" + rest) == ")" + rest && (")" + rest)[1..] == rest;
    hide ParseE, SkipSpace, ParseName;
    assert ParseL(cx, v) == Some((b, rest));
  }

  lemma StopsAfter(g: string, c: char, rest: string, lvl: nat)
    requires Blank(g) && (c == ')' || (c == '|' && lvl >= 1) || (c == '&' && lvl >= 2))
    ensures Stops(lvl, g + ([c] + rest)) && Follows(g + ([c] + rest))
  {
    SkipBlank(g, [c] + rest);
  }

  /** The text of a lock at any place, in any style, denotes the lock. */
  lemma {:induction false} ShowBack(cx: Context, st: Style, lvl: nat, b: BoolExp, rest: string)
    requires Showable(cx, b) && AttrTable.Sound(cx.table) && Blank(st.gap) && lvl <= 2 && Stops(lvl, rest)
    ensures Denotes(cx, lvl, Show(cx.table, st, lvl, b) + rest, b, rest)
    decreases b, 1
  {
    hide Denotes, Bare, AttrTable.Sound, Showable;
    if b.Pair? && (st.loose || Level(b) < lvl) {
      var after := st.gap + (")" + rest);
      StopsAfter(st.gap, ')', rest, 0);
      BareBack(cx, st, b, after);
      Climb(cx, Level(b), 0, Bare(cx.table, st, b) + after, b, after);
      ParenBack(cx, st.gap, Bare(cx.table, st, b) + after, b, rest);
      Grouped(st.gap, Bare(cx.table, st, b), rest);
      Climb(cx, 2, lvl, Show(cx.table, st, lvl, b) + rest, b, rest);
    } else {
      StopsMore(lvl, Level(b), rest);
      BareBack(cx, st, b, rest);
      Climb(cx, Level(b), lvl, Bare(cx.table, st, b) + rest, b, rest);
    }
  }

  lemma Grouped(g: string, u: string, rest: string)
    ensures g + "(" + u + g + ")" + rest == g + ("(" + (u + (g + (")" + rest))))
  {
  }

  lemma StopsMore(lvl: nat, lvl': nat, rest: string)
    requires lvl <= lvl' && Stops(lvl, rest)
    ensures Stops(lvl', rest)
  {
  }

  lemma {:induction false} BareBack(cx: Context, st: Style, b: BoolExp, rest: string)
    requires Showable(cx, b) && AttrTable.Sound(cx.table) && Blank(st.gap) && Stops(Level(b), rest)
    ensures Denotes(cx, Level(b), Bare(cx.table, st, b) + rest, b, rest)
    decreases b, 0
  {
    hide Denotes, Show, AttrTable.Sound;
    match b {
      case Pair(op, l, r) =>
        var right := if op == And then 1 else 0;
        var sl, sr := Show(cx.table, st, right + 1, l), Show(cx.table, st, right, r);
        var after := st.gap + [PairToken(op)] + (sr + rest);
        assert after == st.gap + ([PairToken(op)] + (sr + rest));
        StopsAfter(st.gap, PairToken(op), sr + rest, right + 1);
        ShowBack(cx, st, right + 1, l, after);
        ShowBack(cx, st, right, r, rest);
        PairBack(cx, op, st.gap, sl, sr, l, r, rest);
        assert Bare(cx.table, st, b) + rest == sl + after;
      case Prefix(op, s) => PrefixShown(cx, st, op, s, rest);
      case True =>
      case _ =>
        FollowsStop(2, rest);
        LeafBack(cx, st.gap, b, rest);
        LeafDenotes(cx, st, b, rest);
    }
  }

  lemma FollowsStop(lvl: nat, rest: string)
    requires Stops(lvl, rest)
    ensures Follows(rest)
  {
  }

  lemma LeafDenotes(cx: Context, st: Style, b: BoolExp, rest: string)
    requires (b.Const? || b.Atr? || b.Eval?) && ParseF(cx, st.gap + (Word(cx.table, b) + rest)) == Some((b, SkipSpace(rest)))
    ensures Denotes(cx, 2, Bare(cx.table, st, b) + rest, b, rest)
  {
    hide ParseF, Word, SkipSpace;
    SkipTwice(rest);
    assert Bare(cx.table, st, b) + rest == st.gap + (Word(cx.table, b) + rest);
  }

  lemma LeafShown(t: Table, st: Style, lvl: nat, b: BoolExp)
    requires b.Const? || b.Atr? || b.Eval?
    ensures Show(t, st, lvl, b) == st.gap + Word(t, b)
  {
  }

  lemma PrefixText(t: Table, st: Style, op: PrefixOp, s: BoolExp, rest: string)
    ensures Bare(t, st, Prefix(op, s)) + rest == st.gap + ([PrefixToken(op)] + (Show(t, st, 2, s) + rest))
  {
    hide Show;
    assert Sign(op) == PrefixToken(op);
    hide Sign, PrefixToken;
  }

  lemma Under(cx: Context, op: PrefixOp, s: BoolExp)
    requires Showable(cx, Prefix(op, s))
    ensures Showable(cx, s) && Suits(op, s) && (op != Not ==> s.Const? || s.Atr?)
  {
  }

  lemma {:induction false} PrefixShown(cx: Context, st: Style, op: PrefixOp, s: BoolExp, rest: string)
    requires Showable(cx, Prefix(op, s)) && AttrTable.Sound(cx.table) && Blank(st.gap) && Stops(2, rest)
    ensures Denotes(cx, 2, Bare(cx.table, st, Prefix(op, s)) + rest, Prefix(op, s), rest)
    decreases Prefix(op, s), 0, 0
  {
    hide Denotes, AttrTable.Sound, Word, Show, Bare, Showable, Suits, ParseL, ParseF, SkipSpace, PrefixToken;
    Under(cx, op, s);
    var u := Show(cx.table, st, 2, s) + rest;
    if op == Not {
      ShowBack(cx, st, 2, s, rest);
    } else {
      FollowsStop(2, rest);
      LeafBack(cx, st.gap, s, rest);
      LeafShown(cx.table, st, 2, s);
      assert u == st.gap + (Word(cx.table, s) + rest);
    }
    PrefixBack(cx, op, st.gap, u, s, rest);
    PrefixText(cx.table, st, op, s, rest);
  }

  // ---------------------------------------------------------------------
  // The round trip
  // ---------------------------------------------------------------------

  lemma ShowsSomething(cx: Context, st: Style, b: BoolExp)
    requires Showable(cx, b) && AttrTable.Sound(cx.table)
    ensures Show(cx.table, st, 0, b) != ""
  {
    hide AttrTable.Sound;
    if b.Const? || b.Atr? || b.Eval? { FirstOfWord(cx, b, ""); }
  }

  /** Every lock that can be written down is what its text denotes, with blanks anywhere between
      the tokens, and with all parentheses or with only those that precedence and the lean to
      the right do not make redundant. */
  lemma ParseShow(cx: Context, st: Style, b: BoolExp)
    requires Showable(cx, b) && AttrTable.Sound(cx.table) && Blank(st.gap)
    ensures Parse(cx, Show(cx.table, st, 0, b)) == b
  {
    hide Show, Showable, ParseE, AttrTable.Sound;
    ShowsSomething(cx, st, b);
    ShowBack(cx, st, 0, b, "");
    assert Show(cx.table, st, 0, b) + "" == Show(cx.table, st, 0, b);
  }

  /** So different locks never share a text. */
  lemma ShowInjective(cx: Context, st: Style, st': Style, b: BoolExp, b': BoolExp)
    requires Showable(cx, b) && Showable(cx, b') && AttrTable.Sound(cx.table) && Blank(st.gap) && Blank(st'.gap)
    requires Show(cx.table, st, 0, b) == Show(cx.table, st', 0, b')
    ensures b == b'
  {
    hide Show, Showable, AttrTable.Sound;
    ParseShow(cx, st, b);
    ParseShow(cx, st', b');
  }

  /** A closing parenthesis too many, and all text behind it, is not looked at. */
  lemma ExtraIgnored(cx: Context, st: Style, b: BoolExp, more: string)
    requires Showable(cx, b) && AttrTable.Sound(cx.table) && Blank(st.gap)
    ensures Parse(cx, Show(cx.table, st, 0, b) + (st.gap + (")" + more))) == b
  {
    hide Show, Showable, ParseE, AttrTable.Sound;
    ShowsSomething(cx, st, b);
    StopsAfter(st.gap, ')', more, 0);
    ShowBack(cx, st, 0, b, st.gap + (")" + more));
  }

  /** One that is missing makes the whole text no lock, which lets everybody in. */
  lemma MissingParenthesis(cx: Context, st: Style, b: BoolExp)
    requires Showable(cx, b) && AttrTable.Sound(cx.table) && Blank(st.gap)
    ensures Parse(cx, st.gap + ("(" + Show(cx.table, st, 0, b))) == True
  {
    hide Show, Showable, AttrTable.Sound;
    var u := Show(cx.table, st, 0, b);
    ShowBack(cx, st, 0, b, "");
    assert u + "" == u;
    SkipBlank(st.gap, "(" + u);
    assert ("(" + u)[1..] == u && SkipSpace("(" + u) == "(" + u;
    hide ParseE, SkipSpace, ParseName;
    Unclosed(cx, st.gap + ("(" + u), u);
  }

  lemma Unclosed(cx: Context, s: string, u: string)
    requires SkipSpace(s) == "(" + u && ParseE(cx, u).Some? && SkipSpace(ParseE(cx, u).value.1) == []
    ensures Parse(cx, s) == True
  {
    var v := "(" + u;
    SkipTwice(s);
    assert v[0] == '(' && v[1..] == u && SkipSpace(v) == v;
    hide SkipSpace, ParseName;
    assert ParseL(cx, v) == None;
    assert ParseF(cx, s) == None;
    assert ParseT(cx, s) == None;
  }
}
