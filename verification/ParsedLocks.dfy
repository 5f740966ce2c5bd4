/** What every lock that the parser builds is like: it can be evaluated, and written to a file
    and read back. */
module ParsedLocks {
  import opened CString
  import opened Wrappers
  import opened FlatText
  import opened AttrTable
  import opened LockTree
  import opened LockRoundTrip
  import opened LockParser

  /** Objects have numbers, attributes too, and keys hold nothing that ends a name. */
  predicate Clean(b: BoolExp, newline: bool) {
    match b
    case True => false
    case Pair(_, l, r) => Clean(l, newline) && Clean(r, newline)
    case Prefix(_, s) => Clean(s, newline)
    case Const(n) => n >= 0
    case Atr(n, k) => n >= 0 && forall i :: 0 <= i < |k| ==> !EndsObject(k[i]) && (newline || k[i] != '\n')
    case Eval(n, k) => n >= 0 && forall i :: 0 <= i < |k| ==> !EndsObject(k[i]) && (newline || k[i] != '\n')
  }

  ghost predicate Good(p: Parsed, newline: bool) {
    p.Some? ==> Typed(p.value.0) && Clean(p.value.0, newline) && (!newline ==> '\n' !in p.value.1)
  }

  lemma {:induction false} SkipKeeps(s: string)
    ensures '\n' in SkipSpace(s) ==> '\n' in s
  {
    if s != [] && IsSpace(s[0]) { SkipKeeps(s[1..]); }
  }

  lemma {:induction false} DigitsPositive(s: string, acc: int)
    requires acc >= 0
    ensures ReadDigits(s, acc).0 >= 0
  {
    if s != [] && IsDigit(s[0]) { DigitsPositive(s[1..], acc * 10 + DigitValue(s[0])); }
  }

  /** Nothing in the text ends an object's name, nor perhaps a line. */
  predicate Plain(s: string, newline: bool) {
    forall i :: 0 <= i < |s| ==> !EndsObject(s[i]) && (newline || s[i] != '\n')
  }

  lemma TestGood(cx: Context, name: string, newline: bool)
    requires cx.Proper() && Plain(name, newline)
    ensures var t := TestAtr(cx, name); t.Some? ==> Typed(t.value) && Clean(t.value, newline)
  {
    var j := TestSpan(name);
    if j < |name| && AllDigits(name[..j]) {
      assert Atoi(name[..j]) == ReadDigits(name[..j], 0).0;
      DigitsPositive(name[..j], 0);
    }
  }

  lemma NameGood(cx: Context, s: string, newline: bool)
    requires cx.Proper() && (!newline ==> '\n' !in s)
    ensures Good(ParseName(cx, s), newline)
  {
    var k := ObjectSpan(s);
    var name := TrimEnd(s[..k]);
    assert Plain(name, newline) by {
      assert forall i :: 0 <= i < |name| ==> name[i] == s[i];
    }
    TestGood(cx, name, newline);
    hide TestAtr, TrimEnd, ObjectSpan;
  }

  lemma {:induction false} GoodL(cx: Context, s: string, newline: bool)
    requires cx.Proper() && (!newline ==> '\n' !in s)
    ensures Good(ParseL(cx, s), newline)
    decreases |s|, 0
  {
    SkipKeeps(s);
    var u := SkipSpace(s);
    if u != [] && u[0] == '(' {
      GoodE(cx, u[1..], newline);
      var p := ParseE(cx, u[1..]);
      if p.Some? { SkipKeeps(p.value.1); }
    } else {
      NameGood(cx, u, newline);
    }
  }

  lemma {:induction false} GoodF(cx: Context, s: string, newline: bool)
    requires cx.Proper() && (!newline ==> '\n' !in s)
    ensures Good(ParseF(cx, s), newline)
    decreases |s|, 1
  {
    SkipKeeps(s);
    var u := SkipSpace(s);
    if u != [] && PrefixOf(u[0]).Some? {
      if PrefixOf(u[0]) == Some(Not) { GoodF(cx, u[1..], newline); } else { GoodL(cx, u[1..], newline); }
    } else {
      GoodL(cx, u, newline);
    }
  }

  lemma {:induction false} GoodT(cx: Context, s: string, newline: bool)
    requires cx.Proper() && (!newline ==> '\n' !in s)
    ensures Good(ParseT(cx, s), newline)
    decreases |s|, 2
  {
    GoodF(cx, s, newline);
    var p := ParseF(cx, s);
    if p.Some? {
      SkipKeeps(p.value.1);
      var v := SkipSpace(p.value.1);
      if v != [] && v[0] == '&' { GoodT(cx, v[1..], newline); }
    }
  }

  lemma {:induction false} GoodE(cx: Context, s: string, newline: bool)
    requires cx.Proper() && (!newline ==> '\n' !in s)
    ensures Good(ParseE(cx, s), newline)
    decreases |s|, 3
  {
    GoodT(cx, s, newline);
    var p := ParseT(cx, s);
    if p.Some? {
      SkipKeeps(p.value.1);
      var v := SkipSpace(p.value.1);
      if v != [] && v[0] == '|' { GoodE(cx, v[1..], newline); }
    }
  }

  /** Every lock the parser makes can be evaluated and written out: it is typed and whole. */
  lemma ParseTyped(cx: Context, s: string)
    requires cx.Proper() && Parse(cx, s) != True
    ensures Typed(Parse(cx, s)) && Whole(Parse(cx, s))
  {
    GoodE(cx, s, true);
    CleanWhole(Parse(cx, s), true);
  }

  lemma {:induction false} CleanWhole(b: BoolExp, newline: bool)
    requires Clean(b, newline)
    ensures Whole(b)
  {
    match b {
      case Pair(_, l, r) => CleanWhole(l, newline); CleanWhole(r, newline);
      case Prefix(_, s) => CleanWhole(s, newline);
      case _ =>
    }
  }

  // ---------------------------------------------------------------------
  // Which parsed locks survive a dump
  // ---------------------------------------------------------------------

  /** Every attribute tested can be named on the file. */
  predicate Nameable(t: Table, b: BoolExp) {
    match b
    case True => true
    case Pair(_, l, r) => Nameable(t, l) && Nameable(t, r)
    case Prefix(_, s) => Nameable(t, s)
    case Const(_) => true
    case Atr(n, _) => NameReadable(t, n)
    case Eval(n, _) => NameReadable(t, n)
  }

  lemma {:induction false} CleanReadable(t: Table, b: BoolExp)
    requires Clean(b, false)
    ensures Readable(t, b) <==> Nameable(t, b)
  {
    match b {
      case Pair(_, l, r) => CleanReadable(t, l); CleanReadable(t, r);
      case Prefix(_, s) => CleanReadable(t, s);
      case _ =>
    }
  }

  /** A lock typed on one line comes back from the flat file exactly when every attribute it
      tests has a name that starts with a letter and holds no slash. */
  lemma ParsedSurvives(cx: Context, s: string)
    requires cx.Proper() && '\n' !in s
    ensures Readable(cx.table, Parse(cx, s)) <==> Nameable(cx.table, Parse(cx, s))
  {
    GoodE(cx, s, false);
    if Parse(cx, s) != True { CleanReadable(cx.table, Parse(cx, s)); }
  }

  /** Only God, who may use numbers, can test an attribute with a slash in its name: a name in
      a lock ends at the slash. */
  lemma SlashNotTyped(cx: Context, s: string)
    requires cx.Proper() && !cx.god && TestAtr(cx, s).Some?
    ensures var n := TestAtr(cx, s).value.attr; n in cx.table.names && '/' !in cx.table.names[n]
  {
    var t := cx.table;
    var name := s[..TestSpan(s)];
    var n := t.numbers[Key(name)];
    assert Finds(t, Key(name), n);
    KeySlash(name);
    KeySlash(t.names[n]);
    hide Key;
  }
}
