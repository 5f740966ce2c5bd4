/** Locks on the flat file (src/db_rw.c): what the writer prints for a tree and what the
    reader makes of it.  A name is read up to `:` or `/`, a key up to a newline or one of
    `)`, `|`, `&`; eval locks and tests of nameless attributes carry a newline of their own. */
module LockText {
  import opened CString
  import opened Wrappers
  import opened FlatText
  import opened AttrTable
  import opened LockTree

  // ---------------------------------------------------------------------
  // Writing
  // ---------------------------------------------------------------------

  function AttrText(t: Table, n: int): string {
    match NameOf(t, n)
    case Some(s) => s
    case None => Print(n)
  }

  /** The newline some tests bring along. */
  function Trailing(t: Table, b: BoolExp): string {
    if b.Eval? || (b.Atr? && NameOf(t, b.attr).None?) then "\n" else ""
  }

  /** putbool_subexp */
  function PutSub(t: Table, b: BoolExp): string
    requires Whole(b)
  {
    match b
    case Pair(op, l, r) => "(" + PutSub(t, l) + [PairToken(op)] + PutSub(t, r) + ")"
    case Prefix(op, sub) => "(" + [PrefixToken(op)] + PutSub(t, sub) + ")"
    case Const(n) => Print(n)
    case Atr(n, k) => AttrText(t, n) + ":" + k + Trailing(t, b)
    case Eval(n, k) => AttrText(t, n) + "/" + k + Trailing(t, b)
  }

  /** putboolexp */
  function Put(t: Table, b: BoolExp): string
    requires b.True? || Whole(b)
  {
    (if b.True? then "" else PutSub(t, b)) + "\n"
  }

  // ---------------------------------------------------------------------
  // Reading
  // ---------------------------------------------------------------------

  /** A tree, the text behind it, and the attribute names by then. */
  datatype Got = Got(tree: BoolExp, rest: string, table: Table)

  predicate EndsName(c: char) {
    c == '\n' || c == ':' || c == '/'
  }

  predicate EndsKey(c: char) {
    c == '\n' || c == ')' || c == '|' || c == '&'
  }

  /** How far a name reaches. */
  function NameSpan(s: string): (r: nat)
    ensures r <= |s| && (forall i :: 0 <= i < r ==> !EndsName(s[i])) && (r < |s| ==> EndsName(s[r]))
  {
    if s == [] || EndsName(s[0]) then 0 else 1 + NameSpan(s[1..])
  }

  /** How far a key reaches. */
  function KeySpan(s: string): (r: nat)
    ensures r <= |s| && (forall i :: 0 <= i < r ==> !EndsKey(s[i])) && (r < |s| ==> EndsKey(s[r]))
  {
    if s == [] || EndsKey(s[0]) then 0 else 1 + KeySpan(s[1..])
  }

  /** An object, or an attribute test when `:` or `/` follows. */
  function Leaf(t: Table, n: int, s: string): (r: Option<Got>)
    ensures r.Some? ==> |r.value.rest| <= |s|
  {
    if s != [] && (s[0] == ':' || s[0] == '/') then
      var k := KeySpan(s[1..]);
      if k == |s[1..]| then None
      else Some(Got(if s[0] == '/' then Eval(n, s[1..][..k]) else Atr(n, s[1..][..k]), s[1..][k..], t))
    else Some(Got(Const(n), s, t))
  }

  function Named(t: Table, s: string): (r: Option<Got>)
    ensures r.Some? ==> |r.value.rest| <= |s|
  {
    var k := NameSpan(s);
    if k == |s| then None
    else
      var m := MkAttr(t, s[..k]);
      if m.1 <= 0 then None else Leaf(m.0, m.1, s[k..])
  }

  /** A name in quotes; the node has no type unless a quoted key follows. */
  function QuotedName(t: Table, s: string): (r: Option<Got>)
    ensures r.Some? ==> |r.value.rest| <= |s|
  {
    var n := GetString(s, true);
    if n.1 == [] then Some(Got(True, [], t))
    else
      var m := MkAttr(t, n.0);
      if m.1 <= 0 || !(n.1[0] == ':' || n.1[0] == '/') then None
      else
        var k := GetString(n.1[1..], true);
        Some(Got(if n.1[0] == '/' then Eval(m.1, k.0) else Atr(m.1, k.0), k.1, m.0))
  }

  function SkipNewline(s: string): (r: string)
    ensures |r| <= |s|
  {
    if s != [] && s[0] == '\n' then s[1..] else s
  }

  /** The closing parenthesis, perhaps behind a newline. */
  function Close(b: BoolExp, g: Got): (r: Option<Got>)
    ensures r.Some? ==> |r.value.rest| <= |g.rest|
  {
    var v := SkipNewline(g.rest);
    if v != [] && v[0] == ')' then Some(Got(b, v[1..], g.table)) else None
  }

  /** The obsolete key for nothing: eaten up to the newline. */
  function Dash(t: Table, s: string): (r: Option<Got>)
    ensures r.Some? ==> |r.value.rest| <= |s|
  {
    if s == [] then None else if s[0] == '\n' then Some(Got(True, s, t)) else Dash(t, s[1..])
  }

  /** getboolexp1; `None` is the abort. */
  function Get1(t: Table, s: string): (r: Option<Got>)
    ensures r.Some? ==> |r.value.rest| <= |s|
    decreases |s|, 0
  {
    if s == [] then None
    else if s[0] == '\n' then Some(Got(True, s, t))
    else if s[0] == '(' then
      if |s| > 1 && PrefixOf(s[1]).Some? then
        match Get1(t, s[2..])
        case None => None
        case Some(g) => Close(Prefix(PrefixOf(s[1]).value, g.tree), g)
      else GetPair(t, s[1..])
    else if s[0] == '-' then Dash(t, s[1..])
    else if s[0] == '"' then QuotedName(t, s)
    else if IsDigit(s[0]) then var d := ReadDigits(s, 0); Leaf(t, d.0, d.1)
    else if IsAlpha(s[0]) then Named(t, s)
    else None
  }

  /** Two trees with `&` or `|` between them. */
  function GetPair(t: Table, s: string): (r: Option<Got>)
    ensures r.Some? ==> |r.value.rest| <= |s|
    decreases |s|, 2
  {
    match Get1(t, s)
    case None => None
    case Some(g) => GetRight(g.table, g.tree, g.rest)
  }

  function GetRight(t: Table, left: BoolExp, s: string): (r: Option<Got>)
    ensures r.Some? ==> |r.value.rest| <= |s|
    decreases |s|, 1
  {
    var v := SkipNewline(s);
    if v == [] || PairOf(v[0]).None? then None
    else
      match Get1(t, v[1..])
      case None => None
      case Some(h) => Close(Pair(PairOf(v[0]).value, left, h.tree), h)
  }

  /** getboolexp */
  function Get(t: Table, s: string): (r: Option<Got>)
    ensures r.Some? ==> |r.value.rest| <= |s|
  {
    match Get1(t, s)
    case None => None
    case Some(g) =>
      if g.rest == [] || g.rest[0] != '\n' then None
      else Some(g.(rest := SkipNewline(g.rest[1..])))
  }
}
