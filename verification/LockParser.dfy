/** The lock parser (src/boolexp.c), as functions on what is left of the text.

      E -> T | T '|' E      T -> F | F '&' T
      F -> L | '!' F | '@' L | '=' L | '+' L | '$' L      L -> '(' E ')' | test | object

    A failure anywhere gives the null lock and ends the parse.  Text behind the expression
    is not looked at. */
module LockParser {
  import opened Constants
  import opened CString
  import opened Wrappers
  import opened FlatText
  import opened AttrTable
  import opened LockTree

  /** What a parse depends on: the attribute names, whether the player is God, whether the
      text is a stored lock, and what the matcher and the object table answer. */
  datatype Context = Context(table: Table, god: bool, internal: bool, matcher: string -> int, objects: set<int>) {

    function Match(name: string): int {
      matcher(name)
    }

    /** The table is sound, objects have numbers, and the matcher answers with an object or one
        of its two failures. */
    ghost predicate Proper() {
      && AttrTable.Sound(table)
      && (forall n :: n in objects ==> n >= 0)
      && (forall s :: matcher(s) >= AMBIGUOUS)
    }
  }

  /** A tree, and the text behind it. */
  type Parsed = Option<(BoolExp, string)>

  function SkipSpace(s: string): (r: string)
    ensures |r| <= |s| && (r != [] ==> !IsSpace(r[0]))
  {
    if s != [] && IsSpace(s[0]) then SkipSpace(s[1..]) else s
  }

  function TrimEnd(s: string): (r: string)
    ensures r <= s
  {
    if s != [] && IsSpace(s[|s| - 1]) then TrimEnd(s[..|s| - 1]) else s
  }

  predicate EndsObject(c: char) {
    c == '&' || c == '|' || c == ')'
  }

  /** How far an object or a test reaches. */
  function ObjectSpan(s: string): (r: nat)
    ensures r <= |s| && (forall i :: 0 <= i < r ==> !EndsObject(s[i])) && (r < |s| ==> EndsObject(s[r]))
  {
    if s == [] || EndsObject(s[0]) then 0 else 1 + ObjectSpan(s[1..])
  }

  /** Up to the first `:` or `/`. */
  function TestSpan(s: string): (r: nat)
    ensures r <= |s| && (forall i :: 0 <= i < r ==> s[i] != ':' && s[i] != '/') && (r < |s| ==> s[r] == ':' || s[r] == '/')
  {
    if s == [] || s[0] == ':' || s[0] == '/' then 0 else 1 + TestSpan(s[1..])
  }

  predicate AllDigits(s: string) {
    forall i :: 0 <= i < |s| ==> IsDigit(s[i])
  }

  /** test_atr: an attribute by name, or for God by number, then `:` or `/` and a key. */
  function TestAtr(cx: Context, s: string): Option<BoolExp> {
    var k := TestSpan(s);
    if k == |s| then None
    else
      var name := s[..k];
      var num := if Key(name) in cx.table.numbers then Some(cx.table.numbers[Key(name)])
                 else if cx.god && AllDigits(name) then Some(Atoi(name)) else None;
      match num
      case None => None
      case Some(n) => Some(if s[k] == '/' then Eval(n, s[k + 1..]) else Atr(n, s[k + 1..]))
  }

  /** The object a name stands for. */
  function ObjectOf(cx: Context, s: string): Option<BoolExp> {
    if cx.internal then
      if s == [] || s[0] != '#' then None
      else if Atoi(s[1..]) in cx.objects then Some(Const(Atoi(s[1..]))) else None
    else
      var n := cx.Match(s);
      if n == NOTHING || n == AMBIGUOUS then None else Some(Const(n))
  }

  function ParseName(cx: Context, s: string): (r: Parsed)
    ensures r.Some? ==> |r.value.1| <= |s| && r.value.0 != True
  {
    var k := ObjectSpan(s);
    var name := TrimEnd(s[..k]);
    match TestAtr(cx, name)
    case Some(b) => Some((b, s[k..]))
    case None =>
      match ObjectOf(cx, name)
      case Some(b) => Some((b, s[k..]))
      case None => None
  }

  function ParseL(cx: Context, s: string): (r: Parsed)
    ensures r.Some? ==> |r.value.1| <= |s| && r.value.0 != True
    decreases |s|, 0
  {
    var u := SkipSpace(s);
    if u != [] && u[0] == '(' then
      match ParseE(cx, u[1..])
      case None => None
      case Some(p) =>
        var v := SkipSpace(p.1);
        if v != [] && v[0] == ')' then Some((p.0, v[1..])) else None
    else ParseName(cx, u)
  }

  /** What may stand under a prefix. */
  predicate Suits(op: PrefixOp, b: BoolExp) {
    match op
    case Not => true
    case Indir => b.Const?
    case Owner => b.Const?
    case Is => b.Const? || b.Atr?
    case Carry => b.Const? || b.Atr?
  }

  function ParseF(cx: Context, s: string): (r: Parsed)
    ensures r.Some? ==> |r.value.1| <= |s| && r.value.0 != True
    decreases |s|, 1
  {
    var u := SkipSpace(s);
    if u != [] && PrefixOf(u[0]).Some? then
      var op := PrefixOf(u[0]).value;
      match if op == Not then ParseF(cx, u[1..]) else ParseL(cx, u[1..])
      case None => None
      case Some(p) => if Suits(op, p.0) then Some((Prefix(op, p.0), p.1)) else None
    else ParseL(cx, u)
  }

  function ParseT(cx: Context, s: string): (r: Parsed)
    ensures r.Some? ==> |r.value.1| <= |s| && r.value.0 != True
    decreases |s|, 2
  {
    match ParseF(cx, s)
    case None => None
    case Some(p) =>
      var v := SkipSpace(p.1);
      if v != [] && v[0] == '&' then
        match ParseT(cx, v[1..])
        case None => None
        case Some(q) => Some((Pair(And, p.0, q.0), q.1))
      else Some((p.0, v))
  }

  function ParseE(cx: Context, s: string): (r: Parsed)
    ensures r.Some? ==> |r.value.1| <= |s| && r.value.0 != True
    decreases |s|, 3
  {
    match ParseT(cx, s)
    case None => None
    case Some(p) =>
      var v := SkipSpace(p.1);
      if v != [] && v[0] == '|' then
        match ParseE(cx, v[1..])
        case None => None
        case Some(q) => Some((Pair(Or, p.0, q.0), q.1))
      else Some((p.0, v))
  }

  /** parse_boolexp: the null lock for the empty text and for a failure. */
  function Parse(cx: Context, s: string): BoolExp {
    if s == [] then True
    else match ParseE(cx, s) case None => True case Some(p) => p.0
  }

  /** `@` and `$` stand over objects, `=` and `+` over objects or attribute tests, and there
      is no null pointer inside. */
  predicate Typed(b: BoolExp) {
    match b
    case True => false
    case Pair(_, l, r) => Typed(l) && Typed(r)
    case Prefix(op, s) => Typed(s) && Suits(op, s)
    case _ => true
  }
}
