/** Evaluating locks (eval_boolexp and eval_boolexp_atr in src/boolexp.c).  An indirect lock
    stands for the lock stored on another object, which is parsed and evaluated one level
    down; at the nesting limit it is simply false. */
module LockEval {
  import opened Constants
  import opened Wrappers
  import opened FlatText
  import opened AttrTable
  import opened LockTree
  import opened LockParser
  import ParsedLocks

  /** What evaluation looks at: stored lock texts, contents, owners, and the answers of the
      attribute checks, which stand for attribute access, wildcards and softcode. */
  datatype World = World(table: Table, objects: set<int>, lockText: int -> string, contents: int -> seq<int>,
                         owner: int -> int, passes: (int, int, int, string) -> bool,
                         evaluates: (int, int, int, int, string) -> bool, nestLim: int) {

    function LockOf(n: int): string {
      lockText(n)
    }

    function Contents(n: int): seq<int> {
      contents(n)
    }

    function Owner(n: int): int {
      owner(n)
    }

    /** check_attr */
    function CheckAttr(who: int, from: int, attr: int, key: string): bool {
      passes(who, from, attr, key)
    }

    function Softcode(player: int, thing: int, from: int, attr: int, key: string): bool {
      evaluates(player, thing, from, attr, key)
    }

    /** Parsing a stored lock on behalf of a player. */
    function Stored(player: int): Context {
      Context(table, player == GOD, true, _ => NOTHING, objects)
    }

    ghost predicate Proper() {
      AttrTable.Sound(table) && forall n :: n in objects ==> n >= 0
    }
  }

  /** A truth value and whether the nesting limit was reported on the way, or behaviour the
      source leaves undefined. */
  datatype Outcome = Value(v: bool, limited: bool) | Undefined

  predicate AnyPasses(w: World, who: seq<int>, from: int, attr: int, key: string) {
    exists i :: 0 <= i < |who| && w.CheckAttr(who[i], from, attr, key)
  }

  /** Everything but `&`, `|`, `!` and `@`. */
  function Test(w: World, player: int, thing: int, from: int, b: BoolExp): Outcome {
    match b
    case Const(n) => Value(n == player || n in w.Contents(player), false)
    case Atr(n, k) =>
      Value(NameOf(w.table, n).Some? && (w.CheckAttr(player, from, n, k) || AnyPasses(w, w.Contents(player), from, n, k)), false)
    case Eval(n, k) => Value(NameOf(w.table, n).Some? && w.Softcode(player, thing, from, n, k), false)
    case Prefix(Is, Const(n)) => Value(n == player, false)
    case Prefix(Is, Atr(n, k)) => Value(NameOf(w.table, n).Some? && w.CheckAttr(player, from, n, k), false)
    case Prefix(Carry, Const(n)) => Value(n in w.Contents(player), false)
    case Prefix(Carry, Atr(n, k)) =>
      Value(NameOf(w.table, n).Some? && AnyPasses(w, w.Contents(player), from, n, k), false)
    case Prefix(Owner, Const(n)) => Value(w.Owner(n) == w.Owner(player), false)
    case _ => Undefined
  }

  function Left(w: World, lev: int): nat {
    if lev < w.nestLim then w.nestLim - lev else 0
  }

  /** eval_boolexp at nesting level `lev` */
  function Eval(w: World, lev: int, player: int, thing: int, from: int, b: BoolExp): Outcome
    decreases Left(w, lev), b
  {
    match b
    case True => Value(true, false)
    case Pair(op, l, r) =>
      var x := Eval(w, lev, player, thing, from, l);
      if x.Undefined? || x.v == (op == Or) then x
      else
        var y := Eval(w, lev, player, thing, from, r);
        if y.Undefined? then y else Value(y.v, x.limited || y.limited)
    case Prefix(Not, s) =>
      var x := Eval(w, lev, player, thing, from, s);
      if x.Undefined? then x else Value(!x.v, x.limited)
    case Prefix(Indir, s) =>
      if lev + 1 >= w.nestLim then Value(false, true)
      else if s.True? then Undefined
      else if !s.Const? || s.thing < 0 then Value(false, false)
      else Eval(w, lev + 1, player, s.thing, from, Parse(w.Stored(player), w.LockOf(s.thing)))
    case _ => Test(w, player, thing, from, b)
  }

  // ---------------------------------------------------------------------
  // What a lock means when there is no limit
  // ---------------------------------------------------------------------

  /** The value of a lock in which indirection nests at most `depth` deep; `None` if it goes deeper. */
  function Means(w: World, depth: nat, player: int, thing: int, from: int, b: BoolExp): Option<bool>
    requires b == True || Typed(b)
    requires w.Proper()
    decreases depth, b
  {
    match b
    case True => Some(true)
    case Pair(op, l, r) =>
      var x := Means(w, depth, player, thing, from, l);
      if x.None? || x.value == (op == Or) then x else Means(w, depth, player, thing, from, r)
    case Prefix(Not, s) =>
      var x := Means(w, depth, player, thing, from, s);
      if x.None? then x else Some(!x.value)
    case Prefix(Indir, s) =>
      if depth == 0 then None
      else if s.thing < 0 then Some(false)
      else
        var t := Parse(w.Stored(player), w.LockOf(s.thing));
        if t == True then Some(true)
        else
          ParsedLocks.ParseTyped(w.Stored(player), w.LockOf(s.thing));
          Means(w, depth - 1, player, s.thing, from, t)
    case _ => Some(Test(w, player, thing, from, b).v)
  }

  /** Deeper nesting allowed changes no meaning. */
  lemma {:induction false} MeansDeeper(w: World, depth: nat, more: nat, player: int, thing: int, from: int, b: BoolExp)
    requires (b == True || Typed(b)) && w.Proper() && depth <= more
    requires Means(w, depth, player, thing, from, b).Some?
    ensures Means(w, more, player, thing, from, b) == Means(w, depth, player, thing, from, b)
    decreases depth, b
  {
    match b {
      case Pair(op, l, r) =>
        MeansDeeper(w, depth, more, player, thing, from, l);
        if Means(w, depth, player, thing, from, l).value != (op == Or) { MeansDeeper(w, depth, more, player, thing, from, r); }
      case Prefix(Not, s) => MeansDeeper(w, depth, more, player, thing, from, s);
      case Prefix(Indir, s) =>
        if s.thing >= 0 {
          var t := Parse(w.Stored(player), w.LockOf(s.thing));
          if t != True {
            ParsedLocks.ParseTyped(w.Stored(player), w.LockOf(s.thing));
            MeansDeeper(w, depth - 1, more - 1, player, s.thing, from, t);
          }
        }
      case _ =>
    }
  }

  /** How deep indirection may still nest at level `lev`. */
  function Room(w: World, lev: int): nat {
    if lev + 1 < w.nestLim then w.nestLim - lev - 1 else 0
  }

  /** Any lock the parser builds gets a value, on any lock database; and the limit is not
      reported exactly when indirection nests no deeper than there is room, in which case
      the value is the lock's unlimited meaning. */
  lemma {:induction false} EvalMeans(w: World, lev: int, player: int, thing: int, from: int, b: BoolExp)
    requires (b == True || Typed(b)) && w.Proper()
    ensures var x := Eval(w, lev, player, thing, from, b); var m := Means(w, Room(w, lev), player, thing, from, b);
      x.Value? && (x.limited <==> m.None?) && (m.Some? ==> x.v == m.value)
    decreases Left(w, lev), b
  {
    match b {
      case Pair(op, l, r) =>
        EvalMeans(w, lev, player, thing, from, l);
        EvalMeans(w, lev, player, thing, from, r);
      case Prefix(Not, s) => EvalMeans(w, lev, player, thing, from, s);
      case Prefix(Indir, s) =>
        if lev + 1 < w.nestLim && s.thing >= 0 {
          var t := Parse(w.Stored(player), w.LockOf(s.thing));
          if t != True { ParsedLocks.ParseTyped(w.Stored(player), w.LockOf(s.thing)); }
          EvalMeans(w, lev + 1, player, s.thing, from, t);
        }
      case _ =>
    }
  }

  /** With meaning at some depth that the limit leaves room for, evaluation finds that meaning. */
  lemma EvalAgrees(w: World, lev: int, depth: nat, player: int, thing: int, from: int, b: BoolExp)
    requires (b == True || Typed(b)) && w.Proper() && depth <= Room(w, lev)
    requires Means(w, depth, player, thing, from, b).Some?
    ensures Eval(w, lev, player, thing, from, b) == Value(Means(w, depth, player, thing, from, b).value, false)
  {
    MeansDeeper(w, depth, Room(w, lev), player, thing, from, b);
    EvalMeans(w, lev, player, thing, from, b);
  }

  /** The lock that asks for the contrary of the lock on `n`. */
  function Denial(n: int): (b: BoolExp)
    ensures Typed(b)
  {
    assert Typed(Const(n)) && Typed(Prefix(Indir, Const(n)));
    Prefix(Not, Prefix(Indir, Const(n)))
  }

  /** Put on `n` itself, it has no meaning at any depth; what evaluation answers is the parity
      of the limit. */
  lemma {:induction false} SelfDenial(w: World, lev: int, player: int, thing: int, from: int, n: int, depth: nat)
    requires w.Proper() && n >= 0 && Parse(w.Stored(player), w.LockOf(n)) == Denial(n)
    ensures Means(w, depth, player, thing, from, Denial(n)).None?
    ensures lev < w.nestLim ==> Eval(w, lev, player, thing, from, Denial(n)) == Value((w.nestLim - lev) % 2 == 1, true)
    decreases depth + Left(w, lev)
  {
    if depth > 0 { SelfDenial(w, lev, player, n, from, n, depth - 1); }
    if lev + 1 < w.nestLim { SelfDenial(w, lev + 1, player, n, from, n, depth); }
  }

  lemma FiveAlone(cx: Context)
    requires cx.internal && 5 in cx.objects
    ensures ParseL(cx, "#5") == Some((Const(5), []))
  {
    assert TestSpan("#5") == 2 by { assert TestSpan("#5"[1..]) == 1; }
    assert ObjectSpan("#5") == 2 by { assert ObjectSpan("#5"[1..]) == 1; }
    assert "#5"[..2] == "#5" && "#5"[1..] == "5" && "#5"[2..] == [];
    assert Atoi("5") == 5 by { assert "5"[1..] == []; }
    assert TrimEnd("#5") == "#5";
    assert ParseName(cx, "#5") == Some((Const(5), []));
  }

  /** Such a lock can be stored. */
  lemma DenialText(cx: Context)
    requires cx.internal && 5 in cx.objects
    ensures Parse(cx, "!@#5") == Denial(5)
  {
    FiveAlone(cx);
    hide ParseL;
    assert "@#5"[1..] == "#5" && "!@#5"[1..] == "@#5";
    assert ParseF(cx, "@#5") == Some((Prefix(Indir, Const(5)), []));
    assert ParseF(cx, "!@#5") == Some((Denial(5), []));
  }
}
