/** The evaluator with its nesting counter, as src/boolexp.c runs it. */
module LockEvaluator {
  import opened AttrTable
  import opened LockTree
  import opened LockParser
  import ParsedLocks
  import opened LockBuffer
  import opened LockEval

  class Evaluator {
    const w: World
    var lockNestLev: int

    constructor (w: World)
      ensures this.w == w && lockNestLev == 0
    {
      this.w, lockNestLev := w, 0;
    }

    /** DOLIST with check_attr */
    method AnyHolds(who: seq<int>, from: int, attr: int, key: string) returns (c: bool)
      ensures c == AnyPasses(w, who, from, attr, key)
    {
      for i := 0 to |who|
        invariant forall j :: 0 <= j < i ==> !w.CheckAttr(who[j], from, attr, key)
      {
        if w.CheckAttr(who[i], from, attr, key) {
          return true;
        }
      }
      return false;
    }

    /** member */
    method Member(thing: int, list: seq<int>) returns (c: bool)
      ensures c == (thing in list)
    {
      for i := 0 to |list|
        invariant forall j :: 0 <= j < i ==> list[j] != thing
      {
        if list[i] == thing {
          return true;
        }
      }
      return false;
    }

    method TestBoolexp(player: int, thing: int, from: int, b: BoolExp) returns (c: bool)
      requires Typed(b) && !b.Pair? && !(b.Prefix? && (b.pre == Not || b.pre == Indir))
      ensures Value(c, false) == Test(w, player, thing, from, b)
    {
      match b {
        case Const(n) =>
          c := Member(n, w.Contents(player));
          c := n == player || c;
        case Atr(n, k) =>
          if NameOf(w.table, n).None? {
            return false;
          }
          if w.CheckAttr(player, from, n, k) {
            return true;
          }
          c := AnyHolds(w.Contents(player), from, n, k);
        case Eval(n, k) =>
          if NameOf(w.table, n).None? {
            return false;
          }
          c := w.Softcode(player, thing, from, n, k);
        case Prefix(Is, Const(n)) =>
          c := n == player;
        case Prefix(Is, Atr(n, k)) =>
          c := NameOf(w.table, n).Some? && w.CheckAttr(player, from, n, k);
        case Prefix(Carry, Const(n)) =>
          c := Member(n, w.Contents(player));
        case Prefix(Carry, Atr(n, k)) =>
          if NameOf(w.table, n).None? {
            return false;
          }
          c := AnyHolds(w.Contents(player), from, n, k);
        case Prefix(Owner, Const(n)) =>
          c := w.Owner(n) == w.Owner(player);
      }
    }

    /** eval_boolexp: it ends on every lock database and leaves the nesting level as it was. */
    method EvalBoolexp(player: int, thing: int, from: int, b: BoolExp) returns (c: bool, limited: bool)
      requires (b == True || Typed(b)) && w.Proper()
      modifies this
      ensures lockNestLev == old(lockNestLev)
      ensures Value(c, limited) == LockEval.Eval(w, old(lockNestLev), player, thing, from, b)
      decreases Left(w, lockNestLev), b
    {
      limited := false;
      if b == True {
        return true, false;
      }
      match b {
        case Pair(op, left, right) =>
          c, limited := EvalBoolexp(player, thing, from, left);
          if c != (op == Or) {
            var also;
            c, also := EvalBoolexp(player, thing, from, right);
            limited := limited || also;
          }
        case Prefix(Not, sub) =>
          c, limited := EvalBoolexp(player, thing, from, sub);
          c := !c;
        case Prefix(Indir, sub) =>
          lockNestLev := lockNestLev + 1;
          if lockNestLev >= w.nestLim {
            lockNestLev := lockNestLev - 1;
            return false, true;
          }
          if !sub.Const? || sub.thing < 0 {
            lockNestLev := lockNestLev - 1;
            return false, false;
          }
          c, limited := EvalBoolexpAtr(player, sub.thing, from, w.LockOf(sub.thing));
          lockNestLev := lockNestLev - 1;
        case _ =>
          c := TestBoolexp(player, thing, from, b);
      }
    }

    /** eval_boolexp_atr: parse a stored lock and evaluate it. */
    method EvalBoolexpAtr(player: int, thing: int, from: int, key: string) returns (c: bool, limited: bool)
      requires w.Proper() && lockNestLev < w.nestLim
      modifies this
      ensures lockNestLev == old(lockNestLev)
      ensures Value(c, limited) == LockEval.Eval(w, old(lockNestLev), player, thing, from, Parse(w.Stored(player), key))
      decreases Left(w, lockNestLev), Pair(And, Parse(w.Stored(player), key), True)
    {
      hide Parse;
      var parser := new Parser(w.Stored(player));
      var b := parser.ParseBoolexp(key);
      if b == True {
        return true, false;
      }
      ParsedLocks.ParseTyped(w.Stored(player), key);
      c, limited := EvalBoolexp(player, thing, from, b);
    }
  }
}
