/** Laws of lock evaluation: who passes which lock, said without the rules by which it is evaluated. */
module LockLaws {
  import opened Constants
  import opened Wrappers
  import opened AttrTable
  import opened LockTree
  import opened LockParser
  import opened LockEval

  /** Does the player pass? */
  predicate Passes(w: World, lev: int, player: int, thing: int, from: int, b: BoolExp) {
    LockEval.Eval(w, lev, player, thing, from, b).Value? && LockEval.Eval(w, lev, player, thing, from, b).v
  }

  // ---------------------------------------------------------------------
  // Objects
  // ---------------------------------------------------------------------

  /** `=#n` lets the player `n` in and nobody else, on any database: it does not matter who carries what. */
  lemma IsAlone(w: World, lev: int, player: int, thing: int, from: int, n: int)
    ensures Passes(w, lev, player, thing, from, Prefix(Is, Const(n))) <==> player == n
  {
  }

  /** `+#n` lets in exactly those who carry `n`, so it is the same for two databases in which the
      player carries the same. */
  lemma CarryAlone(w: World, w': World, lev: int, player: int, thing: int, from: int, n: int)
    ensures Passes(w, lev, player, thing, from, Prefix(Carry, Const(n))) <==> n in w.Contents(player)
    ensures w'.Contents(player) == w.Contents(player) ==>
      (Passes(w, lev, player, thing, from, Prefix(Carry, Const(n))) <==> Passes(w', lev, player, thing, from, Prefix(Carry, Const(n))))
  {
  }

  /** A bare object or attribute test asks for either: being it or carrying it. */
  lemma EitherWay(w: World, lev: int, player: int, thing: int, from: int, b: BoolExp)
    requires b.Const? || b.Atr?
    ensures Passes(w, lev, player, thing, from, b)
       <==> Passes(w, lev, player, thing, from, Prefix(Is, b)) || Passes(w, lev, player, thing, from, Prefix(Carry, b))
  {
  }

  /** `$#n` asks whether two objects have one owner: it is symmetric, holds of oneself, and looks
      at nothing but owners. */
  lemma OwnersAlone(w: World, w': World, lev: int, player: int, thing: int, from: int, n: int)
    ensures Passes(w, lev, player, thing, from, Prefix(Owner, Const(n))) <==> Passes(w, lev, n, thing, from, Prefix(Owner, Const(player)))
    ensures Passes(w, lev, player, thing, from, Prefix(Owner, Const(player)))
    ensures w'.Owner(n) == w.Owner(n) && w'.Owner(player) == w.Owner(player) ==>
      (Passes(w, lev, player, thing, from, Prefix(Owner, Const(n))) <==> Passes(w', lev, player, thing, from, Prefix(Owner, Const(n))))
    ensures w.Owner(n) != w.Owner(player) ==> !Passes(w, lev, player, thing, from, Prefix(Owner, Const(n)))
  {
  }

  // ---------------------------------------------------------------------
  // Attributes
  // ---------------------------------------------------------------------

  /** A test of an attribute that has no name fails, however it is asked. */
  lemma NamelessFails(w: World, lev: int, player: int, thing: int, from: int, n: int, key: string)
    requires n !in w.table.names
    ensures !Passes(w, lev, player, thing, from, Atr(n, key))
    ensures !Passes(w, lev, player, thing, from, Prefix(Is, Atr(n, key)))
    ensures !Passes(w, lev, player, thing, from, Prefix(Carry, Atr(n, key)))
    ensures !Passes(w, lev, player, thing, from, BoolExp.Eval(n, key))
  {
  }

  /** `=attr` puts the one question to the player alone. */
  lemma TestAsksPlayer(w: World, lev: int, player: int, thing: int, from: int, n: int, key: string)
    requires n in w.table.names
    ensures Passes(w, lev, player, thing, from, Prefix(Is, Atr(n, key))) <==> w.CheckAttr(player, from, n, key)
    ensures Passes(w, lev, player, thing, from, BoolExp.Eval(n, key)) <==> w.Softcode(player, thing, from, n, key)
  {
  }

  /** `+attr` lets in who carries something that `=attr` would let in from the same place. */
  lemma CarrySome(w: World, lev: int, player: int, thing: int, from: int, n: int, key: string)
    ensures Passes(w, lev, player, thing, from, Prefix(Carry, Atr(n, key)))
       <==> exists x :: x in w.Contents(player) && Passes(w, lev, x, thing, from, Prefix(Is, Atr(n, key)))
  {
    var who := w.Contents(player);
    if Passes(w, lev, player, thing, from, Prefix(Carry, Atr(n, key))) {
      var i :| 0 <= i < |who| && w.CheckAttr(who[i], from, n, key);
      assert Passes(w, lev, who[i], thing, from, Prefix(Is, Atr(n, key)));
    }
    if x :| x in who && Passes(w, lev, x, thing, from, Prefix(Is, Atr(n, key))) {
      var i :| 0 <= i < |who| && who[i] == x;
      assert w.CheckAttr(who[i], from, n, key);
    }
  }

  // ---------------------------------------------------------------------
  // Connectives
  // ---------------------------------------------------------------------

  /** The null lock lets everybody in, and `&`, `|` and `!` mean what they say. */
  lemma Connectives(w: World, lev: int, player: int, thing: int, from: int, l: BoolExp, r: BoolExp)
    requires Typed(l) && Typed(r) && w.Proper()
    ensures Passes(w, lev, player, thing, from, True)
    ensures Passes(w, lev, player, thing, from, Pair(And, l, r))
       <==> Passes(w, lev, player, thing, from, l) && Passes(w, lev, player, thing, from, r)
    ensures Passes(w, lev, player, thing, from, Pair(Or, l, r))
       <==> Passes(w, lev, player, thing, from, l) || Passes(w, lev, player, thing, from, r)
    ensures Passes(w, lev, player, thing, from, Prefix(Not, l)) <==> !Passes(w, lev, player, thing, from, l)
  {
    EvalMeans(w, lev, player, thing, from, l);
    EvalMeans(w, lev, player, thing, from, r);
  }

  /** The right side of a pair is not looked at when the left one decides: then the limit is
      reported only if it was met on the left. */
  lemma RightUnseen(w: World, lev: int, player: int, thing: int, from: int, op: PairOp, l: BoolExp, r: BoolExp)
    requires Typed(l) && Typed(r) && w.Proper() && Passes(w, lev, player, thing, from, l) == (op == Or)
    ensures LockEval.Eval(w, lev, player, thing, from, Pair(op, l, r)) == LockEval.Eval(w, lev, player, thing, from, l)
  {
    EvalMeans(w, lev, player, thing, from, l);
  }

  /** De Morgan, report of the limit included. */
  lemma DeMorgan(w: World, lev: int, player: int, thing: int, from: int, l: BoolExp, r: BoolExp)
    ensures LockEval.Eval(w, lev, player, thing, from, Prefix(Not, Pair(And, l, r)))
         == LockEval.Eval(w, lev, player, thing, from, Pair(Or, Prefix(Not, l), Prefix(Not, r)))
  {
  }

  // ---------------------------------------------------------------------
  // Indirection
  // ---------------------------------------------------------------------

  /** `@#n` is the lock stored on `n`, asked of the same player from the same place with `n` as the
      locked thing, one level down; an object without a lock lets everybody in, a number that is
      no object nobody, and past the last level it is false and reported. */
  lemma IndirectAsks(w: World, lev: int, player: int, thing: int, from: int, n: int)
    ensures var b := Prefix(Indir, Const(n));
      if lev + 1 >= w.nestLim then LockEval.Eval(w, lev, player, thing, from, b) == Value(false, true)
      else if n < 0 then LockEval.Eval(w, lev, player, thing, from, b) == Value(false, false)
      else
        && LockEval.Eval(w, lev, player, thing, from, b) == LockEval.Eval(w, lev + 1, player, n, from, Parse(w.Stored(player), w.LockOf(n)))
        && (w.LockOf(n) == "" ==> Passes(w, lev, player, thing, from, b))
  {
  }

  /** So an indirect lock never looks at the thing it stands on. */
  lemma IndirectElsewhere(w: World, lev: int, player: int, thing: int, other: int, from: int, n: int)
    ensures LockEval.Eval(w, lev, player, thing, from, Prefix(Indir, Const(n))) == LockEval.Eval(w, lev, player, other, from, Prefix(Indir, Const(n)))
  {
  }
}
