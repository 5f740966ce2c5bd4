/** Locks (BOOLEXP in src/db.h): boolean trees over objects and attribute tests.
    `True` is the null pointer, the lock that is not there. */
module LockTree {
  import opened Wrappers

  datatype PairOp = And | Or

  datatype PrefixOp = Not | Indir | Carry | Is | Owner

  datatype BoolExp =
    | True
    | Pair(op: PairOp, left: BoolExp, right: BoolExp)
    | Prefix(pre: PrefixOp, sub: BoolExp)
    | Const(thing: int)
    | Atr(attr: int, key: string)
    | Eval(attr: int, key: string)

  function PrefixToken(p: PrefixOp): char {
    match p
    case Not => '!'
    case Indir => '@'
    case Carry => '+'
    case Is => '='
    case Owner => '$'
  }

  function PairToken(p: PairOp): char {
    match p
    case And => '&'
    case Or => '|'
  }

  function PrefixOf(c: char): (r: Option<PrefixOp>)
    ensures r.Some? ==> PrefixToken(r.value) == c
  {
    if c == '!' then Some(Not)
    else if c == '@' then Some(Indir)
    else if c == '+' then Some(Carry)
    else if c == '=' then Some(Is)
    else if c == '$' then Some(Owner)
    else None
  }

  function PairOf(c: char): (r: Option<PairOp>)
    ensures r.Some? ==> PairToken(r.value) == c
  {
    if c == '&' then Some(And) else if c == '|' then Some(Or) else None
  }

  /** No null pointer inside, and attribute numbers are table indexes: what the writer of
      locks can follow. */
  predicate Whole(b: BoolExp) {
    match b
    case True => false
    case Pair(_, l, r) => Whole(l) && Whole(r)
    case Prefix(_, s) => Whole(s)
    case Const(_) => true
    case Atr(n, _) => n >= 0
    case Eval(n, _) => n >= 0
  }
}
