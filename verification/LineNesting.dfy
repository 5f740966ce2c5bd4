/** Lines that nest properly, as a grammar: where parse_to cuts them, and what it returns of them. */
module LineNesting {
  import opened CString
  import opened LineSplit
  import opened LineCut
  import opened LineCursor

  /** A line of plain characters, escapes, bracketed groups and braced groups. */
  datatype Line =
    | End
    | Plain(c: char, rest: Line)
    | Escaped(e: char, c: char, rest: Line)
    | Group(open: char, inner: Line, rest: Line)
    | Braced(inner: Line, rest: Line)

  function Close(open: char): char {
    if open == '(' then ')' else ']'
  }

  /** The line as it is typed. */
  function Text(l: Line): string {
    match l
    case End => ""
    case Plain(c, rest) => [c] + Text(rest)
    case Escaped(e, c, rest) => [e, c] + Text(rest)
    case Group(open, inner, rest) => [open] + Text(inner) + [Close(open)] + Text(rest)
    case Braced(inner, rest) => "{" + Text(inner) + "}" + Text(rest)
  }

  /** Inside braces only braces and escapes mean anything. */
  predicate InBraces(l: Line) {
    match l
    case End => true
    case Plain(c, rest) => c != '\\' && c != '%' && c != '{' && c != '}' && InBraces(rest)
    case Escaped(e, _, rest) => (e == '\\' || e == '%') && InBraces(rest)
    case Group(_, _, _) => false
    case Braced(inner, rest) => InBraces(inner) && InBraces(rest)
  }

  /** Outside, brackets come in pairs, and a `[` behind the escape character, as in a colour code,
      is a plain character.  `prev` is the character in front of the line. */
  predicate Nests(l: Line, prev: char) {
    match l
    case End => true
    case Plain(c, rest) =>
      && c != '\\' && c != '%' && c != '{' && c != '(' && c != ')' && c != ']' && (c == '[' ==> prev == ESC)
      && Nests(rest, c)
    case Escaped(e, c, rest) => (e == '\\' || e == '%') && Nests(rest, c)
    case Group(open, inner, rest) =>
      (open == '(' || (open == '[' && prev != ESC)) && Nests(inner, open) && Nests(rest, Close(open))
    case Braced(inner, rest) => InBraces(inner) && Nests(rest, '}')
  }

  function Max(a: nat, b: nat): nat {
    if a < b then b else a
  }

  /** The most brackets that are open at once. */
  function Depth(l: Line): nat {
    match l
    case End => 0
    case Plain(_, rest) => Depth(rest)
    case Escaped(_, _, rest) => Depth(rest)
    case Group(_, inner, rest) => Max(1 + Depth(inner), Depth(rest))
    case Braced(_, rest) => Depth(rest)
  }

  /** Every delimiter in the line is inside brackets or braces, or escaped. */
  predicate Hides(l: Line, delim: char) {
    match l
    case End => true
    case Plain(c, rest) => c != delim && Hides(rest, delim)
    case Escaped(_, _, rest) => Hides(rest, delim)
    case Group(open, _, rest) => open != delim && Hides(rest, delim)
    case Braced(_, rest) => Hides(rest, delim)
  }

  // ---------------------------------------------------------------------
  // A line inside a text
  // ---------------------------------------------------------------------

  predicate Stands(t: string, i: nat, l: Line) {
    i + |Text(l)| <= |t| && t[i..i + |Text(l)|] == Text(l)
  }

  lemma Parts(t: string, i: nat, a: string, b: string)
    requires i + |a + b| <= |t| && t[i..i + |a + b|] == a + b
    ensures t[i..i + |a|] == a && t[i + |a|..i + |a| + |b|] == b
  {
    assert t[i..i + |a|] == t[i..i + |a + b|][..|a|] && (a + b)[..|a|] == a;
    assert t[i + |a|..i + |a| + |b|] == t[i..i + |a + b|][|a|..] && (a + b)[|a|..] == b;
  }

  lemma PlainStands(t: string, i: nat, c: char, rest: Line)
    requires Stands(t, i, Plain(c, rest))
    ensures i < |t| && t[i] == c && Stands(t, i + 1, rest)
  {
    Parts(t, i, [c], Text(rest));
    assert t[i..i + 1][0] == c;
  }

  lemma EscapedStands(t: string, i: nat, e: char, c: char, rest: Line)
    requires Stands(t, i, Escaped(e, c, rest))
    ensures i + 1 < |t| && t[i] == e && t[i + 1] == c && Stands(t, i + 2, rest)
  {
    Parts(t, i, [e, c], Text(rest));
    assert t[i..i + 2][0] == e && t[i..i + 2][1] == c;
  }

  /** An opening character, a text, a closing character and another text. */
  lemma FourParts(t: string, i: nat, open: char, u: string, close: char, v: string)
    requires var s := [open] + u + [close] + v; i + |s| <= |t| && t[i..i + |s|] == s
    ensures var k := i + 1 + |u|;
      k < |t| && t[i] == open && t[i + 1..k] == u && t[k] == close && k + 1 + |v| <= |t| && t[k + 1..k + 1 + |v|] == v
  {
    var k := i + 1 + |u|;
    Parts(t, i, [open] + u + [close], v);
    ThreeParts(t, i, open, u, close);
  }

  lemma ThreeParts(t: string, i: nat, open: char, u: string, close: char)
    requires i + |u| + 2 <= |t| && t[i..i + |u| + 2] == [open] + u + [close]
    ensures t[i] == open && t[i + 1..i + 1 + |u|] == u && t[i + 1 + |u|] == close
  {
    Parts(t, i, [open] + u, [close]);
    Parts(t, i, [open], u);
    Single(t, i, open);
    Single(t, i + 1 + |u|, close);
  }

  lemma EnclosedStands(t: string, i: nat, open: char, inner: Line, close: char, rest: Line)
    requires var s := [open] + Text(inner) + [close] + Text(rest); i + |s| <= |t| && t[i..i + |s|] == s
    ensures var k := i + 1 + |Text(inner)|;
      && k < |t| && t[i] == open && Stands(t, i + 1, inner) && t[k] == close && Stands(t, k + 1, rest)
  {
    hide Text, Stands;
    var u, v := Text(inner), Text(rest);
    FourParts(t, i, open, u, close, v);
    StandsIf(t, i + 1, inner);
    StandsIf(t, i + 2 + |u|, rest);
  }

  lemma StandsIf(t: string, i: nat, l: Line)
    requires i + |Text(l)| <= |t| && t[i..i + |Text(l)|] == Text(l)
    ensures Stands(t, i, l)
  {
  }

  /** How long a line is, part by part. */
  lemma Sizes(l: Line)
    ensures match l
      case End => |Text(l)| == 0
      case Plain(_, rest) => |Text(l)| == 1 + |Text(rest)|
      case Escaped(_, _, rest) => |Text(l)| == 2 + |Text(rest)|
      case Group(_, inner, rest) => |Text(l)| == 2 + |Text(inner)| + |Text(rest)|
      case Braced(inner, rest) => |Text(l)| == 2 + |Text(inner)| + |Text(rest)|
  {
  }

  lemma Single(t: string, k: nat, c: char)
    requires k + 1 <= |t| && t[k..k + 1] == [c]
    ensures t[k] == c
  {
    assert t[k..k + 1][0] == c;
  }

  // ---------------------------------------------------------------------
  // The cut
  // ---------------------------------------------------------------------

  lemma BraceEndStep(t: string, i: nat, level: nat)
    requires i < |t| && level > 0
    ensures t[i] != '\\' && t[i] != '%' && t[i] != '{' && t[i] != '}' ==> BraceEnd(t, i, level) == BraceEnd(t, i + 1, level)
    ensures (t[i] == '\\' || t[i] == '%') && i + 1 < |t| ==> BraceEnd(t, i, level) == BraceEnd(t, i + 2, level)
    ensures t[i] == '{' ==> BraceEnd(t, i, level) == BraceEnd(t, i + 1, level + 1)
    ensures t[i] == '}' ==> BraceEnd(t, i, level) == BraceEnd(t, i + 1, level - 1)
  {
  }

  lemma {:induction false} BraceEndPasses(t: string, i: nat, level: nat, l: Line)
    requires Stands(t, i, l) && InBraces(l) && level > 0
    ensures i + |Text(l)| <= |t| && BraceEnd(t, i, level) == BraceEnd(t, i + |Text(l)|, level)
    decreases l
  {
    hide Stands, BraceEnd, Text;
    FitsIn(t, i, l);
    Sizes(l);
    match l {
      case End =>
      case Plain(c, rest) =>
        PlainStands(t, i, c, rest);
        BraceEndStep(t, i, level);
        BraceEndPasses(t, i + 1, level, rest);
      case Escaped(e, c, rest) =>
        EscapedStands(t, i, e, c, rest);
        BraceEndStep(t, i, level);
        BraceEndPasses(t, i + 2, level, rest);
      case Braced(inner, rest) =>
        BracedStands(t, i, inner, rest);
        var k := i + 1 + |Text(inner)|;
        BraceEndStep(t, i, level);
        BraceEndPasses(t, i + 1, level + 1, inner);
        BraceEndStep(t, k, level + 1);
        BraceEndPasses(t, k + 1, level, rest);
    }
  }

  lemma FitsIn(t: string, i: nat, l: Line)
    requires Stands(t, i, l)
    ensures i + |Text(l)| <= |t|
  {
  }

  lemma BracedStands(t: string, i: nat, inner: Line, rest: Line)
    requires Stands(t, i, Braced(inner, rest))
    ensures var k := i + 1 + |Text(inner)|;
      k < |t| && t[i] == '{' && Stands(t, i + 1, inner) && t[k] == '}' && Stands(t, k + 1, rest)
  {
    EnclosedStands(t, i, '{', inner, '}', rest);
  }

  lemma GroupStands(t: string, i: nat, open: char, inner: Line, rest: Line)
    requires Stands(t, i, Group(open, inner, rest))
    ensures var k := i + 1 + |Text(inner)|;
      k < |t| && t[i] == open && Stands(t, i + 1, inner) && t[k] == Close(open) && Stands(t, k + 1, rest)
  {
    EnclosedStands(t, i, open, inner, Close(open), rest);
  }

  lemma UnwindTop(stack: string, c: char)
    ensures Unwind(stack + [c], c) == stack
  {
    assert (stack + [c])[..|stack|] == stack;
  }

  lemma PlainIsNoCut(t: string, i: nat, stack: string, delim: char, esc: bool)
    requires i < |t| && (stack == [] ==> t[i] != delim)
    requires var c := t[i]; c != '\\' && c != '%' && c != '{' && c != '(' && c != ')' && c != ']' && (c == '[' ==> Prev(t, i, esc) == ESC)
    ensures Cut(t, i, stack, delim, esc) == Cut(t, i + 1, stack, delim, esc)
  {
  }

  lemma EscapeIsNoCut(t: string, i: nat, stack: string, delim: char, esc: bool)
    requires i + 1 < |t| && (t[i] == '\\' || t[i] == '%')
    ensures Cut(t, i, stack, delim, esc) == Cut(t, i + 2, stack, delim, esc)
  {
  }

  lemma BraceIsNoCut(t: string, i: nat, stack: string, delim: char, esc: bool)
    requires i < |t| && t[i] == '{'
    ensures Cut(t, i, stack, delim, esc) == Cut(t, BraceEnd(t, i + 1, 1), stack, delim, esc)
  {
    hide BraceEnd;
  }

  lemma PrevIs(t: string, i: nat, esc: bool)
    requires 0 < i <= |t|
    ensures Prev(t, i, esc) == t[i - 1]
  {
  }

  /** What nesting says of the first part of a line. */
  predicate FirstPart(l: Line, prev: char, delim: char) {
    match l
    case End => true
    case Plain(c, rest) =>
      && c != '\\' && c != '%' && c != '{' && c != '(' && c != ')' && c != ']' && (c == '[' ==> prev == ESC)
      && Nests(rest, c) && Depth(l) == Depth(rest) && (Hides(l, delim) ==> c != delim && Hides(rest, delim))
    case Escaped(e, c, rest) =>
      (e == '\\' || e == '%') && Nests(rest, c) && Depth(l) == Depth(rest) && (Hides(l, delim) ==> Hides(rest, delim))
    case Group(open, inner, rest) =>
      && (open == '(' || (open == '[' && prev != ESC)) && Nests(inner, open) && Nests(rest, Close(open))
      && Depth(l) >= 1 + Depth(inner) && Depth(l) >= Depth(rest) && (Hides(l, delim) ==> open != delim && Hides(rest, delim))
    case Braced(inner, rest) =>
      InBraces(inner) && Nests(rest, '}') && Depth(l) == Depth(rest) && (Hides(l, delim) ==> Hides(rest, delim))
  }

  lemma NestsFirst(l: Line, prev: char, delim: char)
    requires Nests(l, prev)
    ensures FirstPart(l, prev, delim)
  {
  }

  /** Nothing in a line that nests is a cut, as long as no more than 32 brackets are open at once. */
  lemma {:induction false} CutPasses(t: string, i: nat, l: Line, stack: string, delim: char, esc: bool)
    requires Stands(t, i, l) && Nests(l, Prev(t, i, esc)) && |stack| + Depth(l) <= 32 && (stack == [] ==> Hides(l, delim))
    ensures i + |Text(l)| <= |t| && Cut(t, i, stack, delim, esc) == Cut(t, i + |Text(l)|, stack, delim, esc)
    decreases l, 1
  {
    hide Stands, BraceEnd, Cut, Text, Close, Prev, Nests, Depth, Hides, InBraces;
    FitsIn(t, i, l);
    Sizes(l);
    NestsFirst(l, Prev(t, i, esc), delim);
    match l {
      case End =>
      case Plain(c, rest) =>
        PlainStands(t, i, c, rest);
        PrevIs(t, i + 1, esc);
        PlainIsNoCut(t, i, stack, delim, esc);
        CutPasses(t, i + 1, rest, stack, delim, esc);
      case Escaped(e, c, rest) =>
        EscapedStands(t, i, e, c, rest);
        PrevIs(t, i + 2, esc);
        EscapeIsNoCut(t, i, stack, delim, esc);
        CutPasses(t, i + 2, rest, stack, delim, esc);
      case Group(open, inner, rest) =>
        GroupStands(t, i, open, inner, rest);
        var k := i + 1 + |Text(inner)|;
        GroupPasses(t, i, open, inner, stack, delim, esc);
        PrevIs(t, k + 1, esc);
        CutPasses(t, k + 1, rest, stack, delim, esc);
      case Braced(inner, rest) =>
        BracedStands(t, i, inner, rest);
        var k := i + 1 + |Text(inner)|;
        BracedPasses(t, i, inner, stack, delim, esc);
        PrevIs(t, k + 1, esc);
        CutPasses(t, k + 1, rest, stack, delim, esc);
    }
  }

  lemma {:induction false} GroupPasses(t: string, i: nat, open: char, inner: Line, stack: string, delim: char, esc: bool)
    requires var k := i + 1 + |Text(inner)|; k < |t| && t[i] == open && Stands(t, i + 1, inner) && t[k] == Close(open)
    requires open == '(' || (open == '[' && Prev(t, i, esc) != ESC)
    requires Nests(inner, open) && |stack| + 1 + Depth(inner) <= 32 && (stack == [] ==> open != delim)
    ensures Cut(t, i, stack, delim, esc) == Cut(t, i + 2 + |Text(inner)|, stack, delim, esc)
    decreases inner, 2
  {
    hide Stands, Cut, Text, Close;
    var k := i + 1 + |Text(inner)|;
    GroupOpens(t, i, stack, open, delim, esc);
    CutPasses(t, i + 1, inner, stack + [Close(open)], delim, esc);
    GroupCloses(t, k, stack, open, delim, esc);
  }

  lemma BracedPasses(t: string, i: nat, inner: Line, stack: string, delim: char, esc: bool)
    requires var k := i + 1 + |Text(inner)|; k < |t| && t[i] == '{' && Stands(t, i + 1, inner) && t[k] == '}'
    requires InBraces(inner)
    ensures Cut(t, i, stack, delim, esc) == Cut(t, i + 2 + |Text(inner)|, stack, delim, esc)
  {
    hide Stands, Cut, Text, BraceEnd, InBraces;
    BraceIsNoCut(t, i, stack, delim, esc);
    BraceEndPasses(t, i + 1, 1, inner);
    BraceCloses(t, i + 1 + |Text(inner)|);
  }

  lemma BraceCloses(t: string, k: nat)
    requires k < |t| && t[k] == '}'
    ensures BraceEnd(t, k, 1) == k + 1
  {
    assert BraceEnd(t, k + 1, 0) == k + 1;
  }

  lemma GroupOpens(t: string, i: nat, stack: string, open: char, delim: char, esc: bool)
    requires i < |t| && t[i] == open && |stack| < 32 && (stack == [] ==> open != delim)
    requires open == '(' || (open == '[' && Prev(t, i, esc) != ESC)
    ensures Cut(t, i, stack, delim, esc) == Cut(t, i + 1, stack + [Close(open)], delim, esc)
  {
  }

  lemma GroupCloses(t: string, k: nat, stack: string, open: char, delim: char, esc: bool)
    requires k < |t| && t[k] == Close(open)
    ensures Cut(t, k, stack + [Close(open)], delim, esc) == Cut(t, k + 1, stack, delim, esc)
  {
    UnwindTop(stack, Close(open));
    assert (stack + [Close(open)])[|stack|] == Close(open);
  }

  lemma LineStands(g: string, l: Line, y: string)
    ensures Stands(g + Text(l) + y, |g|, l)
  {
    assert (g + Text(l) + y)[|g|..|g| + |Text(l)|] == Text(l);
  }

  /** A delimiter inside brackets or braces, or escaped, is no cut; the first one outside is.  This
      is so whenever at most 32 brackets are open at once. */
  lemma NestedCut(l: Line, delim: char, y: string, esc: bool)
    requires Nests(l, if esc then ESC else ' ') && Depth(l) <= 32 && Hides(l, delim)
    requires delim != '\\' && delim != '%' && delim != '{'
    ensures Cut(Text(l) + [delim] + y, 0, [], delim, esc) == |Text(l)|
  {
    var t := Text(l) + [delim] + y;
    LineStands("", l, [delim] + y);
    assert "" + Text(l) + ([delim] + y) == t;
    CutPasses(t, 0, l, [], delim, esc);
    assert t[|Text(l)|] == delim;
  }

  /** So the scanner stops there too, whatever its flags. */
  lemma NestedParse(l: Line, delim: char, y: string, cfg: Config, esc: bool)
    requires Nests(l, if esc then ESC else ' ') && Depth(l) <= 32 && Hides(l, delim)
    requires delim != '\\' && delim != '%' && delim != '{' && !IsSpace(delim)
    ensures Parsed(Text(l) + [delim] + y, cfg, delim, esc).i == |Text(l)|
  {
    NestedCut(l, delim, y, esc);
    CutIgnoresFlags(Text(l) + [delim] + y, cfg, delim, esc);
  }

  // ---------------------------------------------------------------------
  // Deeper than the stack
  // ---------------------------------------------------------------------

  function Times(c: char, n: nat): (s: string)
    ensures |s| == n && forall i :: 0 <= i < n ==> s[i] == c
  {
    seq(n, _ => c)
  }

  lemma OneOpens(t: string, i: nat, k: nat, esc: bool)
    requires i < |t| && t[i] == '(' && k <= 32
    ensures Cut(t, i, Times(')', k), ',', esc) == Cut(t, i + 1, Times(')', if k < 32 then k + 1 else 32), ',', esc)
  {
    if k < 32 { assert Times(')', k) + [')'] == Times(')', k + 1); }
  }

  lemma {:induction false} OpensRun(t: string, i: nat, n: nat, k: nat, esc: bool)
    requires i + n <= |t| && (forall j :: i <= j < i + n ==> t[j] == '(') && k <= 32
    ensures Cut(t, i, Times(')', k), ',', esc) == Cut(t, i + n, Times(')', if k + n < 32 then k + n else 32), ',', esc)
    decreases n
  {
    hide Cut, Times;
    if n > 0 {
      OneOpens(t, i, k, esc);
      OpensRun(t, i + 1, n - 1, if k < 32 then k + 1 else 32, esc);
    }
  }

  lemma {:induction false} ClosesRun(t: string, i: nat, k: nat, esc: bool)
    requires i + k <= |t| && forall j :: i <= j < i + k ==> t[j] == ')'
    ensures Cut(t, i, Times(')', k), ',', esc) == Cut(t, i + k, [], ',', esc)
    decreases k
  {
    if k > 0 {
      assert Times(')', k) == Times(')', k - 1) + [')'];
      UnwindTop(Times(')', k - 1), ')');
      ClosesRun(t, i + 1, k - 1, esc);
    } else {
      assert Times(')', 0) == [];
    }
  }

  /** A 33rd open bracket, and any behind it, is not remembered: after 32 of the closing ones a
      delimiter counts as outside, though brackets are still open. */
  lemma TooDeep(n: nat, y: string, esc: bool)
    requires n > 32
    ensures Cut(Times('(', n) + Times(')', 32) + "," + y, 0, [], ',', esc) == n + 32
  {
    var t := Times('(', n) + Times(')', 32) + "," + y;
    assert Times(')', 0) == [];
    OpensRun(t, 0, n, 0, esc);
    ClosesRun(t, n, 32, esc);
  }

  // ---------------------------------------------------------------------
  // Lines that do not nest
  // ---------------------------------------------------------------------

  lemma {:induction false} UnwindPasses(a: string, c: char, b: string)
    requires c !in b
    ensures Unwind(a + [c] + b, c) == a
  {
    if b == [] {
      assert a + [c] + b == a + [c];
      UnwindTop(a, c);
    } else {
      var s := a + [c] + b;
      assert s[..|s| - 1] == a + [c] + b[..|b| - 1] && s[|s| - 1] == b[|b| - 1];
      UnwindPasses(a, c, b[..|b| - 1]);
    }
  }

  /** A closing bracket closes the innermost one of its kind, and with it every bracket of the other
      kind that was opened inside and never closed. */
  lemma ClosesInner(t: string, k: nat, a: string, b: string, delim: char, esc: bool)
    requires k < |t| && (t[k] == ')' || t[k] == ']') && t[k] !in b
    ensures Cut(t, k, a + [t[k]] + b, delim, esc) == Cut(t, k + 1, a, delim, esc)
  {
    UnwindPasses(a, t[k], b);
    assert (a + [t[k]] + b)[|a|] == t[k];
  }

  /** One that closes nothing is a plain character, or the cut if it is the delimiter. */
  lemma StrayCloser(t: string, k: nat, stack: string, delim: char, esc: bool)
    requires k < |t| && (t[k] == ')' || t[k] == ']') && t[k] !in stack
    ensures Cut(t, k, stack, delim, esc) == if t[k] == delim then k else Cut(t, k + 1, stack, delim, esc)
  {
  }

  /** A brace that is never closed hides everything behind it. */
  lemma UnclosedBrace(t: string, i: nat, l: Line, stack: string, delim: char, esc: bool)
    requires i < |t| && t[i] == '{' && Stands(t, i + 1, l) && InBraces(l) && i + 1 + |Text(l)| == |t|
    ensures Cut(t, i, stack, delim, esc) == |t|
  {
    hide Stands;
    BraceIsNoCut(t, i, stack, delim, esc);
    BraceEndPasses(t, i + 1, 1, l);
    assert BraceEnd(t, |t|, 1) == |t|;
  }
}
