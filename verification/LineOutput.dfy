/** What parse_to returns of a line that nests, part by part. */
module LineOutput {
  import opened CString
  import opened LineSplit
  import opened LineCursor
  import opened LineNesting

  // ---------------------------------------------------------------------
  // What each part of a line becomes
  // ---------------------------------------------------------------------

  /** An escape: a backslash goes when that is asked for, the character behind it always stays. */
  function Freed(e: char, c: char, cfg: Config): string {
    if e == '\\' && cfg.stripEsc then [c] else [e, c]
  }

  /** Inside braces nothing else changes. */
  function Within(l: Line, cfg: Config): string {
    match l
    case End => ""
    case Plain(c, rest) => [c] + Within(rest, cfg)
    case Escaped(e, c, rest) => Freed(e, c, cfg) + Within(rest, cfg)
    case Group(_, _, _) => ""
    case Braced(inner, rest) => "{" + Within(inner, cfg) + "}" + Within(rest, cfg)
  }

  /** Outside, a blank behind a blank goes when blanks are compressed, and the outer braces go when
      that is asked for.  `blank` says that a blank is in front of the line. */
  function Printed(l: Line, cfg: Config, blank: bool): string {
    match l
    case End => ""
    case Plain(c, rest) =>
      (if c == ' ' && blank && cfg.spaceCompress && !cfg.noCompress then "" else [c]) + Printed(rest, cfg, c == ' ')
    case Escaped(e, c, rest) => Freed(e, c, cfg) + Printed(rest, cfg, c == ' ')
    case Group(open, inner, rest) => [open] + Printed(inner, cfg, false) + [Close(open)] + Printed(rest, cfg, false)
    case Braced(inner, rest) =>
      (if cfg.strip then Within(inner, cfg) else "{" + Within(inner, cfg) + "}") + Printed(rest, cfg, false)
  }

  /** Nothing but unescaped blanks. */
  predicate OnlyBlanks(l: Line) {
    match l
    case End => true
    case Plain(c, rest) => c == ' ' && OnlyBlanks(rest)
    case _ => false
  }

  // ---------------------------------------------------------------------
  // The scanner over a braced group
  // ---------------------------------------------------------------------

  lemma RunStep(t: string, cfg: Config, b: Brace)
    requires b.i < |t| && b.level > 0
    ensures BraceRun(t, cfg, b) == BraceRun(t, cfg, BraceStep(t, cfg, b))
  {
    hide BraceStep;
  }

  lemma {:induction false} RunShows(t: string, cfg: Config, i: nat, out: string, level: nat, l: Line)
    requires Stands(t, i, l) && InBraces(l) && level > 0
    ensures i + |Text(l)| <= |t|
    ensures BraceRun(t, cfg, Brace(i, out, level)) == BraceRun(t, cfg, Brace(i + |Text(l)|, out + Within(l, cfg), level))
    decreases l, 1
  {
    hide Stands, BraceRun, Text, Freed;
    FitsIn(t, i, l);
    Sizes(l);
    match l {
      case End =>
        assert out + [] == out;
      case Plain(c, rest) =>
        PlainStands(t, i, c, rest);
        RunStep(t, cfg, Brace(i, out, level));
        RunShows(t, cfg, i + 1, out + [c], level, rest);
        Joined(out, [c], Within(rest, cfg));
      case Escaped(e, c, rest) =>
        EscapedStands(t, i, e, c, rest);
        RunStep(t, cfg, Brace(i, out, level));
        RunEscape(t, cfg, i, out, level);
        RunShows(t, cfg, i + 2, out + Freed(e, c, cfg), level, rest);
        Joined(out, Freed(e, c, cfg), Within(rest, cfg));
      case Braced(inner, rest) =>
        BracedRuns(t, cfg, i, out, level, inner, rest);
    }
  }

  lemma {:induction false} BracedRuns(t: string, cfg: Config, i: nat, out: string, level: nat, inner: Line, rest: Line)
    requires Stands(t, i, Braced(inner, rest)) && InBraces(inner) && InBraces(rest) && level > 0
    ensures i + 2 + |Text(inner)| + |Text(rest)| <= |t|
    ensures BraceRun(t, cfg, Brace(i, out, level))
         == BraceRun(t, cfg, Brace(i + 2 + |Text(inner)| + |Text(rest)|,
                                   out + ("{" + Within(inner, cfg) + "}" + Within(rest, cfg)), level))
    decreases Braced(inner, rest), 0
  {
    hide Stands, BraceRun, Text, Within, InBraces;
    BracedStands(t, i, inner, rest);
    var k := i + 1 + |Text(inner)|;
    var o := out + ['{'] + Within(inner, cfg);
    RunStep(t, cfg, Brace(i, out, level));
    RunShows(t, cfg, i + 1, out + ['{'], level + 1, inner);
    RunStep(t, cfg, Brace(k, o, level + 1));
    RunShows(t, cfg, k + 1, o + ['}'], level, rest);
    assert o + ['}'] + Within(rest, cfg) == out + ("{" + Within(inner, cfg) + "}" + Within(rest, cfg));
  }

  lemma RunEscape(t: string, cfg: Config, i: nat, out: string, level: nat)
    requires i + 1 < |t| && (t[i] == '\\' || t[i] == '%') && level > 0
    ensures BraceStep(t, cfg, Brace(i, out, level)) == Brace(i + 2, out + Freed(t[i], t[i + 1], cfg), level)
  {
    assert out + [] + [t[i + 1]] == out + [t[i + 1]];
    assert out + [t[i]] + [t[i + 1]] == out + [t[i], t[i + 1]];
  }

  lemma Joined(a: string, b: string, c: string)
    ensures a + b + c == a + (b + c)
  {
  }

  lemma BracedShows(t: string, cfg: Config, s: Scan, inner: Line, rest: Line)
    requires Stands(t, s.i, Braced(inner, rest)) && InBraces(inner)
    ensures var shown := if cfg.strip then Within(inner, cfg) else "{" + Within(inner, cfg) + "}";
      BraceGroup(t, cfg, s) == Scan(s.i + 2 + |Text(inner)|, s.out + shown, false, s.stack)
  {
    hide Stands, Text, Within, BraceRun;
    BracedStands(t, s.i, inner, rest);
    var k := s.i + 1 + |Text(inner)|;
    var out := if cfg.strip then s.out else s.out + ['{'];
    RunShows(t, cfg, s.i + 1, out, 1, inner);
    RunStep(t, cfg, Brace(k, out + Within(inner, cfg), 1));
    RunEnds(t, cfg, k, out + Within(inner, cfg));
    if !cfg.strip { assert out + Within(inner, cfg) + ['}'] == s.out + ("{" + Within(inner, cfg) + "}"); }
  }

  lemma RunEnds(t: string, cfg: Config, k: nat, out: string)
    requires k < |t| && t[k] == '}'
    ensures BraceRun(t, cfg, BraceStep(t, cfg, Brace(k, out, 1))) == Brace(k, out, 0)
  {
  }

  // ---------------------------------------------------------------------
  // The scanner over a line
  // ---------------------------------------------------------------------

  /** Is a blank of the piece in front of the cursor? */
  predicate BehindBlank(t: string, cfg: Config, i: nat)
    requires i <= |t|
  {
    i > LeadOf(t, cfg) && t[i - 1] == ' '
  }

  /** The scanner behind a line that it read from `s` on. */
  function After(t: string, cfg: Config, s: Scan, l: Line): Scan
    requires s.i <= |t|
  {
    Scan(s.i + |Text(l)|, s.out + Printed(l, cfg, BehindBlank(t, cfg, s.i)), s.first && OnlyBlanks(l), s.stack)
  }

  lemma ScanStep(t: string, cfg: Config, delim: char, esc: bool, s: Scan)
    requires s.i < |t| && !AtCut(t, s.i, s.stack, delim)
    ensures Scanned(t, cfg, delim, esc, s) == Scanned(t, cfg, delim, esc, Step(t, cfg, esc, s))
  {
    hide Step, AtCut;
  }

  lemma PlainShown(t: string, cfg: Config, esc: bool, s: Scan)
    requires s.i < |t| && Tracks(t, cfg, s)
    requires var c := t[s.i]; c != '\\' && c != '%' && c != '{' && c != '(' && c != ')' && c != ']' && (c == '[' ==> Prev(t, s.i, esc) == ESC)
    ensures var c := t[s.i]; var gone := c == ' ' && BehindBlank(t, cfg, s.i) && cfg.spaceCompress && !cfg.noCompress;
      Step(t, cfg, esc, s) == Scan(s.i + 1, s.out + (if gone then "" else [c]), s.first && c == ' ', s.stack)
  {
    hide LeadOf, NulFree, Prev;
    var c := t[s.i];
    var gone := c == ' ' && BehindBlank(t, cfg, s.i) && cfg.spaceCompress && !cfg.noCompress;
    if gone {
      assert !s.first && EndsBlank(s.out);
      assert Shrink(s.out) + [' '] == s.out + "";
    }
  }

  lemma EscapedShown(t: string, cfg: Config, esc: bool, s: Scan)
    requires s.i + 1 < |t| && (t[s.i] == '\\' || t[s.i] == '%')
    ensures Step(t, cfg, esc, s) == Scan(s.i + 2, s.out + Freed(t[s.i], t[s.i + 1], cfg), false, s.stack)
  {
    assert s.out + [t[s.i]] + [t[s.i + 1]] == s.out + [t[s.i], t[s.i + 1]];
  }

  lemma OpenShown(t: string, cfg: Config, esc: bool, s: Scan, open: char)
    requires s.i < |t| && t[s.i] == open && |s.stack| < 32
    requires open == '(' || (open == '[' && Prev(t, s.i, esc) != ESC)
    ensures Step(t, cfg, esc, s) == Scan(s.i + 1, s.out + [open], false, s.stack + [Close(open)])
  {
  }

  lemma CloseShown(t: string, cfg: Config, esc: bool, k: nat, out: string, first: bool, stack: string, open: char)
    requires k < |t| && t[k] == Close(open)
    ensures Step(t, cfg, esc, Scan(k, out, first, stack + [Close(open)])) == Scan(k + 1, out + [Close(open)], false, stack)
  {
    UnwindTop(stack, Close(open));
    assert (stack + [Close(open)])[|stack|] == Close(open);
  }

  lemma BraceShown(t: string, cfg: Config, esc: bool, s: Scan)
    requires s.i < |t| && t[s.i] == '{'
    ensures Step(t, cfg, esc, s) == BraceGroup(t, cfg, s)
  {
    hide BraceGroup;
  }

  lemma NoCut(t: string, i: nat, stack: string, delim: char)
    requires i < |t|
    ensures stack != [] && t[i] != ')' && t[i] != ']' ==> !AtCut(t, i, stack, delim)
    ensures t[i] != delim ==> !AtCut(t, i, stack, delim)
    ensures t[i] in stack && (t[i] == ')' || t[i] == ']') ==> !AtCut(t, i, stack, delim)
    ensures t[i] == '\\' || t[i] == '%' || t[i] == '{' ==> !AtCut(t, i, stack, delim)
  {
  }

  /** The blank flag one character on. */
  lemma BlankNext(t: string, cfg: Config, i: nat)
    requires LeadOf(t, cfg) < i <= |t|
    ensures BehindBlank(t, cfg, i) <==> t[i - 1] == ' '
  {
    hide LeadOf;
  }

  lemma TracksLead(t: string, cfg: Config, s: Scan)
    requires Tracks(t, cfg, s)
    ensures LeadOf(t, cfg) <= s.i <= |t|
  {
    hide LeadOf;
  }

  /** The first part read, and then the rest, is the whole line read. */
  lemma AfterFirst(t: string, cfg: Config, s: Scan, l: Line, n: nat, shown: string, first: bool, rest: Line, blank: bool)
    requires s.i + n <= |t| && |Text(l)| == n + |Text(rest)| && (BehindBlank(t, cfg, s.i + n) <==> blank)
    requires Printed(l, cfg, BehindBlank(t, cfg, s.i)) == shown + Printed(rest, cfg, blank)
    requires (s.first && OnlyBlanks(l)) == (first && OnlyBlanks(rest))
    ensures After(t, cfg, s, l) == After(t, cfg, Scan(s.i + n, s.out + shown, first, s.stack), rest)
  {
    hide Text, Printed, OnlyBlanks, BehindBlank;
    Joined(s.out, shown, Printed(rest, cfg, blank));
  }

  lemma ShowsEnd(t: string, cfg: Config, delim: char, esc: bool, s: Scan)
    requires s.i <= |t| && Tracks(t, cfg, s)
    ensures After(t, cfg, s, End) == s && Shows(t, cfg, delim, esc, s, End)
  {
    hide BehindBlank;
    assert s.out + "" == s.out;
  }

  lemma PrintedGroup(open: char, inner: Line, rest: Line, cfg: Config, blank: bool)
    ensures Printed(Group(open, inner, rest), cfg, blank)
         == ([open] + Printed(inner, cfg, false) + [Close(open)]) + Printed(rest, cfg, false)
  {
  }

  ghost predicate Shows(t: string, cfg: Config, delim: char, esc: bool, s: Scan, l: Line) {
    && s.i + |Text(l)| <= |t| && Tracks(t, cfg, After(t, cfg, s, l))
    && Scanned(t, cfg, delim, esc, s) == Scanned(t, cfg, delim, esc, After(t, cfg, s, l))
  }

  /** The first part is read up to `s1`, and from there the rest. */
  lemma ShowsOn(t: string, cfg: Config, delim: char, esc: bool, s: Scan, l: Line, s1: Scan, shown: string, rest: Line, blank: bool)
    requires s.i <= s1.i <= |t| && s1.out == s.out + shown && s1.stack == s.stack && Shows(t, cfg, delim, esc, s1, rest)
    requires Scanned(t, cfg, delim, esc, s) == Scanned(t, cfg, delim, esc, s1)
    requires |Text(l)| == s1.i - s.i + |Text(rest)| && (BehindBlank(t, cfg, s1.i) <==> blank)
    requires Printed(l, cfg, BehindBlank(t, cfg, s.i)) == shown + Printed(rest, cfg, blank)
    requires (s.first && OnlyBlanks(l)) == (s1.first && OnlyBlanks(rest))
    ensures Shows(t, cfg, delim, esc, s, l)
  {
    hide Text, Printed, OnlyBlanks, BehindBlank, Scanned, After, Tracks;
    AfterFirst(t, cfg, s, l, s1.i - s.i, shown, s1.first, rest, blank);
    assert s1 == Scan(s1.i, s.out + shown, s1.first, s.stack);
  }

  /** The scanner stands in front of the line. */
  ghost predicate Ready(t: string, cfg: Config, delim: char, esc: bool, s: Scan, l: Line) {
    && Tracks(t, cfg, s) && NulFree(t) && s.i <= |t| && Stands(t, s.i, l) && Nests(l, Prev(t, s.i, esc))
    && |s.stack| + Depth(l) <= 32 && (s.stack == [] ==> Hides(l, delim))
  }

  lemma ReadyFacts(t: string, cfg: Config, delim: char, esc: bool, s: Scan, l: Line)
    requires Ready(t, cfg, delim, esc, s, l)
    ensures LeadOf(t, cfg) <= s.i && s.i + |Text(l)| <= |t| && FirstPart(l, Prev(t, s.i, esc), delim)
  {
    hide Nests, Depth, Hides, Prev, NulFree, LeadOf, FirstPart;
    NestsFirst(l, Prev(t, s.i, esc), delim);
  }

  lemma {:induction false} PlainShows(t: string, cfg: Config, delim: char, esc: bool, s: Scan, c: char, rest: Line)
    requires Ready(t, cfg, delim, esc, s, Plain(c, rest))
    ensures Shows(t, cfg, delim, esc, s, Plain(c, rest))
    decreases Plain(c, rest), 0
  {
    hide Shows, Stands, Text, Prev, Nests, Depth, Hides, Scanned, Step, Tracks, LeadOf, NulFree, BehindBlank, AtCut, After;
    var l := Plain(c, rest);
    ReadyFacts(t, cfg, delim, esc, s, l);
    Sizes(l);
    PlainStands(t, s.i, c, rest);
    NoCut(t, s.i, s.stack, delim);
    PlainShown(t, cfg, esc, s);
    Goes(t, cfg, delim, esc, s);
    ScanShows(t, cfg, delim, esc, Step(t, cfg, esc, s), rest);
    var gone := c == ' ' && BehindBlank(t, cfg, s.i) && cfg.spaceCompress && !cfg.noCompress;
    ShowsOn(t, cfg, delim, esc, s, l, Step(t, cfg, esc, s), if gone then "" else [c], rest, c == ' ');
  }

  lemma {:induction false} EscapedShows(t: string, cfg: Config, delim: char, esc: bool, s: Scan, e: char, c: char, rest: Line)
    requires Ready(t, cfg, delim, esc, s, Escaped(e, c, rest))
    ensures Shows(t, cfg, delim, esc, s, Escaped(e, c, rest))
    decreases Escaped(e, c, rest), 0
  {
    hide Shows, Stands, Text, Prev, Nests, Depth, Hides, Scanned, Step, Tracks, LeadOf, NulFree, BehindBlank, AtCut, After, Freed;
    var l := Escaped(e, c, rest);
    ReadyFacts(t, cfg, delim, esc, s, l);
    Sizes(l);
    EscapedStands(t, s.i, e, c, rest);
    NoCut(t, s.i, s.stack, delim);
    EscapedShown(t, cfg, esc, s);
    Goes(t, cfg, delim, esc, s);
    ScanShows(t, cfg, delim, esc, Step(t, cfg, esc, s), rest);
    ShowsOn(t, cfg, delim, esc, s, l, Step(t, cfg, esc, s), Freed(e, c, cfg), rest, c == ' ');
  }

  lemma {:induction false} GroupedShows(t: string, cfg: Config, delim: char, esc: bool, s: Scan, open: char, inner: Line, rest: Line)
    requires Ready(t, cfg, delim, esc, s, Group(open, inner, rest))
    ensures Shows(t, cfg, delim, esc, s, Group(open, inner, rest))
    decreases Group(open, inner, rest), 0
  {
    hide Shows, Stands, Text, Prev, Nests, Depth, Hides, Scanned, Step, Tracks, LeadOf, NulFree, BehindBlank, AtCut, After, Printed;
    var l := Group(open, inner, rest);
    ReadyFacts(t, cfg, delim, esc, s, l);
    Sizes(l);
    GroupStands(t, s.i, open, inner, rest);
    GroupShows(t, cfg, delim, esc, s, open, inner);
    var shown := [open] + Printed(inner, cfg, false) + [Close(open)];
    assert s.out + [open] + Printed(inner, cfg, false) + [Close(open)] == s.out + shown;
    var s2 := Scan(s.i + 2 + |Text(inner)|, s.out + shown, false, s.stack);
    PrevIs(t, s2.i, esc);
    BlankNext(t, cfg, s2.i);
    ScanShows(t, cfg, delim, esc, s2, rest);
    PrintedGroup(open, inner, rest, cfg, BehindBlank(t, cfg, s.i));
    ShowsOn(t, cfg, delim, esc, s, l, s2, shown, rest, false);
  }

  lemma {:induction false} BracesShow(t: string, cfg: Config, delim: char, esc: bool, s: Scan, inner: Line, rest: Line)
    requires Ready(t, cfg, delim, esc, s, Braced(inner, rest))
    ensures Shows(t, cfg, delim, esc, s, Braced(inner, rest))
    decreases Braced(inner, rest), 0
  {
    hide Shows, Stands, Text, Prev, Nests, Depth, Hides, Scanned, Step, Tracks, LeadOf, NulFree, BehindBlank, AtCut, After, Within, InBraces,
      BraceGroup;
    var l := Braced(inner, rest);
    ReadyFacts(t, cfg, delim, esc, s, l);
    Sizes(l);
    BracedStands(t, s.i, inner, rest);
    NoCut(t, s.i, s.stack, delim);
    BraceShown(t, cfg, esc, s);
    BracedShows(t, cfg, s, inner, rest);
    Goes(t, cfg, delim, esc, s);
    ScanShows(t, cfg, delim, esc, Step(t, cfg, esc, s), rest);
    var shown := if cfg.strip then Within(inner, cfg) else "{" + Within(inner, cfg) + "}";
    ShowsOn(t, cfg, delim, esc, s, l, Step(t, cfg, esc, s), shown, rest, false);
  }

  /** Over a line that nests the scanner writes what `Printed` says and is back at its stack. */
  lemma {:induction false} ScanShows(t: string, cfg: Config, delim: char, esc: bool, s: Scan, l: Line)
    requires Ready(t, cfg, delim, esc, s, l)
    ensures Shows(t, cfg, delim, esc, s, l)
    decreases l, 1
  {
    hide Shows, Stands, Nests, Depth, Hides, Prev, NulFree, LeadOf, After;
    match l {
      case End => ShowsEnd(t, cfg, delim, esc, s);
      case Plain(c, rest) => PlainShows(t, cfg, delim, esc, s, c, rest);
      case Escaped(e, c, rest) => EscapedShows(t, cfg, delim, esc, s, e, c, rest);
      case Group(open, inner, rest) => GroupedShows(t, cfg, delim, esc, s, open, inner, rest);
      case Braced(inner, rest) => BracesShow(t, cfg, delim, esc, s, inner, rest);
    }
  }

  /** One turn of the scanner that is no cut. */
  lemma Goes(t: string, cfg: Config, delim: char, esc: bool, s: Scan)
    requires s.i < |t| && !AtCut(t, s.i, s.stack, delim) && Tracks(t, cfg, s) && NulFree(t)
    ensures var r := Step(t, cfg, esc, s);
      && Scanned(t, cfg, delim, esc, s) == Scanned(t, cfg, delim, esc, r) && Tracks(t, cfg, r)
      && Prev(t, r.i, esc) == t[r.i - 1] && (BehindBlank(t, cfg, r.i) <==> t[r.i - 1] == ' ')
  {
    hide Step, AtCut, Tracks, NulFree, LeadOf;
    TracksLead(t, cfg, s);
    ScanStep(t, cfg, delim, esc, s);
    StepTracks(t, cfg, esc, s);
  }

  lemma {:induction false} GroupShows(t: string, cfg: Config, delim: char, esc: bool, s: Scan, open: char, inner: Line)
    requires Tracks(t, cfg, s) && NulFree(t)
    requires var k := s.i + 1 + |Text(inner)|; k < |t| && t[s.i] == open && Stands(t, s.i + 1, inner) && t[k] == Close(open)
    requires open == '(' || (open == '[' && Prev(t, s.i, esc) != ESC)
    requires Nests(inner, open) && |s.stack| + 1 + Depth(inner) <= 32 && (s.stack == [] ==> open != delim)
    ensures var r := Scan(s.i + 2 + |Text(inner)|, s.out + [open] + Printed(inner, cfg, false) + [Close(open)], false, s.stack);
      Tracks(t, cfg, r) && Scanned(t, cfg, delim, esc, s) == Scanned(t, cfg, delim, esc, r)
    decreases inner, 2
  {
    hide Stands, Text, Prev, Nests, Depth, Scanned, Step, Tracks, LeadOf, NulFree, BehindBlank, AtCut, OnlyBlanks, Printed;
    var k := s.i + 1 + |Text(inner)|;
    NoCut(t, s.i, s.stack, delim);
    OpenShown(t, cfg, esc, s, open);
    Goes(t, cfg, delim, esc, s);
    var s1 := Scan(s.i + 1, s.out + [open], false, s.stack + [Close(open)]);
    ScanShows(t, cfg, delim, esc, s1, inner);
    assert Shows(t, cfg, delim, esc, s1, inner);
    assert (s.stack + [Close(open)])[|s.stack|] == Close(open);
    NoCut(t, k, s1.stack, delim);
    CloseShown(t, cfg, esc, k, s1.out + Printed(inner, cfg, false), false, s.stack, open);
    Goes(t, cfg, delim, esc, After(t, cfg, s1, inner));
  }

  // ---------------------------------------------------------------------
  // The piece
  // ---------------------------------------------------------------------

  /** What follows the line: nothing, or the delimiter and anything behind it. */
  predicate Tail(tail: string, delim: char) {
    tail != [] ==> tail[0] == delim && delim != '\\' && delim != '%' && delim != '{'
  }

  /** Blanks skipped in front of the line, if any are. */
  predicate Skipped(g: string, l: Line, tail: string, cfg: Config) {
    if (cfg.spaceCompress || cfg.stripLs) && !cfg.noCompress then
      && (forall i :: 0 <= i < |g| ==> IsSpace(g[i]))
      && (Text(l) + tail != [] ==> !IsSpace((Text(l) + tail)[0]))
    else g == ""
  }

  /** A line with blanks in front of it and `tail` behind, one that parse_to reads as it is meant. */
  predicate Readable(g: string, l: Line, delim: char, tail: string, cfg: Config, esc: bool) {
    var t := g + (Text(l) + tail);
    && Skipped(g, l, tail, cfg) && NulFree(t) && Nests(l, Prev(t, |g|, esc)) && Depth(l) <= 32 && Hides(l, delim)
    && Tail(tail, delim)
  }

  /** The piece without one trailing blank, if that is to go. */
  function Trimmed(l: Line, cfg: Config): string {
    var s := Printed(l, cfg, false);
    if (cfg.spaceCompress || cfg.stripTs) && !cfg.noCompress && Text(l) != "" && Text(l)[|Text(l)| - 1] == ' ' && !OnlyBlanks(l)
       && s != ""
    then s[..|s| - 1] else s
  }

  lemma {:induction false} LeadPasses(g: string, u: string, i: nat)
    requires i <= |g| && (u != [] ==> !IsSpace(u[0])) && forall i :: 0 <= i < |g| ==> IsSpace(g[i])
    ensures SkipLead(g + u, i) == |g|
    decreases |g| - i
  {
    if i < |g| {
      LeadPasses(g, u, i + 1);
    } else if u != [] {
      assert (g + u)[i] == u[0];
    }
  }

  lemma LeadIs(g: string, l: Line, tail: string, cfg: Config)
    requires Skipped(g, l, tail, cfg)
    ensures LeadOf(g + (Text(l) + tail), cfg) == |g|
  {
    hide Text;
    if cfg.SkipsLead() { LeadPasses(g, Text(l) + tail, 0); }
  }

  lemma StartTracks(t: string, cfg: Config)
    ensures Tracks(t, cfg, Scan(LeadOf(t, cfg), [], true, []))
  {
  }

  /** The scan from the start of a line that nests, up to the delimiter behind it. */
  lemma ParsedShows(g: string, l: Line, delim: char, tail: string, cfg: Config, esc: bool)
    requires Readable(g, l, delim, tail, cfg, esc)
    ensures Parsed(g + (Text(l) + tail), cfg, delim, esc) == Scan(|g| + |Text(l)|, Printed(l, cfg, false), OnlyBlanks(l), [])
  {
    hide Text, Printed, OnlyBlanks, Nests, Depth, Hides, NulFree, Scanned, Tracks, Skipped, LeadOf, Prev;
    var t := g + (Text(l) + tail);
    LeadIs(g, l, tail, cfg);
    StartTracks(t, cfg);
    LineStands(g, l, tail);
    assert g + Text(l) + tail == t;
    var s := Scan(|g|, [], true, []);
    ScanShows(t, cfg, delim, esc, s, l);
    assert [] + Printed(l, cfg, false) == Printed(l, cfg, false);
    AtDelimiter(g + Text(l), delim, tail, cfg, esc, After(t, cfg, s, l));
  }

  lemma AtDelimiter(u: string, delim: char, tail: string, cfg: Config, esc: bool, s: Scan)
    requires s.i == |u| && s.stack == [] && Tail(tail, delim)
    ensures Scanned(u + tail, cfg, delim, esc, s) == s
  {
    if tail != [] { assert (u + tail)[|u|] == delim; }
  }

  /** The piece in front of the delimiter is the line with its blanks compressed and trimmed, its
      backslashes and outer braces dropped, each only if asked for, and with nothing else changed. */
  lemma PieceShows(g: string, l: Line, delim: char, tail: string, cfg: Config, esc: bool)
    requires Readable(g, l, delim, tail, cfg, esc) && !cfg.stripAround
    ensures Parsed(g + (Text(l) + tail), cfg, delim, esc).i == |g| + |Text(l)|
    ensures Piece(g + (Text(l) + tail), cfg, delim, esc) == Trimmed(l, cfg)
  {
    hide Text, Printed, OnlyBlanks, Readable, Parsed;
    var t := g + (Text(l) + tail);
    ParsedShows(g, l, delim, tail, cfg, esc);
    if Text(l) != "" {
      assert t[|g| + |Text(l)| - 1] == Text(l)[|Text(l)| - 1];
    } else {
      EmptyLine(l);
    }
  }

  lemma EmptyLine(l: Line)
    requires Text(l) == ""
    ensures OnlyBlanks(l)
  {
  }

  lemma {:induction false} TrimLeadAll(a: string, s: string)
    requires (forall i :: 0 <= i < |a| ==> IsSpace(a[i])) && (s != [] ==> !IsSpace(s[0]))
    ensures TrimLead(a + s) == s
  {
    if a == [] {
      assert a + s == s;
    } else {
      assert (a + s)[1..] == a[1..] + s;
      TrimLeadAll(a[1..], s);
    }
  }

  lemma {:induction false} TrimEndAll(s: string, b: string)
    requires (forall i :: 0 <= i < |b| ==> IsSpace(b[i])) && (s != [] ==> !IsSpace(s[|s| - 1]))
    ensures TrimEnd(s + b) == s
  {
    if b == [] {
      assert s + b == s;
    } else {
      assert (s + b)[..|s + b| - 1] == s + b[..|b| - 1];
      TrimEndAll(s, b[..|b| - 1]);
    }
  }

  /** Asked to, the cleanup drops the braces around the whole piece, and the blanks inside them at
      either end if blanks are compressed or stripped there; a piece without such braces stays. */
  lemma AroundDrops(cfg: Config, a: string, s: string, b: string)
    requires cfg.stripAround && s != [] && !IsSpace(s[0]) && !IsSpace(s[|s| - 1])
    requires (forall i :: 0 <= i < |a| ==> IsSpace(a[i])) && (forall i :: 0 <= i < |b| ==> IsSpace(b[i]))
    ensures var squeeze := cfg.spaceCompress && !cfg.noCompress;
      Around(cfg, "{" + (a + s + b) + "}") == (if squeeze || cfg.stripLs then "" else a) + s + if squeeze || cfg.stripTs then "" else b
    ensures s[0] != '{' || s[|s| - 1] != '}' ==> Around(cfg, s) == s
  {
    var u := "{" + (a + s + b) + "}";
    assert u[1..|u| - 1] == a + s + b;
    InsideDrops(cfg, a, s, b);
    hide Inside;
  }

  lemma InsideDrops(cfg: Config, a: string, s: string, b: string)
    requires s != [] && !IsSpace(s[0]) && !IsSpace(s[|s| - 1])
    requires (forall i :: 0 <= i < |a| ==> IsSpace(a[i])) && (forall i :: 0 <= i < |b| ==> IsSpace(b[i]))
    ensures var squeeze := cfg.spaceCompress && !cfg.noCompress;
      Inside(cfg, a + s + b) == (if squeeze || cfg.stripLs then "" else a) + s + if squeeze || cfg.stripTs then "" else b
  {
    hide TrimLead, TrimEnd;
    TrimLeadAll(a, s + b);
    TrimEndAll(s, b);
    TrimEndAll(a + s, b);
    assert a + s + b == a + (s + b) && "" + s + b == s + b && "" + s + "" == s && a + s + "" == a + s;
  }

  // ---------------------------------------------------------------------
  // Argument lists
  // ---------------------------------------------------------------------

  /** An argument: a line, with blanks in front of it. */
  datatype Arg = Arg(gap: string, line: Line)

  /** The arguments with commas between them. */
  function Listed(args: seq<Arg>): string
    requires args != []
  {
    args[0].gap + (Text(args[0].line) + if |args| == 1 then "" else "," + Listed(args[1..]))
  }

  /** What follows the first argument. */
  function Behind(args: seq<Arg>): string
    requires args != []
  {
    if |args| == 1 then "" else "," + Listed(args[1..])
  }

  /** Every argument nests and hides its commas. */
  predicate ArgsReadable(args: seq<Arg>, cfg: Config, esc: bool) {
    args != [] ==>
      && Readable(args[0].gap, args[0].line, ',', Behind(args), cfg, esc)
      && ArgsReadable(args[1..], cfg, false)
  }

  function AllTrimmed(args: seq<Arg>, cfg: Config): (r: seq<string>)
    ensures |r| == |args| && forall i :: 0 <= i < |args| ==> r[i] == Trimmed(args[i].line, cfg)
  {
    if args == [] then [] else [Trimmed(args[0].line, cfg)] + AllTrimmed(args[1..], cfg)
  }

  /** The text of the list, taken apart behind its first argument. */
  lemma ListedParts(args: seq<Arg>)
    requires args != []
    ensures Listed(args) == args[0].gap + (Text(args[0].line) + Behind(args))
    ensures var c := |args[0].gap| + |Text(args[0].line)|;
      if |args| == 1 then Behind(args) == "" else c < |Listed(args)| && Listed(args)[c + 1..] == Listed(args[1..])
  {
    hide Text;
    if |args| > 1 {
      assert Listed(args) == (args[0].gap + Text(args[0].line) + ",") + Listed(args[1..]);
    }
  }

  lemma ArgsOn(t: string, cfg: Config, n: nat, esc: bool, c: nat)
    requires n > 1 && c < |t| && Parsed(t, cfg, ',', esc).i == c
    ensures Args(t, cfg, n, esc) == [Piece(t, cfg, ',', esc)] + Args(t[c + 1..], cfg, n - 1, false)
  {
    hide Parsed, Piece;
  }

  /** With room for all of them, an argument list comes apart into its arguments, each as `Trimmed`
      says: commas inside brackets or braces, and escaped ones, split nothing. */
  lemma {:induction false} ArgsShow(args: seq<Arg>, cfg: Config, n: nat, esc: bool)
    requires 0 < |args| <= n && ArgsReadable(args, cfg, esc) && !cfg.stripAround
    ensures Args(Listed(args), cfg, n, esc) == AllTrimmed(args, cfg)
    decreases |args|
  {
    hide Text, Parsed, Piece, Trimmed, Readable, Listed, Behind, Args;
    var g, l := args[0].gap, args[0].line;
    ListedParts(args);
    if |args| == 1 {
      LastArg(g, l, cfg, n, esc);
    } else {
      PieceShows(g, l, ',', Behind(args), cfg, esc);
      ArgsOn(Listed(args), cfg, n, esc, |g| + |Text(l)|);
      ArgsShow(args[1..], cfg, n - 1, false);
    }
  }

  lemma LastArg(g: string, l: Line, cfg: Config, n: nat, esc: bool)
    requires n > 0 && Readable(g, l, ',', "", cfg, esc) && !cfg.stripAround
    ensures Args(g + (Text(l) + ""), cfg, n, esc) == [Trimmed(l, cfg)]
  {
    hide Text, Parsed, Piece, Trimmed, Readable;
    if n == 1 {
      NulDelimiter(g, l, cfg, esc);
      PieceShows(g, l, '\0', "", cfg, esc);
    } else {
      PieceShows(g, l, ',', "", cfg, esc);
      assert |g + (Text(l) + "")| == |g| + |Text(l)|;
    }
  }

  /** A C string hides the zero character. */
  lemma NulDelimiter(g: string, l: Line, cfg: Config, esc: bool)
    requires Readable(g, l, ',', "", cfg, esc)
    ensures Readable(g, l, '\0', "", cfg, esc)
  {
    hide Nests, Depth, Prev, Skipped;
    var t := g + (Text(l) + "");
    forall i | 0 <= i < |Text(l)| ensures Text(l)[i] != '\0' {
      assert t[|g| + i] == Text(l)[i];
    }
    HidesNul(l);
  }

  lemma {:induction false} HidesNul(l: Line)
    requires forall i :: 0 <= i < |Text(l)| ==> Text(l)[i] != '\0'
    ensures Hides(l, '\0')
  {
    match l {
      case End =>
      case Plain(c, rest) =>
        assert forall i :: 0 <= i < |Text(rest)| ==> Text(rest)[i] == Text(l)[i + 1];
        assert Text(l)[0] == c;
        HidesNul(rest);
      case Escaped(e, c, rest) =>
        assert forall i :: 0 <= i < |Text(rest)| ==> Text(rest)[i] == Text(l)[i + 2];
        HidesNul(rest);
      case Group(open, inner, rest) =>
        assert forall i :: 0 <= i < |Text(rest)| ==> Text(rest)[i] == Text(l)[i + 2 + |Text(inner)|];
        assert Text(l)[0] == open;
        HidesNul(rest);
      case Braced(inner, rest) =>
        assert forall i :: 0 <= i < |Text(rest)| ==> Text(rest)[i] == Text(l)[i + 2 + |Text(inner)|];
        HidesNul(rest);
    }
  }
}
