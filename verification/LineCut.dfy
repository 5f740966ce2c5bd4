/** Where parse_to cuts a line: at the place a plain nesting scan finds, whatever the flags. */
module LineCut {
  import opened CString
  import opened LineSplit

  lemma {:induction false} BraceEndIsWhereTheRunEnds(t: string, cfg: Config, b: Brace)
    requires b.i <= |t| && b.level > 0
    ensures var r := BraceRun(t, cfg, b);
      BraceEnd(t, b.i, b.level) == if r.level == 0 && r.i < |t| then r.i + 1 else r.i
    decreases |t| - b.i
  {
    if b.i < |t| {
      var b' := BraceStep(t, cfg, b);
      if b'.level > 0 {
        BraceEndIsWhereTheRunEnds(t, cfg, b');
      } else {
        assert BraceRun(t, cfg, b') == b';
      }
    }
  }

  /** The scanner leaves a braced group where the reference scan does. */
  lemma GroupEnd(t: string, cfg: Config, s: Scan)
    requires s.i < |t| && t[s.i] == '{'
    ensures var r := BraceGroup(t, cfg, s); r.i == BraceEnd(t, s.i + 1, 1) && r.stack == s.stack
  {
    hide BraceRun, BraceEnd;
    BraceEndIsWhereTheRunEnds(t, cfg, Brace(s.i + 1, if cfg.strip then s.out else s.out + ['{'], 1));
  }

  /** One turn of the scanner, and the place where the reference scan goes on. */
  lemma StepFollowsCut(t: string, cfg: Config, delim: char, esc: bool, s: Scan)
    requires s.i < |t| && !AtCut(t, s.i, s.stack, delim)
    ensures var r := Step(t, cfg, esc, s); Cut(t, s.i, s.stack, delim, esc) == Cut(t, r.i, r.stack, delim, esc)
  {
    hide BraceGroup, BraceEnd, AtCut, Unwind, Open, Prev, Shrink, Ordinary;
    if Escape(t[s.i]) {
    } else if Closer(t[s.i]) {
    } else if t[s.i] == '{' {
      GroupEnd(t, cfg, s);
    }
  }

  lemma {:induction false} ScanFollowsCut(t: string, cfg: Config, delim: char, esc: bool, s: Scan)
    requires s.i <= |t|
    ensures Scanned(t, cfg, delim, esc, s).i == Cut(t, s.i, s.stack, delim, esc)
    decreases |t| - s.i
  {
    hide Step, AtCut;
    if s.i < |t| && !AtCut(t, s.i, s.stack, delim) {
      StepFollowsCut(t, cfg, delim, esc, s);
      ScanFollowsCut(t, cfg, delim, esc, Step(t, cfg, esc, s));
    }
  }

  /** Leading blanks open nothing and are not the delimiter. */
  lemma {:induction false} CutSkipsLead(t: string, i: nat, delim: char, esc: bool)
    requires i <= |t| && !IsSpace(delim)
    ensures Cut(t, SkipLead(t, i), [], delim, esc) == Cut(t, i, [], delim, esc)
    decreases |t| - i
  {
    if i < |t| && IsSpace(t[i]) {
      CutSkipsLead(t, i + 1, delim, esc);
    }
  }

  /** The flags change what is returned, never where the line is cut. */
  lemma CutIgnoresFlags(t: string, cfg: Config, delim: char, esc: bool)
    requires !IsSpace(delim)
    ensures Parsed(t, cfg, delim, esc).i == Cut(t, 0, [], delim, esc)
  {
    ScanFollowsCut(t, cfg, delim, esc, Scan(LeadOf(t, cfg), [], true, []));
    CutSkipsLead(t, 0, delim, esc);
  }

  /** The cut is at a delimiter. */
  lemma {:induction false} CutAtDelimiter(t: string, i: nat, stack: string, delim: char, esc: bool)
    requires i <= |t|
    ensures var r := Cut(t, i, stack, delim, esc); r < |t| ==> t[r] == delim
    decreases |t| - i
  {
    if i < |t| && !AtCut(t, i, stack, delim) {
      if Escape(t[i]) {
        CutAtDelimiter(t, if i + 1 < |t| then i + 2 else i + 1, stack, delim, esc);
      } else if Closer(t[i]) {
        CutAtDelimiter(t, i + 1, if t[i] in stack then Unwind(stack, t[i]) else stack, delim, esc);
      } else if t[i] == '{' {
        CutAtDelimiter(t, BraceEnd(t, i + 1, 1), stack, delim, esc);
      } else {
        CutAtDelimiter(t, i + 1, Open(stack, t[i], Prev(t, i, esc)), delim, esc);
      }
    }
  }

  predicate Plain(c: char) {
    Ordinary(c) && c != '[' && c != '('
  }

  /** On text without brackets, braces or escapes the cut is the first delimiter. */
  lemma {:induction false} PlainCutIsFirst(t: string, i: nat, delim: char, esc: bool)
    requires i <= |t| && (forall j :: i <= j < |t| ==> Plain(t[j]))
    ensures var r := Cut(t, i, [], delim, esc); forall j :: i <= j < r ==> t[j] != delim
    decreases |t| - i
  {
    if i < |t| && !AtCut(t, i, [], delim) {
      PlainCutIsFirst(t, i + 1, delim, esc);
    }
  }
}
