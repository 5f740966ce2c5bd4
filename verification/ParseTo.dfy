/** parse_to and parse_arglist (src/eval.c) as they are: the line is split inside its
    own buffer, with a read cursor, a write cursor that never passes it, and a bounded
    stack of expected closers.  The result is that of the functions in `LineSplit`. */
module ParseTo {
  import opened CString
  import opened Wrappers
  import opened LineSplit
  import opened LineCursor

  /** The NUL-terminated string at `start` is `t`. */
  ghost predicate Line(buf: array<char>, start: nat, t: string)
    reads buf
  {
    && start + |t| < buf.Length
    && buf[start..start + |t|] == t
    && buf[start + |t|] == '\0'
    && NulFree(t)
  }

  /** `esc` says whether the cell before the line is an escape; the caller vouches for
      the one before the buffer. */
  ghost predicate EscFits(buf: array<char>, start: nat, esc: bool)
    reads buf
  {
    0 < start <= buf.Length ==> esc == (buf[start - 1] == ESC)
  }

  /** The buffer during a scan: `out` has been written from `rstr` up to the write cursor,
      which is not ahead of the read cursor; everything from the read cursor on, the cell
      before it, and everything before `rstr` are as they were in `orig`. */
  ghost predicate Mem(buf: array<char>, orig: seq<char>, rstr: nat, cstr: nat, zstr: nat, out: string)
    reads buf
  {
    && |orig| == buf.Length
    && rstr <= zstr <= cstr < buf.Length
    && zstr == rstr + |out| && buf[rstr..zstr] == out
    && (forall k :: cstr <= k < buf.Length ==> buf[k] == orig[k])
    && (forall k :: 0 <= k < rstr ==> buf[k] == orig[k])
    && (cstr > rstr ==> buf[cstr - 1] == orig[cstr - 1])
    && (out == [] ==> buf[rstr] == orig[rstr] || buf[rstr] == ' ')
  }

  /** The one case in which parse_to_cleanup looks in front of the line: both strip flags, and a
      group at the start of which nothing is left. */
  predicate Peeks(t: string, cfg: Config, delim: char, esc: bool) {
    && cfg.strip && cfg.stripAround && t != [] && t[0] == '{' && LeadOf(t, cfg) == 0
    && Parsed(t, cfg, delim, esc).out == []
  }

  /** There is something in front of the line, and it is no closing brace. */
  ghost predicate Guarded(buf: array<char>, start: nat)
    reads buf
  {
    0 < start <= buf.Length && buf[start - 1] != '}'
  }

  /** Does the first of `n` arguments make parse_to_cleanup look in front of the line? */
  predicate FirstPeeks(t: string, cfg: Config, delim: char, n: nat, esc: bool) {
    var outer := PLAIN.(spaceCompress := cfg.spaceCompress);
    LeadOf(t, outer) == 0 && Peeks(Piece(t, outer, delim, esc), cfg, if n > 1 then ',' else '\0', esc)
  }

  /** NEXTCHAR: copy one character back over the gap, if there is one. */
  method NextChar(buf: array<char>, cstr: nat, zstr: nat, ghost orig: seq<char>, ghost rstr: nat, ghost out: string)
    returns (c: nat, z: nat)
    requires Mem(buf, orig, rstr, cstr, zstr, out) && cstr + 1 < buf.Length
    modifies buf
    ensures c == cstr + 1 && z == zstr + 1 && Mem(buf, orig, rstr, c, z, out + [orig[cstr]])
  {
    if cstr != zstr {
      buf[zstr] := buf[cstr];
    }
    c, z := cstr + 1, zstr + 1;
  }

  /** The loop over a braced group; the cursor is behind the opening brace. */
  method BraceLoop(buf: array<char>, cstr0: nat, zstr0: nat, cfg: Config,
                   ghost orig: seq<char>, ghost rstr: nat, ghost start: nat, ghost t: string, ghost b0: Brace)
    returns (cstr: nat, zstr: nat, level: nat)
    requires Mem(buf, orig, rstr, cstr0, zstr0, b0.out) && cstr0 == start + b0.i && b0.i <= |t| && b0.level == 1
    requires start + |t| < |orig| && orig[start..start + |t|] == t && orig[start + |t|] == '\0' && NulFree(t)
    modifies buf
    ensures var r := BraceRun(t, cfg, b0);
      Mem(buf, orig, rstr, cstr, zstr, r.out) && cstr == start + r.i && level == r.level
  {
    hide Mem, NulFree, BraceStep;
    cstr, zstr, level := cstr0, zstr0, 1;
    ghost var b := b0;
    MemHere(buf, orig, rstr, cstr, zstr, b.out, start, t, b.i);
    while buf[cstr] != '\0' && level > 0
      invariant b.i <= |t| && cstr == start + b.i && level == b.level && Mem(buf, orig, rstr, cstr, zstr, b.out)
      invariant BraceRun(t, cfg, b) == BraceRun(t, cfg, b0)
      invariant cstr < buf.Length && (buf[cstr] != '\0' <==> b.i < |t|)
      decreases |t| - b.i, level
    {
      cstr, zstr, level := BraceTurnOne(buf, cstr, zstr, level, cfg, orig, rstr, start, t, b);
      b := BraceStep(t, cfg, b);
      MemHere(buf, orig, rstr, cstr, zstr, b.out, start, t, b.i);
    }
  }

  lemma MemHere(buf: array<char>, orig: seq<char>, rstr: nat, cstr: nat, zstr: nat, out: string, start: nat, t: string, i: nat)
    requires Mem(buf, orig, rstr, cstr, zstr, out) && i <= |t| && cstr == start + i
    requires start + |t| < |orig| && orig[start..start + |t|] == t && orig[start + |t|] == '\0' && NulFree(t)
    ensures cstr < buf.Length && (buf[cstr] != '\0' <==> i < |t|)
  {
    if i < |t| { assert orig[cstr] == orig[start..start + |t|][i] == t[i]; }
  }

  /** One turn of the brace loop. */
  method BraceTurnOne(buf: array<char>, cstr0: nat, zstr0: nat, level0: nat, cfg: Config,
                      ghost orig: seq<char>, ghost rstr: nat, ghost start: nat, ghost t: string, ghost b: Brace)
    returns (cstr: nat, zstr: nat, level: nat)
    requires Mem(buf, orig, rstr, cstr0, zstr0, b.out) && cstr0 == start + b.i && b.i < |t| && level0 == b.level > 0
    requires start + |t| < |orig| && orig[start..start + |t|] == t && orig[start + |t|] == '\0' && NulFree(t)
    modifies buf
    ensures var r := BraceStep(t, cfg, b);
      Mem(buf, orig, rstr, cstr, zstr, r.out) && cstr == start + r.i && level == r.level
  {
    cstr, zstr, level := cstr0, zstr0, level0;
    ghost var out := b.out;
    assert orig[cstr] == t[b.i];
    if buf[cstr] == '\\' || buf[cstr] == '%' {
      assert orig[cstr + 1] == if b.i + 1 < |t| then t[b.i + 1] else '\0';
      if buf[cstr + 1] != '\0' {
        if buf[cstr] == '\\' && cfg.stripEsc {
          cstr := cstr + 1;
        } else {
          cstr, zstr := NextChar(buf, cstr, zstr, orig, rstr, out);
          out := out + [t[b.i]];
        }
      }
    } else if buf[cstr] == '{' {
      level := level + 1;
    } else if buf[cstr] == '}' {
      level := level - 1;
    }
    if level > 0 {
      cstr, zstr := NextChar(buf, cstr, zstr, orig, rstr, out);
    }
  }

  /** What parse_to_cleanup leaves of the output `out` between `rstr0` and `cstr`: the piece at
      `rstr`, and nothing else changed but cells up to the cut. */
  ghost predicate Cleaned(buf: array<char>, orig: seq<char>, cfg: Config, first: bool, cstr: nat, rstr0: nat, rstr: nat,
                          out: string)
    reads buf
  {
    && |orig| == buf.Length && cstr < buf.Length && (!first ==> cstr > 0)
    && (var cut := if cfg.TrimsEnd() && !first && orig[cstr - 1] == ' ' then Shrink(out) else out;
        Line(buf, rstr, Around(cfg, cut)) && rstr0 <= rstr && rstr + |Around(cfg, cut)| <= cstr)
    && (forall k :: 0 <= k < rstr0 ==> buf[k] == orig[k])
    && (forall k :: cstr < k < buf.Length ==> buf[k] == orig[k])
    && (buf[cstr] == orig[cstr] || buf[cstr] == '\0') && (!cfg.stripAround ==> rstr == rstr0)
  }

  /** parse_to_cleanup, on the output `s.out` between `rstr` and `zstr`. */
  method Cleanup(buf: array<char>, cfg: Config, first: bool, cstr: nat, rstr0: nat, zstr0: nat,
                 ghost orig: seq<char>, ghost out: string) returns (rstr: nat)
    requires Mem(buf, orig, rstr0, cstr, zstr0, out) && NulFree(out)
    requires !first ==> cstr > rstr0 && (orig[cstr - 1] == ' ' ==> EndsBlank(out))
    requires cfg.stripAround && out == [] && orig[rstr0] == '{' ==> rstr0 > 0 && orig[rstr0 - 1] != '}'
    modifies buf
    ensures Cleaned(buf, orig, cfg, first, cstr, rstr0, rstr, out)
  {
    hide Around, NulFree, EndsBlank, Mem, Shrink, Line;
    MemSize(buf, orig, rstr0, cstr, zstr0, out);
    var blank := (cfg.spaceCompress || cfg.stripTs) && !cfg.noCompress && !first && buf[cstr - 1] == ' ';
    ghost var cut := if blank then Shrink(out) else out;
    CutReady(buf, orig, cfg, first, cstr, rstr0, zstr0, out, blank);
    var zstr := if blank then zstr0 - 1 else zstr0;
    rstr, zstr := StripAround(buf, cfg, rstr0, zstr, cut);
    Terminate(buf, rstr, zstr);
  }

  method Terminate(buf: array<char>, rstr: nat, zstr: nat)
    requires rstr <= zstr < buf.Length && NulFree(buf[rstr..zstr])
    modifies buf
    ensures Line(buf, rstr, old(buf[rstr..zstr]))
    ensures forall k :: 0 <= k < buf.Length && k != zstr ==> buf[k] == old(buf[k])
    ensures buf[zstr] == '\0'
  {
    hide NulFree;
    ghost var piece := buf[rstr..zstr];
    buf[zstr] := '\0';
    assert buf[rstr..zstr] == piece;
  }

  /** The output without its trailing blank, as StripAround wants it. */
  lemma CutReady(buf: array<char>, orig: seq<char>, cfg: Config, first: bool, cstr: nat, rstr: nat, zstr: nat, out: string,
                 blank: bool)
    requires Mem(buf, orig, rstr, cstr, zstr, out) && NulFree(out)
    requires !first ==> cstr > rstr && (orig[cstr - 1] == ' ' ==> EndsBlank(out))
    requires cfg.stripAround && out == [] && orig[rstr] == '{' ==> rstr > 0 && orig[rstr - 1] != '}'
    requires blank == (cfg.TrimsEnd() && !first && buf[cstr - 1] == ' ')
    ensures blank == (cfg.TrimsEnd() && !first && orig[cstr - 1] == ' ')
    ensures var cut := if blank then Shrink(out) else out; var z := rstr + |cut|;
      && z == (if blank then zstr - 1 else zstr) && z <= cstr < buf.Length == |orig|
      && buf[rstr..z] == cut && NulFree(cut)
      && (cfg.stripAround && cut == [] && buf[rstr] == '{' ==> rstr > 0 && buf[rstr - 1] != '}')
    ensures forall k :: (0 <= k < rstr || cstr <= k < buf.Length) ==> buf[k] == orig[k]
  {
    hide NulFree;
    if blank {
      BlankEnd(out);
      assert buf[rstr..zstr][..|out| - 1] == buf[rstr..zstr - 1];
      assert buf[rstr..zstr][0] == buf[rstr] == out[0];
    }
  }

  lemma BlankEnd(out: string)
    requires EndsBlank(out) && NulFree(out)
    ensures NulFree(Shrink(out)) && out != [] && out[|out| - 1] == ' '
  {
  }

  method StripAround(buf: array<char>, cfg: Config, rstr0: nat, zstr0: nat, ghost cut: string) returns (rstr: nat, zstr: nat)
    requires rstr0 <= zstr0 < buf.Length && buf[rstr0..zstr0] == cut && NulFree(cut)
    requires cfg.stripAround && cut == [] && buf[rstr0] == '{' ==> rstr0 > 0 && buf[rstr0 - 1] != '}'
    modifies buf
    ensures rstr0 <= rstr <= zstr <= zstr0 && buf[rstr..zstr] == Around(cfg, cut) && NulFree(buf[rstr..zstr])
    ensures forall k :: (0 <= k < rstr0 || zstr0 <= k < buf.Length) ==> buf[k] == old(buf[k])
    ensures !cfg.stripAround ==> rstr == rstr0
  {
    hide Inside;
    rstr, zstr := rstr0, zstr0;
    assert cut != [] ==> cut[0] == buf[rstr] && cut[|cut| - 1] == buf[zstr - 1];
    if cfg.stripAround && buf[rstr] == '{' && buf[zstr - 1] == '}' {
      rstr, zstr := Unbrace(buf, cfg, rstr, zstr, cut);
    }
  }

  method TrimFront(buf: array<char>, rstr0: nat, zstr: nat) returns (rstr: nat)
    requires rstr0 <= zstr < buf.Length && buf[zstr] == '}' && NulFree(buf[rstr0..zstr])
    ensures rstr0 <= rstr <= zstr && buf[rstr..zstr] == TrimLead(buf[rstr0..zstr])
    ensures NulFree(buf[rstr..zstr])
  {
    rstr := rstr0;
    while buf[rstr] != '\0' && IsSpace(buf[rstr])
      invariant rstr0 <= rstr <= zstr && TrimLead(buf[rstr..zstr]) == TrimLead(buf[rstr0..zstr])
      invariant NulFree(buf[rstr..zstr])
      decreases zstr - rstr
    {
      assert buf[rstr..zstr][1..] == buf[rstr + 1..zstr];
      rstr := rstr + 1;
    }
    assert rstr < zstr ==> buf[rstr..zstr][0] == buf[rstr];
  }

  method TrimBack(buf: array<char>, rstr: nat, zstr0: nat) returns (zstr: nat)
    requires 0 < rstr <= zstr0 < buf.Length && buf[rstr - 1] == '\0' && NulFree(buf[rstr..zstr0])
    ensures rstr <= zstr <= zstr0 && buf[rstr..zstr] == TrimEnd(buf[rstr..zstr0]) && NulFree(buf[rstr..zstr])
  {
    zstr := zstr0;
    while buf[zstr - 1] != '\0' && IsSpace(buf[zstr - 1])
      invariant rstr <= zstr <= zstr0 && TrimEnd(buf[rstr..zstr]) == TrimEnd(buf[rstr..zstr0])
      invariant NulFree(buf[rstr..zstr])
      decreases zstr - rstr
    {
      assert buf[rstr..zstr][..zstr - rstr - 1] == buf[rstr..zstr - 1];
      zstr := zstr - 1;
    }
    assert rstr < zstr ==> buf[rstr..zstr][zstr - rstr - 1] == buf[zstr - 1];
  }

  /** Drop the braces around the piece, trimming inside them as the flags say. */
  method Unbrace(buf: array<char>, cfg: Config, rstr0: nat, zstr0: nat, ghost cut: string) returns (rstr: nat, zstr: nat)
    requires rstr0 <= zstr0 < buf.Length && buf[rstr0..zstr0] == cut && Braced(cut) && NulFree(cut)
    modifies buf
    ensures rstr0 <= rstr <= zstr < zstr0 && buf[rstr..zstr] == Inside(cfg, cut[1..|cut| - 1])
    ensures NulFree(buf[rstr..zstr])
    ensures forall k :: (0 <= k < rstr0 || zstr0 <= k < buf.Length) ==> buf[k] == old(buf[k])
  {
    rstr, zstr := rstr0 + 1, zstr0 - 1;
    assert buf[rstr..zstr] == cut[1..|cut| - 1];
    assert buf[zstr] == cut[|cut| - 1];
    if cfg.Squeezes() || cfg.stripLs {
      rstr := TrimFront(buf, rstr, zstr);
    }
    ghost var m1 := buf[rstr..zstr];
    buf[rstr - 1] := '\0';
    assert buf[rstr..zstr] == m1;
    if cfg.Squeezes() || cfg.stripTs {
      zstr := TrimBack(buf, rstr, zstr);
    }
  }

  /** Find the innermost open bracket that `c` closes; -1 when there is none. */
  method FindOpen(stack: array<char>, sp: nat, c: char) returns (tp: int)
    requires sp <= stack.Length
    ensures -1 <= tp < sp
    ensures tp == -1 <==> c !in stack[..sp]
    ensures tp >= 0 ==> stack[..tp] == Unwind(stack[..sp], c)
  {
    tp := sp - 1;
    while tp >= 0 && stack[tp] != c
      invariant -1 <= tp < sp && c !in stack[tp + 1..sp] && Unwind(stack[..tp + 1], c) == Unwind(stack[..sp], c)
    {
      assert stack[..tp + 1][..tp] == stack[..tp];
      tp := tp - 1;
    }
    if tp >= 0 {
      assert stack[..tp + 1][..tp] == stack[..tp];
      assert c == stack[..sp][tp];
    } else {
      assert stack[tp + 1..sp] == stack[..sp];
    }
  }

  /** Where the scanner stands: cursors, stack and buffer agree with the scan `s`. */
  ghost predicate At(buf: array<char>, orig: seq<char>, start: nat, rstr: nat, cstr: nat, zstr: nat, first: bool,
                     stack: array<char>, sp: nat, t: string, cfg: Config, s: Scan)
    reads buf, stack
  {
    && Mem(buf, orig, rstr, cstr, zstr, s.out)
    && s.i <= |t| && cstr == start + s.i && rstr == start + LeadOf(t, cfg) && first == s.first
    && stack.Length == STACK_LIMIT && sp <= STACK_LIMIT && stack[..sp] == s.stack
    && Tracks(t, cfg, s)
  }

  /** The text at `start` as the buffer first held it. */
  ghost predicate Orig(orig: seq<char>, start: nat, t: string) {
    start + |t| < |orig| && orig[start..start + |t|] == t && orig[start + |t|] == '\0' && NulFree(t)
  }

  lemma OrigAt(orig: seq<char>, start: nat, t: string, i: nat)
    requires Orig(orig, start, t) && i <= |t|
    ensures start + |t| < |orig| && orig[start + i] == (if i < |t| then t[i] else '\0') && NulFree(t)
  {
    if i < |t| { assert orig[start..start + |t|][i] == orig[start + i]; }
  }

  /** `\` and `%`: copy the next character whatever it is. */
  method EscapeTurn(buf: array<char>, cstr0: nat, zstr0: nat, cfg: Config,
                    ghost orig: seq<char>, ghost start: nat, ghost rstr: nat, ghost t: string, ghost s: Scan)
    returns (cstr: nat, zstr: nat)
    requires Orig(orig, start, t) && s.i < |t| && Escape(t[s.i]) && cstr0 == start + s.i
    requires Mem(buf, orig, rstr, cstr0, zstr0, s.out)
    modifies buf
    ensures var r := Step(t, cfg, false, s); cstr == start + r.i && Mem(buf, orig, rstr, cstr, zstr, r.out)
  {
    hide Step, Mem, NulFree, Orig;
    cstr, zstr := cstr0, zstr0;
    ghost var out := s.out;
    MemAhead(buf, orig, rstr, cstr, zstr, out);
    OrigAt(orig, start, t, s.i);
    OrigAt(orig, start, t, s.i + 1);
    NotNul(t, s.i + 1);
    EscapeStep(t, cfg, s);
    if buf[cstr] == '\\' && cfg.stripEsc {
      Skip(buf, orig, rstr, cstr, zstr, out);
      cstr := cstr + 1;
    } else {
      cstr, zstr := NextChar(buf, cstr, zstr, orig, rstr, out);
      out := out + [t[s.i]];
    }
    MemAhead(buf, orig, rstr, cstr, zstr, out);
    if buf[cstr] != '\0' {
      cstr, zstr := NextChar(buf, cstr, zstr, orig, rstr, out);
    }
  }

  /** An escape takes the next character along, if there is one. */
  lemma EscapeStep(t: string, cfg: Config, s: Scan)
    requires s.i < |t| && Escape(t[s.i])
    ensures var r := Step(t, cfg, false, s); var out := if t[s.i] == '\\' && cfg.stripEsc then s.out else s.out + [t[s.i]];
      if s.i + 1 < |t| then r.i == s.i + 2 && r.out == out + [t[s.i + 1]] else r.i == s.i + 1 && r.out == out
  {
  }

  /** What is still to be read is as it was. */
  lemma MemAhead(buf: array<char>, orig: seq<char>, rstr: nat, cstr: nat, zstr: nat, out: string)
    requires Mem(buf, orig, rstr, cstr, zstr, out)
    ensures |orig| == buf.Length && cstr < buf.Length && forall k :: cstr <= k < buf.Length ==> buf[k] == orig[k]
  {
  }

  lemma Skip(buf: array<char>, orig: seq<char>, rstr: nat, cstr: nat, zstr: nat, out: string)
    requires Mem(buf, orig, rstr, cstr, zstr, out) && cstr + 1 < buf.Length
    ensures Mem(buf, orig, rstr, cstr + 1, zstr, out)
  {
  }

  lemma MemSize(buf: array<char>, orig: seq<char>, rstr: nat, cstr: nat, zstr: nat, out: string)
    requires Mem(buf, orig, rstr, cstr, zstr, out)
    ensures |orig| == buf.Length && cstr < buf.Length && (cstr > rstr ==> buf[cstr - 1] == orig[cstr - 1])
  {
  }

  /** Copy one character, after taking a blank just written back when `drop` is set. */
  method Copy(buf: array<char>, cstr: nat, zstr0: nat, drop: bool, ghost orig: seq<char>, ghost rstr: nat, ghost out: string)
    returns (c: nat, z: nat)
    requires Mem(buf, orig, rstr, cstr, zstr0, out) && cstr + 1 < buf.Length && (drop ==> out != [])
    modifies buf
    ensures c == cstr + 1 && Mem(buf, orig, rstr, c, z, (if drop then Shrink(out) else out) + [orig[cstr]])
  {
    var zstr := if drop then zstr0 - 1 else zstr0;
    assert buf[rstr..zstr] == if drop then Shrink(out) else out;
    if cstr != zstr {
      buf[zstr] := buf[cstr];
    }
    c, z := cstr + 1, zstr + 1;
  }

  /** `{`: copy or strip the whole group. */
  method BraceTurn(buf: array<char>, cstr0: nat, zstr0: nat, cfg: Config,
                   ghost orig: seq<char>, ghost start: nat, ghost rstr: nat, ghost t: string, ghost s: Scan)
    returns (cstr: nat, zstr: nat)
    requires Orig(orig, start, t) && s.i < |t| && t[s.i] == '{' && cstr0 == start + s.i
    requires Mem(buf, orig, rstr, cstr0, zstr0, s.out)
    modifies buf
    ensures var r := BraceGroup(t, cfg, s); cstr == start + r.i && Mem(buf, orig, rstr, cstr, zstr, r.out)
  {
    hide BraceRun, BraceStep, NulFree, Mem;
    cstr, zstr := cstr0, zstr0;
    MemSize(buf, orig, rstr, cstr, zstr, s.out);
    OrigAt(orig, start, t, s.i);
    if cfg.strip {
      Skip(buf, orig, rstr, cstr, zstr, s.out);
      cstr := cstr + 1;
    } else {
      cstr, zstr := NextChar(buf, cstr, zstr, orig, rstr, s.out);
    }
    ghost var b0 := Brace(s.i + 1, if cfg.strip then s.out else s.out + ['{'], 1);
    var level;
    assert NulFree(t) && cstr == start + b0.i;
    cstr, zstr, level := BraceLoop(buf, cstr, zstr, cfg, orig, rstr, start, t, b0);
    BraceStops(t, cfg, b0);
    cstr, zstr := CloseGroup(buf, cstr, zstr, level == 0, cfg, orig, start, rstr, t, s, BraceRun(t, cfg, b0));
  }

  /** Behind the braces: take the closing one along, or drop it when stripping. */
  method CloseGroup(buf: array<char>, cstr0: nat, zstr0: nat, closed: bool, cfg: Config,
                    ghost orig: seq<char>, ghost start: nat, ghost rstr: nat, ghost t: string, ghost s: Scan, ghost b: Brace)
    returns (cstr: nat, zstr: nat)
    requires Orig(orig, start, t) && s.i < |t| && t[s.i] == '{' && b.i <= |t| && cstr0 == start + b.i
    requires b == BraceRun(t, cfg, Brace(s.i + 1, if cfg.strip then s.out else s.out + ['{'], 1))
    requires closed == (b.level == 0) && (closed ==> b.i < |t|)
    requires Mem(buf, orig, rstr, cstr0, zstr0, b.out)
    modifies buf
    ensures var r := BraceGroup(t, cfg, s); cstr == start + r.i && Mem(buf, orig, rstr, cstr, zstr, r.out)
  {
    hide BraceRun, BraceGroup, NulFree, Mem, Orig;
    GroupEnds(t, cfg, s, b);
    OrigAt(orig, start, t, s.i);
    cstr, zstr := cstr0, zstr0;
    MemSize(buf, orig, rstr, cstr, zstr, b.out);
    if b.i < |t| { OrigAt(orig, start, t, b.i); }
    if cfg.strip && closed {
      Skip(buf, orig, rstr, cstr, zstr, b.out);
      cstr := cstr + 1;
    } else if closed {
      cstr, zstr := NextChar(buf, cstr, zstr, orig, rstr, b.out);
    }
  }

  lemma GroupEnds(t: string, cfg: Config, s: Scan, b: Brace)
    requires s.i < |t| && t[s.i] == '{'
    requires b == BraceRun(t, cfg, Brace(s.i + 1, if cfg.strip then s.out else s.out + ['{'], 1))
    ensures var r := BraceGroup(t, cfg, s); var closed := b.level == 0 && b.i < |t|;
      r.i == (if closed then b.i + 1 else b.i) && r.out == if closed && !cfg.strip then b.out + [t[b.i]] else b.out
  {
    hide BraceRun;
  }

  lemma {:induction false} BraceStops(t: string, cfg: Config, b: Brace)
    requires b.i <= |t| && b.level > 0
    ensures var r := BraceRun(t, cfg, b); r.level == 0 ==> r.i < |t|
    decreases |t| - b.i
  {
    if b.i < |t| {
      var b' := BraceStep(t, cfg, b);
      if b'.level > 0 { BraceStops(t, cfg, b'); }
    }
  }

  method PushOpen(stack: array<char>, sp0: nat, c: char) returns (sp: nat)
    requires stack.Length == STACK_LIMIT && sp0 <= STACK_LIMIT
    modifies stack
    ensures sp <= STACK_LIMIT && stack[..sp] == Push(old(stack[..sp0]), c)
  {
    sp := sp0;
    if sp < STACK_LIMIT {
      stack[sp] := c;
      sp := sp + 1;
    }
  }

  /** `[` unless an escape stands in front of it, and `(`, are pushed. */
  method OpenBracket(stack: array<char>, sp0: nat, c: char, escaped: bool, ghost prev: char) returns (sp: nat)
    requires stack.Length == STACK_LIMIT && sp0 <= STACK_LIMIT && (escaped <==> prev == ESC)
    modifies stack
    ensures sp <= STACK_LIMIT && stack[..sp] == Open(old(stack[..sp0]), c, prev)
  {
    sp := sp0;
    if c == '[' {
      if !escaped {
        sp := PushOpen(stack, sp, ']');
      }
    } else if c == '(' {
      sp := PushOpen(stack, sp, ')');
    }
  }

  /** An ordinary character: squeeze blanks, push brackets, copy. */
  method OrdinaryTurn(buf: array<char>, cstr0: nat, zstr0: nat, rstr0: nat, first0: bool, stack: array<char>, sp0: nat,
                      cfg: Config, esc: bool, base: nat,
                      ghost orig: seq<char>, ghost start: nat, ghost t: string, ghost s: Scan)
    returns (cstr: nat, zstr: nat, rstr: nat, first: bool, sp: nat)
    requires Orig(orig, start, t) && s.i < |t| && Ordinary(t[s.i]) && base == start
    requires At(buf, orig, start, rstr0, cstr0, zstr0, first0, stack, sp0, t, cfg, s)
    requires buf != stack
    modifies buf, stack
    ensures rstr == rstr0 && At(buf, orig, start, rstr, cstr, zstr, first, stack, sp, t, cfg, Step(t, cfg, esc, s))
  {
    hide LeadOf, SkipLead, NulFree, Open, Step, Tracks, Shrink;
    cstr, zstr, first, sp := cstr0, zstr0, first0, sp0;
    var lead: int := rstr0;
    OrigAt(orig, start, t, s.i);
    OrdinaryStep(t, cfg, esc, s);
    if s.i > 0 { OrigAt(orig, start, t, s.i - 1); }
    sp := OpenBracket(stack, sp, buf[cstr], if cstr > base then buf[cstr - 1] == ESC else esc, Prev(t, s.i, esc));
    var drop := false;
    if buf[cstr] == ' ' {
      if cfg.spaceCompress && !cfg.noCompress {
        if first {
          lead := lead + 1;
        } else if buf[cstr - 1] == ' ' {
          drop := true;
        }
      }
    } else {
      first := false;
    }
    rstr := lead;
    cstr, zstr := Copy(buf, cstr, zstr, drop, orig, rstr0, s.out);
  }

  /** What one turn does with an ordinary character: a blank behind a blank takes its place. */
  lemma OrdinaryStep(t: string, cfg: Config, esc: bool, s: Scan)
    requires Tracks(t, cfg, s) && NulFree(t) && s.i < |t| && Ordinary(t[s.i])
    ensures var c := t[s.i]; var drop := c == ' ' && cfg.Squeezes() && s.i > 0 && t[s.i - 1] == ' ';
      && (c == ' ' && cfg.Squeezes() ==> !s.first && s.i > LeadOf(t, cfg)) && (drop ==> s.out != [])
      && Step(t, cfg, esc, s)
         == Scan(s.i + 1, (if drop then Shrink(s.out) else s.out) + [c], s.first && c == ' ', Open(s.stack, c, Prev(t, s.i, esc)))
    ensures Tracks(t, cfg, Step(t, cfg, esc, s))
  {
    hide LeadOf, NulFree, Open, Prev;
    StepTracks(t, cfg, esc, s);
  }

  /** A closing bracket that is not the delimiter. */
  method CloserTurn(buf: array<char>, cstr0: nat, zstr0: nat, stack: array<char>, sp0: nat, tp: int,
                    cfg: Config, ghost rstr: nat, ghost first0: bool,
                    ghost orig: seq<char>, ghost start: nat, ghost t: string, ghost esc: bool, ghost s: Scan)
    returns (cstr: nat, zstr: nat, sp: nat)
    requires Orig(orig, start, t) && s.i < |t| && Closer(t[s.i])
    requires At(buf, orig, start, rstr, cstr0, zstr0, first0, stack, sp0, t, cfg, s) && buf != stack
    requires -1 <= tp < sp0 && (tp == -1 <==> t[s.i] !in s.stack) && (tp >= 0 ==> stack[..tp] == Unwind(s.stack, t[s.i]))
    modifies buf
    ensures At(buf, orig, start, rstr, cstr, zstr, false, stack, sp, t, cfg, Step(t, cfg, esc, s))
  {
    hide LeadOf, SkipLead, NulFree;
    StepTracks(t, cfg, esc, s);
    OrigAt(orig, start, t, s.i);
    sp := if tp >= 0 then tp else sp0;
    cstr, zstr := NextChar(buf, cstr0, zstr0, orig, rstr, s.out);
  }

  method SkipBlanks(buf: array<char>, start: nat, ghost t: string) returns (rstr: nat)
    requires Line(buf, start, t)
    ensures rstr == start + SkipLead(t, 0)
  {
    rstr := start;
    while buf[rstr] != '\0' && IsSpace(buf[rstr])
      invariant start <= rstr <= start + |t| && SkipLead(t, rstr - start) == SkipLead(t, 0)
      decreases start + |t| - rstr
    {
      assert buf[start..start + |t|][rstr - start] == buf[rstr];
      rstr := rstr + 1;
    }
    assert rstr < start + |t| ==> buf[start..start + |t|][rstr - start] == buf[rstr];
  }

  /** One turn of the main loop. */
  method Turn(buf: array<char>, cstr0: nat, zstr0: nat, rstr0: nat, first0: bool, stack: array<char>, sp0: nat,
              delim: char, cfg: Config, esc: bool, base: nat,
              ghost orig: seq<char>, ghost t: string, ghost s: Scan)
    returns (cstr: nat, zstr: nat, rstr: nat, first: bool, sp: nat, cut: bool)
    requires Orig(orig, base, t) && s.i < |t| && buf != stack
    requires At(buf, orig, base, rstr0, cstr0, zstr0, first0, stack, sp0, t, cfg, s)
    modifies buf, stack
    ensures rstr == rstr0 && cut == AtCut(t, s.i, s.stack, delim)
    ensures At(buf, orig, base, rstr, cstr, zstr, first, stack, sp, t, cfg, if cut then s else Step(t, cfg, esc, s))
  {
    hide LeadOf, SkipLead, NulFree, BraceRun, Unwind, Open, Push;
    cstr, zstr, rstr, first, sp, cut := cstr0, zstr0, rstr0, first0, sp0, false;
    OrigAt(orig, base, t, s.i);
    StepTracks(t, cfg, esc, s);
    if buf[cstr] == '\\' || buf[cstr] == '%' {
      cstr, zstr := EscapeTurn(buf, cstr, zstr, cfg, orig, base, rstr, t, s);
      first := false;
    } else if buf[cstr] == ']' || buf[cstr] == ')' {
      var tp := FindOpen(stack, sp, buf[cstr]);
      if tp < 0 && buf[cstr] == delim {
        cut := true;
      } else {
        cstr, zstr, sp := CloserTurn(buf, cstr, zstr, stack, sp, tp, cfg, rstr, first, orig, base, t, esc, s);
        first := false;
      }
    } else if buf[cstr] == '{' {
      cstr, zstr := BraceTurn(buf, cstr, zstr, cfg, orig, base, rstr, t, s);
      first := false;
    } else if buf[cstr] == delim && sp == 0 {
      cut := true;
    } else {
      cstr, zstr, rstr, first, sp := OrdinaryTurn(buf, cstr, zstr, rstr, first, stack, sp, cfg, esc, base, orig, base, t, s);
    }
  }

  /** parse_to: cut the line at the delimiter.  Returns the piece in front of it and what
      follows it, or `None` for the rest when the delimiter does not occur. */
  method ParseTo(buf: array<char>, dstr: Option<nat>, delim: char, cfg: Config, esc: bool, ghost t: string)
    returns (piece: Option<nat>, rest: Option<nat>)
    requires dstr.Some? ==> Line(buf, dstr.value, t) && EscFits(buf, dstr.value, esc)
    requires dstr.Some? && Peeks(t, cfg, delim, esc) ==> Guarded(buf, dstr.value)
    modifies buf
    ensures dstr.None? ==> piece.None? && rest.None? && buf[..] == old(buf[..])
    ensures dstr.Some? ==> piece.Some? && Split(buf, old(buf[..]), dstr.value, delim, cfg, esc, t, piece.value, rest)
  {
    if dstr.None? {
      return None, None;
    }
    hide Piece, Parsed, Line, Split;
    var r;
    r, rest := Divide(buf, dstr.value, delim, cfg, esc, t);
    piece := Some(r);
  }

  /** The outcome of a split: the piece is in the buffer, and only cells of the piece and
      up to the cut have changed. */
  ghost predicate Split(buf: array<char>, orig: seq<char>, start: nat, delim: char, cfg: Config, esc: bool, t: string,
                        piece: nat, rest: Option<nat>)
    reads buf
  {
    var cut := Parsed(t, cfg, delim, esc).i;
    && |orig| == buf.Length && start + |t| < |orig| && start <= piece
    && Line(buf, piece, Piece(t, cfg, delim, esc))
    && piece + |Piece(t, cfg, delim, esc)| <= start + cut
    && rest == (if cut < |t| then Some(start + cut + 1) else None)
    && (forall k :: 0 <= k < start + LeadOf(t, cfg) ==> buf[k] == orig[k])
    && (forall k :: start + cut < k < buf.Length ==> buf[k] == orig[k])
    && (buf[start + cut] == orig[start + cut] || buf[start + cut] == '\0')
    && (!cfg.stripAround ==> piece == start + LeadOf(t, cfg))
  }

  method Divide(buf: array<char>, start: nat, delim: char, cfg: Config, esc: bool, ghost t: string)
    returns (piece: nat, rest: Option<nat>)
    requires Line(buf, start, t) && EscFits(buf, start, esc)
    requires Peeks(t, cfg, delim, esc) ==> Guarded(buf, start)
    modifies buf
    ensures Split(buf, old(buf[..]), start, delim, cfg, esc, t, piece, rest)
  {
    hide LeadOf, Parsed, NulFree, AtCut, EndsBlank, Tracks, Line, Mem, EscFits, Peeks, Guarded, Orig, Cleaned, Split;
    ghost var orig := buf[..];
    LineIsOrig(buf, start, t);
    GuardedAt(buf, start);
    var rstr := start;
    if (cfg.spaceCompress || cfg.stripLs) && !cfg.noCompress {
      rstr := SkipBlanks(buf, start, t);
    }
    LeadIs(t, cfg);
    var stack := new char[STACK_LIMIT];
    var cstr, zstr, first, cut;
    ghost var s;
    cstr, zstr, first, cut, s := MainLoop(buf, rstr, stack, delim, cfg, esc, start, orig, t);
    CleanupReady(orig, start, t, cfg, delim, esc, s);
    MemSize(buf, orig, rstr, cstr, zstr, s.out);
    piece := Cleanup(buf, cfg, first, cstr, rstr, zstr, orig, s.out);
    rest := if cut then Some(cstr + 1) else None;
    SplitDone(buf, orig, start, delim, cfg, esc, t, s, piece, rest);
  }

  lemma GuardedAt(buf: array<char>, start: nat)
    ensures Guarded(buf, start) ==> 0 < start <= buf.Length && buf[..][start - 1] != '}'
  {
  }

  lemma SplitDone(buf: array<char>, orig: seq<char>, start: nat, delim: char, cfg: Config, esc: bool, t: string, s: Scan,
                  piece: nat, rest: Option<nat>)
    requires Orig(orig, start, t) && s == Parsed(t, cfg, delim, esc)
    requires !s.first ==> s.i > LeadOf(t, cfg) && orig[start + s.i - 1] == t[s.i - 1]
    requires Cleaned(buf, orig, cfg, s.first, start + s.i, start + LeadOf(t, cfg), piece, s.out)
    requires rest == if s.i < |t| then Some(start + s.i + 1) else None
    ensures Split(buf, orig, start, delim, cfg, esc, t, piece, rest)
  {
    hide LeadOf, Parsed, Line, Around, Shrink;
  }

  method MainLoop(buf: array<char>, rstr0: nat, stack: array<char>, delim: char, cfg: Config, esc: bool, start: nat,
                  ghost orig: seq<char>, ghost t: string)
    returns (cstr: nat, zstr: nat, first: bool, cut: bool, ghost s: Scan)
    requires Orig(orig, start, t) && orig == buf[..] && rstr0 == start + LeadOf(t, cfg)
    requires stack.Length == STACK_LIMIT && buf != stack
    modifies buf, stack
    ensures s == Parsed(t, cfg, delim, esc) && cut == (s.i < |t|) && (s.i == |t| || AtCut(t, s.i, s.stack, delim))
    ensures Mem(buf, orig, rstr0, cstr, zstr, s.out) && cstr == start + s.i && first == s.first && Tracks(t, cfg, s)
  {
    hide LeadOf, Scanned, Step, NulFree, AtCut, At, Mem, Tracks, Orig;
    var rstr, sp := rstr0, 0;
    cstr, zstr, first, cut := rstr, rstr, true, false;
    s := Scan(LeadOf(t, cfg), [], true, []);
    AtStart(buf, orig, start, stack, t, cfg);
    ScannedFrom(t, cfg, delim, esc);
    OrigAt(orig, start, t, s.i);
    AtMeans(buf, orig, start, rstr, cstr, zstr, first, stack, sp, t, cfg, s);
    while !cut && buf[cstr] != '\0'
      invariant rstr == rstr0 && At(buf, orig, start, rstr, cstr, zstr, first, stack, sp, t, cfg, s)
      invariant cstr == start + s.i < buf.Length && s.i <= |t| && buf[cstr] == if s.i < |t| then t[s.i] else '\0'
      invariant Scanned(t, cfg, delim, esc, s) == Parsed(t, cfg, delim, esc)
      invariant cut ==> s.i < |t| && AtCut(t, s.i, s.stack, delim)
      decreases |t| - s.i, if cut then 0 else 1
    {
      NotNul(t, s.i);
      ScannedStops(t, cfg, delim, esc, s);
      cstr, zstr, rstr, first, sp, cut := Turn(buf, cstr, zstr, rstr, first, stack, sp, delim, cfg, esc, start, orig, t, s);
      if !cut { s := Step(t, cfg, esc, s); }
      AtMeans(buf, orig, start, rstr, cstr, zstr, first, stack, sp, t, cfg, s);
      OrigAt(orig, start, t, s.i);
    }
    NotNul(t, s.i);
    ScannedStops(t, cfg, delim, esc, s);
    AtMeans(buf, orig, start, rstr, cstr, zstr, first, stack, sp, t, cfg, s);
  }

  lemma AtStart(buf: array<char>, orig: seq<char>, start: nat, stack: array<char>, t: string, cfg: Config)
    requires Orig(orig, start, t) && orig == buf[..] && stack.Length == STACK_LIMIT
    ensures var r := start + LeadOf(t, cfg);
      At(buf, orig, start, r, r, r, true, stack, 0, t, cfg, Scan(LeadOf(t, cfg), [], true, []))
  {
    hide LeadOf;
    EmptyNulFree();
  }

  lemma ScannedFrom(t: string, cfg: Config, delim: char, esc: bool)
    ensures Scanned(t, cfg, delim, esc, Scan(LeadOf(t, cfg), [], true, [])) == Parsed(t, cfg, delim, esc)
  {
    hide Scanned;
  }

  lemma AtMeans(buf: array<char>, orig: seq<char>, start: nat, rstr: nat, cstr: nat, zstr: nat, first: bool,
                stack: array<char>, sp: nat, t: string, cfg: Config, s: Scan)
    requires At(buf, orig, start, rstr, cstr, zstr, first, stack, sp, t, cfg, s) && Orig(orig, start, t)
    ensures Mem(buf, orig, rstr, cstr, zstr, s.out) && cstr == start + s.i < buf.Length && first == s.first
    ensures Tracks(t, cfg, s) && s.i <= |t| && NulFree(t) && buf[cstr] == orig[cstr]
  {
    hide NulFree;
  }

  lemma LineIsOrig(buf: array<char>, start: nat, t: string)
    requires Line(buf, start, t)
    ensures Orig(buf[..], start, t)
  {
  }

  lemma LeadIs(t: string, cfg: Config)
    ensures LeadOf(t, cfg) == if cfg.SkipsLead() then SkipLead(t, 0) else 0
  {
  }

  lemma EmptyNulFree()
    ensures NulFree([])
  {
  }

  lemma NotNul(t: string, i: nat)
    requires NulFree(t)
    ensures i < |t| ==> t[i] != '\0'
  {
  }

  lemma ScannedStops(t: string, cfg: Config, delim: char, esc: bool, s: Scan)
    requires s.i <= |t|
    ensures Scanned(t, cfg, delim, esc, s) ==
      if s.i == |t| || AtCut(t, s.i, s.stack, delim) then s else Scanned(t, cfg, delim, esc, Step(t, cfg, esc, s))
  {
  }

  /** The cleanup looks in front of its cursors only where there is something to see. */
  lemma CleanupReady(orig: seq<char>, start: nat, t: string, cfg: Config, delim: char, esc: bool, s: Scan)
    requires Orig(orig, start, t) && Tracks(t, cfg, s) && s == Parsed(t, cfg, delim, esc)
    requires s.i == |t| || AtCut(t, s.i, s.stack, delim)
    requires Peeks(t, cfg, delim, esc) ==> start > 0 && orig[start - 1] != '}'
    ensures !s.first ==> s.i > LeadOf(t, cfg) && orig[start + s.i - 1] == t[s.i - 1]
    ensures !s.first && t[s.i - 1] == ' ' ==> EndsBlank(s.out)
    ensures NulFree(s.out)
    ensures var r := start + LeadOf(t, cfg);
      cfg.stripAround && s.out == [] && orig[r] == '{' ==> r > 0 && orig[r - 1] != '}'
  {
    hide Parsed;
    OrigAt(orig, start, t, LeadOf(t, cfg));
    if LeadOf(t, cfg) > 0 { OrigAt(orig, start, t, LeadOf(t, cfg) - 1); }
    if s.i > 0 { OrigAt(orig, start, t, s.i - 1); }
    OrigAt(orig, start, t, s.i);
  }

  // ---------------------------------------------------------------------
  // parse_arglist
  // ---------------------------------------------------------------------

  /** The string at `p`, copied out of the buffer. */
  method CopyString(buf: array<char>, p: nat, ghost t: string) returns (r: string)
    requires Line(buf, p, t)
    ensures r == t
  {
    assert forall i :: p <= i < p + |t| ==> buf[p..p + |t|][i - p] == buf[i];
    r := [];
    var k := p;
    while buf[k] != '\0'
      invariant p <= k <= p + |t| && r == t[..k - p]
      invariant buf[k] == if k < p + |t| then t[k - p] else '\0'
      decreases p + |t| - k
    {
      r := r + [buf[k]];
      k := k + 1;
    }
  }

  function Expand(ev: Option<string -> string>, s: string): string {
    if ev.Some? then (ev.value)(s) else s
  }

  function ExpandAll(ev: Option<string -> string>, ss: seq<string>): (r: seq<string>)
    ensures |r| == |ss|
  {
    seq(|ss|, i requires 0 <= i < |ss| => Expand(ev, ss[i]))
  }

  /** What follows the comma is a line of its own. */
  lemma RestIsLine(buf: array<char>, orig: seq<char>, start: nat, delim: char, cfg: Config, esc: bool, t: string,
                   piece: nat, rest: Option<nat>)
    requires Orig(orig, start, t) && Split(buf, orig, start, delim, cfg, esc, t, piece, rest)
    requires delim != ESC && delim != '}'
    ensures var cut := Parsed(t, cfg, delim, esc).i;
      cut < |t| ==> rest == Some(start + cut + 1) && Line(buf, start + cut + 1, t[cut + 1..])
                    && buf[start + cut] != ESC && buf[start + cut] != '}'
  {
    hide Piece, LeadOf, Line, Orig, Parsed;
    var cut := Parsed(t, cfg, delim, esc).i;
    if cut < |t| {
      OrigAt(orig, start, t, cut);
      CutDelimiter(t, cfg, delim, esc);
      TailIsLine(buf, orig, start, t, cut);
    }
  }

  lemma CutDelimiter(t: string, cfg: Config, delim: char, esc: bool)
    ensures var cut := Parsed(t, cfg, delim, esc).i; cut < |t| ==> t[cut] == delim
  {
    hide Scanned;
  }

  /** Behind an untouched cut the buffer holds the rest of the line. */
  lemma TailIsLine(buf: array<char>, orig: seq<char>, start: nat, t: string, cut: nat)
    requires Orig(orig, start, t) && cut < |t| && |orig| == buf.Length
    requires forall k :: start + cut < k < buf.Length ==> buf[k] == orig[k]
    ensures Line(buf, start + cut + 1, t[cut + 1..])
  {
    hide Orig;
    var u := t[cut + 1..];
    OrigAt(orig, start, t, |t|);
    forall k | 0 <= k < |u| ensures buf[start + cut + 1 + k] == u[k] { OrigAt(orig, start, t, cut + 1 + k); }
    assert buf[start + cut + 1..start + cut + 1 + |u|] == u;
    TailNulFree(t, cut + 1);
  }

  lemma TailNulFree(t: string, i: nat)
    requires NulFree(t) && i <= |t|
    ensures NulFree(t[i..])
  {
  }

  /** Split off one argument and copy it out. */
  method NextArg(buf: array<char>, start: nat, delim: char, cfg: Config, esc: bool, ghost t: string)
    returns (text: string, rest: Option<nat>)
    requires Line(buf, start, t) && EscFits(buf, start, esc) && delim != ESC && delim != '}'
    requires Peeks(t, cfg, delim, esc) ==> Guarded(buf, start)
    modifies buf
    ensures var cut := Parsed(t, cfg, delim, esc).i;
      && text == Piece(t, cfg, delim, esc) && rest == (if cut < |t| then Some(start + cut + 1) else None)
      && (rest.Some? ==>
            Line(buf, rest.value, t[cut + 1..]) && EscFits(buf, rest.value, false) && Guarded(buf, rest.value))
  {
    hide Piece, Parsed, Line, Split, Orig;
    ghost var orig := buf[..];
    LineIsOrig(buf, start, t);
    var tstr;
    tstr, rest := Divide(buf, start, delim, cfg, esc, t);
    SplitRest(buf, orig, start, delim, cfg, esc, t, tstr, rest);
    RestIsLine(buf, orig, start, delim, cfg, esc, t, tstr, rest);
    text := CopyString(buf, tstr, Piece(t, cfg, delim, esc));
  }

  /** The line at `start` can be split into at most `n` arguments. */
  ghost predicate Ready(buf: array<char>, start: nat, cfg: Config, n: nat, esc: bool, t: string)
    reads buf
  {
    && Line(buf, start, t) && EscFits(buf, start, esc)
    && (Peeks(t, cfg, Separator(n), esc) ==> Guarded(buf, start))
  }

  /** The last of the arguments takes all that is left. */
  function Separator(n: nat): char {
    if n > 1 then ',' else '\0'
  }

  lemma GuardedReady(buf: array<char>, start: nat, cfg: Config, n: nat, t: string)
    requires Line(buf, start, t) && EscFits(buf, start, false) && Guarded(buf, start)
    ensures Ready(buf, start, cfg, n, false, t)
  {
  }

  /** One of at most `n` arguments, and what is left for the others. */
  method SplitOne(buf: array<char>, start: nat, cfg: Config, n: nat, esc: bool, ghost t: string)
    returns (text: string, rest: Option<nat>, ghost u: string)
    requires n > 0 && Ready(buf, start, cfg, n, esc, t)
    modifies buf
    ensures rest.Some? && n > 1 ==> Ready(buf, rest.value, cfg, n - 1, false, u)
    ensures Args(t, cfg, n, esc) == [text] + if rest.Some? && n > 1 then Args(u, cfg, n - 1, false) else []
  {
    hide Piece, Parsed, Line, Args, EscFits, Peeks, Guarded;
    text, rest := NextArg(buf, start, Separator(n), cfg, esc, t);
    ghost var cut := Parsed(t, cfg, Separator(n), esc).i;
    u := if cut < |t| then t[cut + 1..] else [];
    ArgsOne(t, cfg, n, esc);
    if rest.Some? && n > 1 { GuardedReady(buf, rest.value, cfg, n - 1, u); }
  }

  /** The loop of parse_arglist: fill `fargs` with the pieces of the line at `rstr0`. */
  method FillArgs(buf: array<char>, rstr0: nat, cfg: Config, ev: Option<string -> string>, fargs: array<Option<string>>,
                  esc0: bool, ghost t: string)
    requires fargs.Length > 0 && Ready(buf, rstr0, cfg, fargs.Length, esc0, t)
    modifies buf, fargs
    ensures var args := ExpandAll(ev, Args(t, cfg, fargs.Length, esc0));
      && (forall k :: 0 <= k < |args| ==> fargs[k] == Some(args[k]))
      && (forall k :: |args| <= k < fargs.Length ==> fargs[k] == old(fargs[k]))
  {
    hide Args, ExpandAll, Expand, Ready;
    ghost var done, u, left := [], t, Args(t, cfg, fargs.Length, esc0);
    var arg, rstr, esc := 0, Some(rstr0), esc0;
    while arg < fargs.Length && rstr.Some?
      invariant 0 <= arg <= fargs.Length && arg == |done|
      invariant forall k :: 0 <= k < arg ==> fargs[k] == Some(Expand(ev, done[k]))
      invariant forall k :: arg <= k < fargs.Length ==> fargs[k] == old(fargs[k])
      invariant rstr.Some? && arg < fargs.Length ==>
        Ready(buf, rstr.value, cfg, fargs.Length - arg, esc, u) && left == Args(u, cfg, fargs.Length - arg, esc)
      invariant !(rstr.Some? && arg < fargs.Length) ==> left == []
      invariant Args(t, cfg, fargs.Length, esc0) == done + left
    {
      var text, rest;
      ghost var was := left;
      text, rest, u := SplitOne(buf, rstr.value, cfg, fargs.Length - arg, esc, u);
      fargs[arg] := Some(Expand(ev, text));
      left := if rest.Some? && fargs.Length - arg > 1 then Args(u, cfg, fargs.Length - arg - 1, false) else [];
      MovedOver(done, text, left);
      done := done + [text];
      rstr, esc := rest, false;
      arg := arg + 1;
    }
    assert done + left == done;
    ExpandedAt(ev, done);
  }

  lemma MovedOver(done: seq<string>, p: string, rest: seq<string>)
    ensures done + ([p] + rest) == (done + [p]) + rest
  {}

  lemma ExpandedAt(ev: Option<string -> string>, ss: seq<string>)
    ensures forall k :: 0 <= k < |ss| ==> ExpandAll(ev, ss)[k] == Expand(ev, ss[k])
  {
  }

  lemma ArgsOne(t: string, cfg: Config, n: nat, esc: bool)
    requires n > 0
    ensures n == 1 ==> Args(t, cfg, n, esc) == [Piece(t, cfg, '\0', esc)]
    ensures n > 1 ==> var c := Parsed(t, cfg, ',', esc).i;
      Args(t, cfg, n, esc) ==
      if c == |t| then [Piece(t, cfg, ',', esc)] else [Piece(t, cfg, ',', esc)] + Args(t[c + 1..], cfg, n - 1, false)
  {
    hide Piece, Parsed;
    var c := Parsed(t, cfg, ',', esc).i;
    assert [Piece(t, cfg, ',', esc)] + [] == [Piece(t, cfg, ',', esc)];
  }

  lemma SplitRest(buf: array<char>, orig: seq<char>, start: nat, delim: char, cfg: Config, esc: bool, t: string,
                  piece: nat, rest: Option<nat>)
    requires Split(buf, orig, start, delim, cfg, esc, t, piece, rest)
    ensures Line(buf, piece, Piece(t, cfg, delim, esc)) && |orig| == buf.Length
    ensures rest == if Parsed(t, cfg, delim, esc).i < |t| then Some(start + Parsed(t, cfg, delim, esc).i + 1) else None
  {
  }

  /** `parse_arglist`: cut the line at the closing delimiter and split what is in front of it. */
  method ParseArglist(buf: array<char>, dstr: Option<nat>, delim: char, cfg: Config, ev: Option<string -> string>,
                      fargs: array<Option<string>>, esc: bool, ghost t: string) returns (rest: Option<nat>)
    requires dstr.Some? ==> Line(buf, dstr.value, t) && EscFits(buf, dstr.value, esc)
    requires dstr.Some? && fargs.Length > 0 && FirstPeeks(t, cfg, delim, fargs.Length, esc) ==> Guarded(buf, dstr.value)
    modifies buf, fargs
    ensures dstr.None? ==> rest.None? && forall k :: 0 <= k < fargs.Length ==> fargs[k].None?
    ensures dstr.Some? ==> var outer := PLAIN.(spaceCompress := cfg.spaceCompress);
      var cut := Parsed(t, outer, delim, esc).i;
      && rest == (if cut < |t| then Some(dstr.value + cut + 1) else None)
      && (fargs.Length > 0 ==>
            var args := ExpandAll(ev, Args(Piece(t, outer, delim, esc), cfg, fargs.Length, esc && LeadOf(t, outer) == 0));
            forall k :: 0 <= k < fargs.Length ==> fargs[k] == if k < |args| then Some(args[k]) else None)
  {
    hide Piece, Parsed, Line, Orig, Args, ExpandAll, Expand, LeadOf, Split, Ready, EscFits, FirstPeeks, Guarded;
    ClearArgs(fargs);
    if dstr.None? {
      return None;
    }
    var start := dstr.value;
    ghost var orig := buf[..];
    LineIsOrig(buf, start, t);
    OuterReady(buf, start, t, cfg, delim, esc);
    var outer := PLAIN.(spaceCompress := cfg.spaceCompress);
    var r;
    r, rest := Divide(buf, start, delim, outer, esc, t);
    SplitRest(buf, orig, start, delim, outer, esc, t, r, rest);
    if fargs.Length > 0 {
      ReadyPiece(buf, orig, start, t, cfg, delim, fargs.Length, esc, r, rest);
      FillArgs(buf, r, cfg, ev, fargs, esc && r == start, Piece(t, outer, delim, esc));
    }
  }

  method ClearArgs(fargs: array<Option<string>>)
    modifies fargs
    ensures forall k :: 0 <= k < fargs.Length ==> fargs[k].None?
  {
    for arg := 0 to fargs.Length
      invariant forall k :: 0 <= k < arg ==> fargs[k].None?
    {
      fargs[arg] := None;
    }
  }

  /** The first split sets no flags; and what stands in front of the line is as it was. */
  lemma OuterReady(buf: array<char>, start: nat, t: string, cfg: Config, delim: char, esc: bool)
    requires Line(buf, start, t) && EscFits(buf, start, esc)
    ensures !Peeks(t, PLAIN.(spaceCompress := cfg.spaceCompress), delim, esc)
    ensures start > 0 ==> esc == (buf[..][start - 1] == ESC) && (Guarded(buf, start) <==> buf[..][start - 1] != '}')
    ensures start == 0 ==> !Guarded(buf, start)
  {
    hide Parsed;
  }

  /** The piece in front of the closing delimiter, ready to be split into arguments. */
  lemma ReadyPiece(buf: array<char>, orig: seq<char>, start: nat, t: string, cfg: Config, delim: char, n: nat, esc: bool,
                   piece: nat, rest: Option<nat>)
    requires n > 0 && Orig(orig, start, t) && (start > 0 ==> esc == (orig[start - 1] == ESC))
    requires Split(buf, orig, start, delim, PLAIN.(spaceCompress := cfg.spaceCompress), esc, t, piece, rest)
    requires FirstPeeks(t, cfg, delim, n, esc) ==> start > 0 && orig[start - 1] != '}'
    ensures var outer := PLAIN.(spaceCompress := cfg.spaceCompress);
      && piece == start + LeadOf(t, outer)
      && Ready(buf, piece, cfg, n, esc && LeadOf(t, outer) == 0, Piece(t, outer, delim, esc))
  {
    hide Parsed, Piece, LeadOf, Peeks, Line;
    BeforePiece(orig, start, t, PLAIN.(spaceCompress := cfg.spaceCompress));
    BeforeLead(t, cfg, n, delim, esc);
  }

  lemma BeforeLead(t: string, cfg: Config, n: nat, delim: char, esc: bool)
    ensures var outer := PLAIN.(spaceCompress := cfg.spaceCompress);
      LeadOf(t, outer) == 0 && Peeks(Piece(t, outer, delim, esc), cfg, Separator(n), esc) ==> FirstPeeks(t, cfg, delim, n, esc)
  {
    hide Parsed, Piece, LeadOf, Peeks;
  }

  /** Blanks skipped in front of the piece are neither escapes nor closing braces. */
  lemma BeforePiece(orig: seq<char>, start: nat, t: string, cfg: Config)
    requires Orig(orig, start, t)
    ensures LeadOf(t, cfg) > 0 ==> orig[start + LeadOf(t, cfg) - 1] != ESC && orig[start + LeadOf(t, cfg) - 1] != '}'
  {
    if LeadOf(t, cfg) > 0 { OrigAt(orig, start, t, LeadOf(t, cfg) - 1); }
  }
}
