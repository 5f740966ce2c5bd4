/** With no flags a piece is the text in front of the cut, and arguments join up to the text
    they were split from. */
module LineJoin {
  import opened CString
  import opened LineSplit
  import opened LineCut

  lemma {:induction false} BraceKeeps(t: string, b: Brace, k: nat)
    requires k <= b.i <= |t| && b.out == t[k..b.i]
    ensures var r := BraceRun(t, PLAIN, b); r.out == t[k..r.i]
    decreases |t| - b.i, b.level
  {
    if b.i < |t| && b.level > 0 {
      var b' := BraceStep(t, PLAIN, b);
      assert b'.out == t[k..b'.i];
      BraceKeeps(t, b', k);
    }
  }

  lemma {:induction false} ScanKeeps(t: string, delim: char, esc: bool, s: Scan)
    requires s.i <= |t| && s.out == t[..s.i]
    ensures var r := Scanned(t, PLAIN, delim, esc, s); r.out == t[..r.i]
    decreases |t| - s.i
  {
    if s.i < |t| && !AtCut(t, s.i, s.stack, delim) {
      if t[s.i] == '{' {
        assert s.out + ['{'] == t[0..s.i + 1];
        BraceKeeps(t, Brace(s.i + 1, s.out + ['{'], 1), 0);
      }
      var s' := Step(t, PLAIN, esc, s);
      assert s'.out == t[..s'.i];
      ScanKeeps(t, delim, esc, s');
    }
  }

  /** Without flags the piece is exactly the text in front of the cut. */
  lemma PlainPiece(t: string, delim: char, esc: bool)
    ensures Piece(t, PLAIN, delim, esc) == t[..Parsed(t, PLAIN, delim, esc).i]
    ensures Parsed(t, PLAIN, delim, esc).i == Cut(t, 0, [], delim, esc)
  {
    ScanKeeps(t, delim, esc, Scan(0, [], true, []));
    ScanFollowsCut(t, PLAIN, delim, esc, Scan(0, [], true, []));
  }

  lemma {:induction false} NulNeverCuts(t: string, i: nat, stack: string, esc: bool)
    requires i <= |t| && NulFree(t)
    ensures Cut(t, i, stack, '\0', esc) == |t|
    decreases |t| - i
  {
    if i < |t| {
      if Escape(t[i]) {
        NulNeverCuts(t, if i + 1 < |t| then i + 2 else i + 1, stack, esc);
      } else if Closer(t[i]) {
        NulNeverCuts(t, i + 1, if t[i] in stack then Unwind(stack, t[i]) else stack, esc);
      } else if t[i] == '{' {
        NulNeverCuts(t, BraceEnd(t, i + 1, 1), stack, esc);
      } else {
        NulNeverCuts(t, i + 1, Open(stack, t[i], Prev(t, i, esc)), esc);
      }
    }
  }

  lemma JoinCons(x: string, rest: seq<string>)
    requires rest != []
    ensures Join([x] + rest) == x + [','] + Join(rest)
  {
    assert ([x] + rest)[1..] == rest;
  }

  /** Joining the arguments with commas gives back the text that was split. */
  lemma {:induction false} JoinArgs(t: string, n: nat, esc: bool)
    requires n > 0 && NulFree(t)
    ensures Join(Args(t, PLAIN, n, esc)) == t
    decreases n
  {
    hide Piece, Parsed, Cut, Join;
    if n == 1 {
      PlainPiece(t, '\0', esc);
      NulNeverCuts(t, 0, [], esc);
      JoinOne(t);
    } else {
      PlainPiece(t, ',', esc);
      CutAtDelimiter(t, 0, [], ',', esc);
      var c := Parsed(t, PLAIN, ',', esc).i;
      if c == |t| {
        JoinOne(t);
        assert [t] + [] == [t];
      } else {
        JoinArgs(t[c + 1..], n - 1, false);
        JoinCons(t[..c], Args(t[c + 1..], PLAIN, n - 1, false));
        assert t == t[..c] + [','] + t[c + 1..];
      }
    }
  }

  lemma JoinOne(t: string)
    ensures Join([t]) == t && t[..|t|] == t
  {
  }

  /** With compression off and no flags, the arguments of parse_arglist joined with commas
      are the text in front of the closing delimiter. */
  lemma ArglistJoins(t: string, n: nat, delim: char, esc: bool)
    requires n > 0 && NulFree(t)
    ensures Join(Args(Piece(t, PLAIN, delim, esc), PLAIN, n, esc)) == t[..Cut(t, 0, [], delim, esc)]
  {
    PlainPiece(t, delim, esc);
    JoinArgs(t[..Cut(t, 0, [], delim, esc)], n, esc);
  }
}
