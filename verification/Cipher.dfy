/** encrypt() and decrypt() of src/funceval.c: printable characters are shifted by the
    characters of a key, over and over; ANSI escapes and everything else pass through. */
module Cipher {
  import opened CString
  import opened Constants
  import opened FlatText

  const LO: int := 32
  const HI: int := 126
  const MOD: int := 95
  const ANSI_END: char := 'm'

  predicate Printable(c: char) {
    LO <= c as int <= HI
  }

  /** How many characters an escape sequence at the front takes: up to and with its end. */
  function EscapeLength(s: string): (r: nat)
    ensures r <= |s| && (s != [] ==> r > 0)
  {
    if s == [] then 0 else if s[0] == ANSI_END then 1 else 1 + EscapeLength(s[1..])
  }

  // ---------------------------------------------------------------------
  // The key
  // ---------------------------------------------------------------------

  /** crunch_code */
  function Crunch(s: string): string
    decreases |s|
  {
    if s == [] then []
    else if Printable(s[0]) then [s[0]] + Crunch(s[1..])
    else if s[0] == ESC then Crunch(s[EscapeLength(s)..])
    else Crunch(s[1..])
  }

  function StripAnsi(s: string): string
    decreases |s|
  {
    if s == [] then []
    else if s[0] == ESC then StripAnsi(s[EscapeLength(s)..])
    else [s[0]] + StripAnsi(s[1..])
  }

  function OnlyPrintable(s: string): string {
    if s == [] then [] else (if Printable(s[0]) then [s[0]] else []) + OnlyPrintable(s[1..])
  }

  predicate AllPrintable(s: string) {
    forall i :: 0 <= i < |s| ==> Printable(s[i])
  }

  /** What is left of a key are the printable characters outside escapes. */
  lemma {:induction false} CrunchIsFilter(s: string)
    ensures Crunch(s) == OnlyPrintable(StripAnsi(s)) && AllPrintable(Crunch(s))
    decreases |s|
  {
    if s != [] {
      if s[0] == ESC {
        CrunchIsFilter(s[EscapeLength(s)..]);
      } else {
        CrunchIsFilter(s[1..]);
        assert ([s[0]] + StripAnsi(s[1..]))[1..] == StripAnsi(s[1..]);
      }
    }
  }

  lemma {:induction false} CrunchPrintable(s: string)
    requires AllPrintable(s)
    ensures Crunch(s) == s
    decreases |s|
  {
    if s != [] { CrunchPrintable(s[1..]); }
  }

  /** Crunching twice is crunching once. */
  lemma CrunchTwice(s: string)
    ensures Crunch(Crunch(s)) == Crunch(s)
  {
    CrunchIsFilter(s);
    CrunchPrintable(Crunch(s));
  }

  // ---------------------------------------------------------------------
  // The text
  // ---------------------------------------------------------------------

  function Shift(c: char, q: char, encrypt: bool): char {
    if encrypt then (((c as int - LO) + (q as int - LO)) % MOD + LO) as char
    else (((c as int - q as int) + 2 * MOD) % MOD + LO) as char
  }

  function NextKey(key: string, q: nat): (r: nat)
    requires q < |key|
    ensures r < |key|
  {
    if q + 1 < |key| then q + 1 else 0
  }

  /** How many characters pass through together. */
  function PassLength(text: string): (r: nat)
    requires text != []
    ensures 0 < r <= |text|
  {
    if text[0] == ESC then EscapeLength(text) else 1
  }

  /** The text under the key, from position `q` of the key on. */
  function Shifted(key: string, q: nat, text: string, encrypt: bool): (r: string)
    requires q < |key|
    ensures |r| == |text|
    decreases |text|
  {
    if text == [] then []
    else if Printable(text[0]) then
      [Shift(text[0], key[q], encrypt)] + Shifted(key, NextKey(key, q), text[1..], encrypt)
    else text[..PassLength(text)] + Shifted(key, q, text[PassLength(text)..], encrypt)
  }

  lemma ShiftedPass(key: string, q: nat, text: string, encrypt: bool)
    requires q < |key| && text != [] && !Printable(text[0])
    ensures var k := PassLength(text);
      Shifted(key, q, text, encrypt) == text[..k] + Shifted(key, q, text[k..], encrypt)
  {}

  /** crypt_code, writing behind what is in the buffer already. */
  function Crypt(buff: string, code: string, text: string, encrypt: bool): string {
    var key := Crunch(code);
    CrunchIsFilter(code);
    if text == [] then buff
    else if key == [] then Fill(buff, text)
    else Fill(buff, Shifted(key, 0, text, encrypt))
  }

  lemma ShiftBack(c: char, q: char)
    requires Printable(c) && Printable(q)
    ensures Printable(Shift(c, q, true)) && Shift(Shift(c, q, true), q, false) == c
  {
    var x := (c as int - LO) + (q as int - LO);
    var y := x % MOD;
    assert y == x || y == x - MOD;
    assert Shift(c, q, true) as int == y + LO;
    var z := y + LO - q as int + 2 * MOD;
    assert z == c as int - LO + 2 * MOD || z == c as int - LO + MOD;
    assert z % MOD == c as int - LO;
  }

  /** An escape keeps its length when something else follows. */
  lemma {:induction false} EscapeStays(s: string, tail: string)
    requires |tail| == |s| - EscapeLength(s)
    ensures EscapeLength(s[..EscapeLength(s)] + tail) == EscapeLength(s)
  {
    if s != [] && s[0] != ANSI_END {
      EscapeStays(s[1..], tail);
      var k := EscapeLength(s);
      assert (s[..k] + tail)[1..] == s[1..][..k - 1] + tail;
    } else if s == [] {
      assert s[..0] + tail == [];
    }
  }

  /** Shifting back undoes shifting: the key keeps step, because what was printable still is
      and escapes are where they were. */
  lemma {:induction false} ShiftedBack(key: string, q: nat, text: string)
    requires q < |key| && AllPrintable(key)
    ensures Shifted(key, q, Shifted(key, q, text, true), false) == text
    decreases |text|
  {
    if text != [] {
      if Printable(text[0]) {
        ShiftedBack(key, NextKey(key, q), text[1..]);
        ShiftBack(text[0], key[q]);
        hide Shift, Printable;
        var s := Shifted(key, q, text, true);
        assert s[1..] == Shifted(key, NextKey(key, q), text[1..], true);
        assert text == [text[0]] + text[1..];
      } else {
        ShiftedBack(key, q, text[PassLength(text)..]);
        PassedBack(key, q, text);
      }
    }
  }

  /** What passes through together keeps its length and its first character. */
  lemma PassStays(text: string, u: string)
    requires text != [] && |u| == |text| - PassLength(text)
    ensures var s := text[..PassLength(text)] + u; s != [] && s[0] == text[0] && PassLength(s) == PassLength(text)
  {
    hide EscapeLength;
    if text[0] == ESC { EscapeStays(text, u); }
  }

  /** What passes through unchanged passes through unchanged again. */
  lemma PassedBack(key: string, q: nat, text: string)
    requires q < |key| && text != [] && !Printable(text[0])
    requires Shifted(key, q, Shifted(key, q, text[PassLength(text)..], true), false) == text[PassLength(text)..]
    ensures Shifted(key, q, Shifted(key, q, text, true), false) == text
  {
    hide Shifted, EscapeLength, Printable;
    var k := PassLength(text);
    var u := Shifted(key, q, text[k..], true);
    var s := text[..k] + u;
    ShiftedPass(key, q, text, true);
    PassStays(text, u);
    ShiftedPass(key, q, s, false);
    assert s[..k] == text[..k] && s[k..] == u;
    assert text == text[..k] + text[k..];
  }

  /** What crypt_code writes behind `buff`, when it has all the room it needs. */
  function Crypted(code: string, text: string, encrypt: bool): (r: string)
    ensures |r| == |text|
  {
    var key := Crunch(code);
    if key == [] then text else Shifted(key, 0, text, encrypt)
  }

  lemma CryptFits(buff: string, code: string, text: string, encrypt: bool)
    requires |buff| < LBUF_SIZE
    ensures Crypt(buff, code, text, encrypt) == Fits(buff + Crypted(code, text, encrypt))
  {
    hide Fill, Shifted;
    CrunchIsFilter(code);
    FillFits(buff, Crypted(code, text, encrypt));
    if text == [] { assert buff + Crypted(code, text, encrypt) == buff; }
  }

  lemma CryptedBack(code: string, text: string)
    ensures Crypted(code, Crypted(code, text, true), false) == text
  {
    CrunchIsFilter(code);
    if Crunch(code) != [] { ShiftedBack(Crunch(code), 0, text); }
  }

  /** Decrypting what was encrypted with the same code gives the text back, whatever was in the
      two buffers already, if and only if there was room for the text in both. */
  lemma DecryptEncrypt(before: string, after: string, code: string, text: string)
    requires |before| < LBUF_SIZE && |after| < LBUF_SIZE
    ensures var e := Crypt(before, code, text, true);
      && before <= e
      && (Crypt(after, code, e[|before|..], false) == after + text
          <==> |before| + |text| < LBUF_SIZE && |after| + |text| < LBUF_SIZE)
  {
    hide Crypt, Crypted;
    var c := Crypted(code, text, true);
    CryptFits(before, code, text, true);
    var e := Crypt(before, code, text, true);
    assert before <= before + c;
    var part := e[|before|..];
    CryptFits(after, code, part, false);
    CryptedBack(code, text);
    if |before| + |text| < LBUF_SIZE {
      assert part == c;
    } else {
      assert |part| < |text|;
    }
  }

  // ---------------------------------------------------------------------
  // Which character becomes which
  // ---------------------------------------------------------------------

  /** The characters that are shifted: printable, and not inside an escape sequence, which runs from
      the escape character to the next `m`. */
  function Marks(text: string, inside: bool): (r: seq<bool>)
    ensures |r| == |text|
  {
    if text == [] then []
    else if inside then [false] + Marks(text[1..], text[0] != 'm')
    else if text[0] == ESC then [false] + Marks(text[1..], true)
    else [32 <= text[0] as int <= 126] + Marks(text[1..], false)
  }

  /** How many of the first `i` are shifted. */
  function Count(marks: seq<bool>, i: nat): nat
    requires i <= |marks|
  {
    if i == 0 then 0 else Count(marks, i - 1) + if marks[i - 1] then 1 else 0
  }

  lemma {:induction false} CountTail(m: bool, marks: seq<bool>, i: nat)
    requires i <= |marks|
    ensures Count([m] + marks, i + 1) == (if m then 1 else 0) + Count(marks, i)
  {
    if i > 0 { CountTail(m, marks, i - 1); }
  }

  /** One printable character further among the printable ones, by as much as the key character is
      from a blank, round and round. */
  function Turned(c: char, k: char, encrypt: bool): int {
    32 + (if encrypt then (c as int - 32) + (k as int - 32) else (c as int - 32) - (k as int - 32)) % 95
  }

  lemma ShiftIs(c: char, k: char, encrypt: bool)
    requires Printable(c) && Printable(k)
    ensures Shift(c, k, encrypt) as int == Turned(c, k, encrypt)
  {
  }

  /** A place in the key, which starts over at its end. */
  function Wrapped(n: nat, size: nat): (r: nat)
    requires size > 0
    ensures r < size
  {
    if n < size then n else Wrapped(n - size, size)
  }

  /** What the text under the key is at position `i`, with `done` characters shifted before. */
  ghost predicate ShiftedAt(key: string, done: nat, text: string, marks: seq<bool>, r: string, encrypt: bool, i: nat)
    requires key != [] && i < |text| == |marks| == |r|
  {
    if marks[i] then r[i] as int == Turned(text[i], key[Wrapped(done + Count(marks, i), |key|)], encrypt) else r[i] == text[i]
  }

  lemma {:induction false} Wraps(n: nat, done: nat)
    requires n > 0
    ensures var q := Wrapped(done, n); Wrapped(done + 1, n) == if q + 1 < n then q + 1 else 0
    decreases done
  {
    if done >= n {
      Wraps(n, done - n);
    } else if done + 1 == n {
      assert Wrapped(0, n) == 0;
    }
  }

  /** The marks of an escape sequence are all off. */
  lemma {:induction false} InsideOff(s: string, i: nat)
    requires i < |s|
    ensures var k := EscapeLength(s); var m := Marks(s, true);
      if i < k then !m[i] && Count(m, i) == 0 else m[i] == Marks(s[k..], false)[i - k] && Count(m, i) == Count(Marks(s[k..], false), i - k)
  {
    var m := Marks(s, true);
    if s[0] == ANSI_END {
      var u := Marks(s[1..], false);
      assert m == [false] + u;
      if i > 0 { CountTail(false, u, i - 1); }
    } else {
      var u := Marks(s[1..], true);
      assert m == [false] + u;
      if i > 0 {
        InsideOff(s[1..], i - 1);
        CountTail(false, u, i - 1);
        assert s[EscapeLength(s)..] == s[1..][EscapeLength(s[1..])..];
      }
    }
  }

  /** Passing an escape sequence, or one other character that is not printable. */
  lemma PassOff(text: string, i: nat)
    requires i < |text| && !Printable(text[0])
    ensures var k := PassLength(text); var m := Marks(text, false);
      if i < k then !m[i]
      else m[i] == Marks(text[k..], false)[i - k] && Count(m, i) == Count(Marks(text[k..], false), i - k)
  {
    var m := Marks(text, false);
    var k := PassLength(text);
    if text[0] == ESC {
      var u := Marks(text[1..], true);
      assert m == [false] + u;
      if i > 0 {
        InsideOff(text[1..], i - 1);
        CountTail(false, u, i - 1);
        assert text[k..] == text[1..][k - 1..];
      }
    } else {
      var u := Marks(text[1..], false);
      assert m == [false] + u;
      if i > 0 { CountTail(false, u, i - 1); }
    }
  }

  /** The first character is printable, and `i` is behind it. */
  lemma TurnedOn(key: string, done: nat, text: string, r: string, encrypt: bool, i: nat)
    requires key != [] && 0 < i < |text| == |r| && Printable(text[0])
    requires ShiftedAt(key, done + 1, text[1..], Marks(text[1..], false), r[1..], encrypt, i - 1)
    ensures ShiftedAt(key, done, text, Marks(text, false), r, encrypt, i)
  {
    hide Wrapped, Turned;
    CountTail(true, Marks(text[1..], false), i - 1);
    assert Marks(text, false) == [true] + Marks(text[1..], false);
  }

  /** Something passes in front, and `i` is behind it. */
  lemma PassedOn(key: string, done: nat, text: string, r: string, encrypt: bool, i: nat)
    requires key != [] && i < |text| == |r| && !Printable(text[0])
    requires r[..PassLength(text)] == text[..PassLength(text)]
    requires var k := PassLength(text); i >= k ==> ShiftedAt(key, done, text[k..], Marks(text[k..], false), r[k..], encrypt, i - k)
    ensures ShiftedAt(key, done, text, Marks(text, false), r, encrypt, i)
  {
    hide Wrapped, Turned, PassLength, Marks;
    PassOff(text, i);
    if i < PassLength(text) { assert r[i] == r[..PassLength(text)][i]; }
  }

  /** Each character under the key: the n-th one to be shifted is turned by the n-th character of
      the key, which starts over at its end, and all others stay. */
  lemma {:induction false} ShiftedIs(key: string, done: nat, text: string, encrypt: bool, i: nat)
    requires key != [] && AllPrintable(key) && i < |text|
    ensures ShiftedAt(key, done, text, Marks(text, false), Shifted(key, Wrapped(done, |key|), text, encrypt), encrypt, i)
    decreases |text|
  {
    var q := Wrapped(done, |key|);
    var r := Shifted(key, q, text, encrypt);
    if Printable(text[0]) {
      hide PassLength, Wrapped;
      if i > 0 {
        Wraps(|key|, done);
        ShiftedIs(key, done + 1, text[1..], encrypt, i - 1);
        assert r[1..] == Shifted(key, NextKey(key, q), text[1..], encrypt);
        TurnedOn(key, done, text, r, encrypt, i);
      } else {
        ShiftIs(text[0], key[q], encrypt);
      }
    } else {
      hide Shifted, Marks, Wrapped, PassLength;
      var k := PassLength(text);
      ShiftedPass(key, q, text, encrypt);
      if i >= k { ShiftedIs(key, done, text[k..], encrypt, i - k); }
      PassedOn(key, done, text, r, encrypt, i);
    }
  }

  /** So with a key that is not empty every printable character outside escapes is shifted. */
  lemma CryptedIs(code: string, text: string, encrypt: bool, i: nat)
    requires i < |text|
    ensures var key := Crunch(code); var r := Crypted(code, text, encrypt);
      if key == [] then r == text else ShiftedAt(key, 0, text, Marks(text, false), r, encrypt, i)
  {
    CrunchIsFilter(code);
    if Crunch(code) != [] { ShiftedIs(Crunch(code), 0, text, encrypt, i); }
  }

  // ---------------------------------------------------------------------
  // In place
  // ---------------------------------------------------------------------

  /** A C string at the start of a buffer. */
  ghost predicate Holds(a: array<char>, s: string)
    reads a
  {
    |s| < a.Length && a[..|s|] == s && a[|s|] == '\0' && NulFree(s)
  }

  /** The escape at `p`, skipped. */
  method SkipEscape(code: array<char>, p0: nat, ghost s: string) returns (p: nat)
    requires p0 <= |s| < code.Length && code[p0..|s|] == s[p0..] && code[|s|] == '\0' && NulFree(s)
    ensures p == p0 + EscapeLength(s[p0..])
  {
    p := p0;
    while code[p] != '\0' && code[p] != ANSI_END
      invariant p0 <= p <= |s| && EscapeLength(s[p0..]) == p - p0 + EscapeLength(s[p..])
      invariant code[p] == if p < |s| then s[p] else '\0'
      decreases |s| - p
    {
      assert s[p..][1..] == s[p + 1..];
      p := p + 1;
      if p < |s| { assert code[p] == code[p0..|s|][p - p0] == s[p0..][p - p0]; }
    }
    if code[p] != '\0' {
      p := p + 1;
    }
  }

  /** crunch_code: the reading pointer runs ahead of the writing one in the same buffer. */
  method CrunchCode(code: array<char>, ghost s: string)
    requires Holds(code, s)
    modifies code
    ensures Holds(code, Crunch(s))
  {
    hide Crunch;
    var inn, out := CrunchHead(code, s);
    Suffix(code, s, inn);
    while code[inn] != '\0'
      invariant 0 <= out <= inn <= |s| < code.Length && NulFree(s) && code[inn..|s|] == s[inn..] && code[|s|] == '\0'
      invariant code[..out] + Crunch(s[inn..]) == Crunch(s)
      decreases |s| - inn
    {
      BeforeEnd(code, s, inn);
      inn, out := CrunchTurn(code, s, inn, out);
    }
    Here(code, s, inn);
    EndOf(s, inn, code[inn]);
    code[out] := '\0';
    CrunchEnd(s);
    assert code[..out] == Crunch(s);
  }

  /** One turn of the second loop: copy a character down, or pass over something. */
  method CrunchTurn(code: array<char>, ghost s: string, inn0: nat, out0: nat) returns (inn: nat, out: nat)
    requires out0 <= inn0 < |s| < code.Length && code[inn0..|s|] == s[inn0..] && code[|s|] == '\0' && NulFree(s)
    requires code[..out0] + Crunch(s[inn0..]) == Crunch(s)
    modifies code
    ensures inn0 < inn <= |s| && out <= inn && code[inn..|s|] == s[inn..] && code[|s|] == '\0'
    ensures code[..out] + Crunch(s[inn..]) == Crunch(s)
  {
    hide Crunch, Printable, EscapeLength;
    inn, out := inn0, out0;
    Here(code, s, inn);
    CrunchStep(s, inn);
    if Printable(code[inn]) {
      Move(code, inn, out, s);
      out, inn := out + 1, inn + 1;
    } else {
      if code[inn] == ESC {
        inn := SkipEscape(code, inn, s);
        EscapeMoves(s, inn0);
      } else {
        inn := inn + 1;
      }
      Later(code, s, inn0, inn);
    }
  }

  lemma BeforeEnd(code: array<char>, s: string, i: nat)
    requires i <= |s| < code.Length && code[|s|] == '\0' && code[i] != '\0'
    ensures i < |s|
  {}

  lemma EscapeMoves(s: string, i: nat)
    requires i < |s|
    ensures 0 < EscapeLength(s[i..]) <= |s| - i
  {}

  method Move(code: array<char>, inn: nat, out: nat, ghost s: string)
    requires out <= inn < |s| < code.Length && code[inn..|s|] == s[inn..]
    modifies code
    ensures code[..out + 1] == old(code[..out]) + [s[inn]] && code[inn + 1..|s|] == s[inn + 1..]
    ensures code[|s|] == old(code[|s|])
  {
    assert code[inn] == code[inn..|s|][0] == s[inn];
    assert code[inn + 1..|s|] == code[inn..|s|][1..] == s[inn + 1..];
    code[out] := code[inn];
  }

  /** As long as nothing is left out the pointers move together. */
  method CrunchHead(code: array<char>, ghost s: string) returns (inn: nat, out: nat)
    requires Holds(code, s)
    ensures out <= inn <= |s| && code[..out] + Crunch(s[inn..]) == Crunch(s)
    ensures code[inn] == '\0' || out != inn
  {
    hide Crunch, EscapeLength, NulFree;
    inn, out := 0, 0;
    CrunchStart(s);
    while code[inn] != '\0' && out == inn
      invariant 0 <= out <= inn <= |s| && code[..out] + Crunch(s[inn..]) == Crunch(s)
      decreases |s| - inn
    {
      At(code, s, inn);
      CrunchStep(s, inn);
      if Printable(code[inn]) {
        assert code[..out + 1] == code[..out] + [code[inn]];
        out, inn := out + 1, inn + 1;
      } else if code[inn] == ESC {
        inn := SkipEscape(code, inn, s);
      } else {
        inn := inn + 1;
      }
    }
  }

  lemma CrunchStart(s: string)
    ensures s[0..] == s
  {}

  lemma CrunchEnd(s: string)
    requires NulFree(s)
    ensures NulFree(Crunch(s))
  {
    CrunchIsFilter(s);
  }

  lemma At(code: array<char>, s: string, i: nat)
    requires Holds(code, s) && i <= |s|
    ensures code[i] == (if i < |s| then s[i] else '\0') && code[i..|s|] == s[i..]
  {
    assert code[i..|s|] == code[..|s|][i..];
    if i < |s| { assert code[i] == code[..|s|][i]; }
  }

  lemma Suffix(code: array<char>, s: string, i: nat)
    requires Holds(code, s) && i <= |s|
    ensures code[i..|s|] == s[i..]
  {
    At(code, s, i);
  }

  lemma EndOf(s: string, i: nat, c: char)
    requires i <= |s| && NulFree(s) && c == '\0' && c == if i < |s| then s[i] else '\0'
    ensures i == |s| && Crunch(s[i..]) == []
  {}

  lemma Later(code: array<char>, s: string, i: nat, j: nat)
    requires i <= j <= |s| < code.Length && code[i..|s|] == s[i..]
    ensures code[j..|s|] == s[j..]
  {
    assert code[j..|s|] == code[i..|s|][j - i..] && s[j..] == s[i..][j - i..];
  }

  lemma Here(code: array<char>, s: string, i: nat)
    requires i <= |s| < code.Length && code[i..|s|] == s[i..] && code[|s|] == '\0'
    ensures code[i] == if i < |s| then s[i] else '\0'
  {
    if i < |s| { assert code[i] == code[i..|s|][0] == s[i..][0]; }
  }

  lemma CrunchStep(s: string, i: nat)
    requires i < |s|
    ensures Crunch(s[i..]) ==
            if Printable(s[i]) then [s[i]] + Crunch(s[i + 1..])
            else if s[i] == ESC then Crunch(s[i + EscapeLength(s[i..])..])
            else Crunch(s[i + 1..])
  {
    assert s[i..][1..] == s[i + 1..];
    assert s[i..][EscapeLength(s[i..])..] == s[i + EscapeLength(s[i..])..];
  }

  /** crypt_code: the key is crunched in place and its pointer wraps at its end. */
  method CryptCode(buff0: string, code: array<char>, ghost key0: string, text: string, encrypt: bool) returns (buff: string)
    requires Holds(code, key0) && NulFree(text)
    modifies code
    ensures buff == Crypt(buff0, key0, text, encrypt)
  {
    buff := buff0;
    if text == [] {
      return;
    }
    CrunchCode(code, key0);
    ghost var key := Crunch(key0);
    CrunchIsFilter(key0);
    hide Crunch, Fill, Shifted, Holds;
    KeyStart(code, key);
    if code[0] == '\0' {
      return SafeStr(buff, text);
    }
    buff := ShiftAll(buff, code, key, text, encrypt);
  }

  method ShiftAll(buff0: string, code: array<char>, ghost key: string, text: string, encrypt: bool) returns (buff: string)
    requires Holds(code, key) && key != []
    ensures buff == Fill(buff0, Shifted(key, 0, text, encrypt))
  {
    hide Fill, Shifted, Shift, Holds;
    buff := buff0;
    var q, i := 0, 0;
    assert text[0..] == text;
    while i < |text|
      invariant 0 <= i <= |text| && 0 <= q < |key|
      invariant Fill(buff, Shifted(key, q, text[i..], encrypt)) == Fill(buff0, Shifted(key, 0, text, encrypt))
      decreases |text| - i
    {
      if Printable(text[i]) {
        PrintableTurn(key, q, text, i, encrypt, buff);
        KeyAt(code, key, q);
        buff := SafeChr(buff, Shift(text[i], code[q], encrypt));
        KeyStep(code, key, q);
        i, q := i + 1, q + 1;
        if code[q] == '\0' {
          q := 0;
        }
      } else if text[i] == ESC {
        EscapeTurn(key, q, text, i, encrypt, buff);
        buff, i := CopyEscape(buff, text, i);
      } else {
        OtherTurn(key, q, text, i, encrypt, buff);
        buff, i := SafeChr(buff, text[i]), i + 1;
      }
    }
    FillNothing(buff, key, q, text, encrypt);
  }

  function SafeStr(buff: string, s: string): string {
    Fill(buff, s)
  }

  /** One more character of an escape, or its end. */
  lemma EscapeOne(text: string, i: nat)
    requires i <= |text|
    ensures i < |text| && text[i] != ANSI_END ==> EscapeLength(text[i..]) == 1 + EscapeLength(text[i + 1..])
    ensures EscapeLength(text[i..]) == (if i == |text| then 0 else 1) || (i < |text| && text[i] != ANSI_END)
  {
    if i < |text| { assert text[i..][1..] == text[i + 1..]; }
  }

  lemma FillNone(buff: string, text: string, i: nat)
    requires i <= |text|
    ensures Fill(buff, text[i..i]) == buff
  {
  }

  lemma FillMore(buff: string, text: string, i0: nat, i: nat)
    requires i0 <= i < |text|
    ensures Fill(buff, text[i0..i + 1]) == SafeChr(Fill(buff, text[i0..i]), text[i])
  {
    hide Fill, SafeChr;
    assert text[i0..i + 1] == text[i0..i] + [text[i]];
    FillAppend(buff, text[i0..i], [text[i]]);
    FillOne(Fill(buff, text[i0..i]), text[i]);
  }

  method CopyEscape(buff0: string, text: string, i0: nat) returns (buff: string, i: nat)
    requires i0 <= |text|
    ensures i == i0 + EscapeLength(text[i0..]) && buff == Fill(buff0, text[i0..i])
  {
    hide EscapeLength, Fill;
    buff, i := buff0, i0;
    FillNone(buff0, text, i0);
    while i < |text| && text[i] != ANSI_END
      invariant i0 <= i <= |text| && EscapeLength(text[i0..]) == i - i0 + EscapeLength(text[i..])
      invariant buff == Fill(buff0, text[i0..i])
    {
      EscapeOne(text, i);
      FillMore(buff0, text, i0, i);
      buff, i := SafeChr(buff, text[i]), i + 1;
    }
    EscapeOne(text, i);
    if i < |text| {
      FillMore(buff0, text, i0, i);
      buff, i := SafeChr(buff, text[i]), i + 1;
    }
  }

  lemma FillOne(buff: string, c: char)
    ensures Fill(buff, [c]) == SafeChr(buff, c)
  {
    assert [c][1..] == [];
  }

  lemma {:induction false} FillAppend(buff: string, s: string, t: string)
    ensures Fill(buff, s + t) == Fill(Fill(buff, s), t)
    decreases s
  {
    if s == [] {
      assert s + t == t;
    } else {
      assert (s + t)[1..] == s[1..] + t;
      FillAppend(SafeChr(buff, s[0]), s[1..], t);
    }
  }

  lemma FillNothing(buff: string, key: string, q: nat, text: string, encrypt: bool)
    requires q < |key|
    ensures Fill(buff, Shifted(key, q, text[|text|..], encrypt)) == buff
  {}

  // The turns of the loop: a character under the key, an escape, anything else.

  lemma PrintableTurn(key: string, q: nat, text: string, i: nat, encrypt: bool, buff: string)
    requires q < |key| && i < |text| && Printable(text[i])
    ensures Fill(buff, Shifted(key, q, text[i..], encrypt))
         == Fill(SafeChr(buff, Shift(text[i], key[q], encrypt)), Shifted(key, NextKey(key, q), text[i + 1..], encrypt))
  {
    var s := text[i..];
    assert s[0] == text[i] && s[1..] == text[i + 1..];
    hide Fill, Shift;
    FillFirst(buff, Shift(text[i], key[q], encrypt), Shifted(key, NextKey(key, q), text[i + 1..], encrypt));
  }

  lemma EscapeTurn(key: string, q: nat, text: string, i: nat, encrypt: bool, buff: string)
    requires q < |key| && i < |text| && text[i] == ESC
    ensures var j := i + EscapeLength(text[i..]);
      Fill(buff, Shifted(key, q, text[i..], encrypt)) == Fill(Fill(buff, text[i..j]), Shifted(key, q, text[j..], encrypt))
  {
    hide Fill, EscapeLength, Shifted;
    var s := text[i..];
    var k := EscapeLength(s);
    ShiftedPass(key, q, s, encrypt);
    assert s[0] == text[i] && s[..k] == text[i..i + k] && s[k..] == text[i + k..];
    FillAppend(buff, s[..k], Shifted(key, q, s[k..], encrypt));
  }

  lemma OtherTurn(key: string, q: nat, text: string, i: nat, encrypt: bool, buff: string)
    requires q < |key| && i < |text| && !Printable(text[i]) && text[i] != ESC
    ensures Fill(buff, Shifted(key, q, text[i..], encrypt)) == Fill(SafeChr(buff, text[i]), Shifted(key, q, text[i + 1..], encrypt))
  {
    var s := text[i..];
    assert s[0] == text[i] && s[1..] == text[i + 1..] && s[..1] == [s[0]];
    hide Fill;
    FillFirst(buff, text[i], Shifted(key, q, text[i + 1..], encrypt));
  }

  lemma FillFirst(buff: string, c: char, rest: string)
    ensures Fill(buff, [c] + rest) == Fill(SafeChr(buff, c), rest)
  {
    FillAppend(buff, [c], rest);
    FillOne(buff, c);
  }

  /** The key is empty exactly when its first character ends it. */
  lemma KeyStart(code: array<char>, key: string)
    requires Holds(code, key)
    ensures code[0] == '\0' <==> key == []
  {
    assert code[0] == (code[..|key|] + ['\0'])[0];
  }

  lemma KeyAt(code: array<char>, key: string, q: nat)
    requires Holds(code, key) && q < |key|
    ensures q < code.Length && code[q] == key[q]
  {
    assert code[q] == code[..|key|][q];
  }

  /** The next position of the key, or its end. */
  lemma KeyStep(code: array<char>, key: string, q: nat)
    requires Holds(code, key) && q < |key|
    ensures q + 1 < code.Length && (code[q + 1] == '\0' <==> q + 1 == |key|)
  {
    if q + 1 < |key| { KeyAt(code, key, q + 1); }
  }
}
