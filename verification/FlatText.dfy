/** The text layer of the flat file (src/db.c): numbers one to a line, strings in
    quotes, as functions on what is written and what is still to be read. */
module FlatText {
  import opened CString
  import opened Wrappers
  import opened Constants

  const INT_LIMIT: int := 0x8000_0000

  // ---------------------------------------------------------------------
  // Numbers
  // ---------------------------------------------------------------------

  function Digit(d: nat): char
    requires d < 10
  {
    '0' + d as char
  }

  function DigitValue(c: char): int
    requires IsDigit(c)
  {
    (c - '0') as int
  }

  function Decimal(n: nat): (r: string)
    ensures r != [] && IsDigit(r[0])
  {
    if n < 10 then [Digit(n)] else Decimal(n / 10) + [Digit(n % 10)]
  }

  /** What `%d` prints. */
  function Print(n: int): string {
    if n < 0 then "-" + Decimal(-n) else Decimal(n)
  }

  /** The value of the digits at the front, and what follows them. */
  function ReadDigits(s: string, acc: int): (r: (int, string))
    ensures |r.1| <= |s| && (r.1 != [] ==> !IsDigit(r.1[0]))
  {
    if s != [] && IsDigit(s[0]) then ReadDigits(s[1..], acc * 10 + DigitValue(s[0])) else (acc, s)
  }

  lemma {:induction false} ReadDecimal(n: nat, rest: string)
    ensures ReadDigits(Decimal(n) + rest, 0) == ReadDigits(rest, n)
  {
    if n >= 10 {
      assert Decimal(n) + rest == Decimal(n / 10) + ([Digit(n % 10)] + rest);
      ReadDecimal(n / 10, [Digit(n % 10)] + rest);
      assert ([Digit(n % 10)] + rest)[1..] == rest;
    } else {
      assert (Decimal(n) + rest)[1..] == rest;
    }
  }

  lemma {:induction false} DecimalDigits(n: nat)
    ensures forall i :: 0 <= i < |Decimal(n)| ==> IsDigit(Decimal(n)[i])
  {
    if n >= 10 { DecimalDigits(n / 10); }
  }

  lemma {:induction false} DecimalShort(n: nat, k: nat)
    requires k > 0 && n < Power(k)
    ensures |Decimal(n)| <= k
  {
    if n >= 10 { DecimalShort(n / 10, k - 1); }
  }

  function Power(k: nat): nat {
    if k == 0 then 1 else 10 * Power(k - 1)
  }

  /** What `atoi` makes of a line: blanks, a sign, digits. */
  function Atoi(s: string): int {
    if s != [] && IsSpace(s[0]) then Atoi(s[1..])
    else if s != [] && s[0] == '-' then -ReadDigits(s[1..], 0).0
    else if s != [] && s[0] == '+' then ReadDigits(s[1..], 0).0
    else ReadDigits(s, 0).0
  }

  /** What `fgets` takes: up to and with a newline, at most `room` characters. */
  function LineEnd(s: string, room: nat): (r: nat)
    ensures r <= |s| && r <= room
  {
    if s == [] || room == 0 then 0 else if s[0] == '\n' then 1 else 1 + LineEnd(s[1..], room - 1)
  }

  /** A number on a line of its own. */
  function PutRef(n: int): string {
    Print(n) + "\n"
  }

  /** getref: `None` at the end of the file, where the source reads an old buffer. */
  function GetRef(s: string): (r: Option<(int, string)>)
    ensures r.Some? ==> |r.value.1| < |s|
  {
    var e := LineEnd(s, SBUF_SIZE - 1);
    if e == 0 then None else Some((Atoi(s[..e]), s[e..]))
  }

  lemma {:induction false} LineEndAfter(t: string, rest: string, room: nat)
    requires |t| < room && '\n' !in t
    ensures LineEnd(t + "\n" + rest, room) == |t| + 1
  {
    var s := t + "\n" + rest;
    if t != [] {
      assert s[1..] == t[1..] + "\n" + rest;
      LineEndAfter(t[1..], rest, room - 1);
    }
  }

  /** A number reads back as itself, whatever follows its line. */
  lemma RefRoundTrip(n: int, rest: string)
    requires -INT_LIMIT <= n < INT_LIMIT
    ensures GetRef(PutRef(n) + rest) == Some((n, rest))
  {
    var m: nat := if n < 0 then -n else n;
    assert Power(10) == 100_0000_0000 by { assert Power(5) == 10_0000; }
    DecimalShort(m, 10);
    DecimalDigits(m);
    var t := Print(n);
    assert PutRef(n) + rest == t + "\n" + rest;
    LineEndAfter(t, rest, SBUF_SIZE - 1);
    var s := PutRef(n) + rest;
    assert s[..|t| + 1] == t + "\n" && s[|t| + 1..] == rest;
    ReadDecimal(m, "\n");
    if n < 0 { assert (t + "\n")[1..] == Decimal(m) + "\n"; }
  }

  // ---------------------------------------------------------------------
  // Strings
  // ---------------------------------------------------------------------

  /** safe_chr: nothing more goes into a full buffer. */
  function SafeChr(buf: string, c: char): string {
    if |buf| < LBUF_SIZE - 1 then buf + [c] else buf
  }

  function Fill(buf: string, s: string): string
    decreases s
  {
    if s == [] then buf else Fill(SafeChr(buf, s[0]), s[1..])
  }

  /** As much of a string as a buffer holds. */
  function Fits(s: string): string {
    if |s| < LBUF_SIZE then s else s[..LBUF_SIZE - 1]
  }

  lemma {:induction false} FillFits(buf: string, s: string)
    requires |buf| < LBUF_SIZE
    ensures Fill(buf, s) == Fits(buf + s)
    decreases s
  {
    if s == [] {
      assert buf + s == buf;
    } else {
      FillFits(SafeChr(buf, s[0]), s[1..]);
      if |buf| < LBUF_SIZE - 1 {
        assert buf + [s[0]] + s[1..] == buf + s;
      } else {
        assert (buf + s[1..])[..LBUF_SIZE - 1] == buf == (buf + s)[..LBUF_SIZE - 1];
      }
    }
  }

  function Escaped(s: string): string {
    if s == [] then []
    else (if s[0] == '\\' || s[0] == '"' then ['\\', s[0]] else [s[0]]) + Escaped(s[1..])
  }

  function PutString(s: string): string {
    "\"" + Escaped(s) + "\"\n"
  }

  /** The string behind an opening quote and what follows it. */
  function Quoted(s: string, buf: string): (r: (string, string))
    ensures |r.1| <= |s|
  {
    if s == [] then (buf, [])
    else if s[0] == '"' then (buf, if |s| > 1 && s[1] == '\n' then s[2..] else s[1..])
    else if s[0] == '\\' then
      if |s| == 1 then (buf, [])
      else if s[1] == '\0' then (buf, s[2..])
      else Quoted(s[2..], SafeChr(buf, s[1]))
    else if s[0] == '\0' then (buf, s[1..])
    else Quoted(s[1..], SafeChr(buf, s[0]))
  }

  /** An old-style string: up to a newline not behind a carriage return. */
  function Bare(s: string, last: char, buf: string): (r: (string, string))
    ensures |r.1| <= |s|
  {
    if s == [] then (buf, [])
    else if s[0] == '\0' || (s[0] == '\n' && last != '\r') then (buf, s[1..])
    else Bare(s[1..], s[0], SafeChr(buf, s[0]))
  }

  function GetString(s: string, newStrings: bool): (r: (string, string))
    ensures |r.1| <= |s|
  {
    if newStrings && s != [] && s[0] == '"' then Quoted(s[1..], []) else Bare(s, '\0', [])
  }

  lemma {:induction false} QuotedEscaped(s: string, buf: string, rest: string)
    requires NulFree(s)
    ensures Quoted(Escaped(s) + "\"\n" + rest, buf) == (Fill(buf, s), rest)
  {
    var t := Escaped(s) + "\"\n" + rest;
    if s == [] {
      assert t == "\"\n" + rest && t[2..] == rest;
    } else {
      var u := Escaped(s[1..]) + "\"\n" + rest;
      QuotedEscaped(s[1..], SafeChr(buf, s[0]), rest);
      if s[0] == '\\' || s[0] == '"' {
        assert t == ['\\', s[0]] + u && t[2..] == u;
      } else {
        assert t == [s[0]] + u && t[1..] == u;
      }
    }
  }

  /** A string comes back as much of it as a buffer holds, whatever follows; so it comes
      back whole exactly when it is shorter than a buffer. */
  lemma StringRoundTrip(s: string, rest: string)
    requires NulFree(s)
    ensures GetString(PutString(s) + rest, true) == (Fits(s), rest)
    ensures GetString(PutString(s) + rest, true) == (s, rest) <==> |s| < LBUF_SIZE
  {
    var t := PutString(s) + rest;
    assert t[1..] == Escaped(s) + "\"\n" + rest;
    QuotedEscaped(s, [], rest);
    FillFits([], s);
    assert [] + s == s;
  }
}
