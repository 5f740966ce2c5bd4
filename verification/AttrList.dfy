/** Attribute lists (src/db.c): attribute numbers as base-128 digits, low digit first,
    every digit but the last with its high bit set; the list ends with a zero byte. */
module AttrList {

  type byte = x: int | 0 <= x < 256

  const ATR_BUF_INCR: nat := 6
  const MAX_ATTR: nat := 0x7fff_ffff

  // ---------------------------------------------------------------------
  // One number
  // ---------------------------------------------------------------------

  function Code(n: nat): seq<byte> {
    if n < 128 then [n] else [n % 128 + 128] + Code(n / 128)
  }

  /** Does the digit sequence at the front of `s` end? */
  predicate Complete(s: seq<byte>) {
    s != [] && (s[0] < 128 || Complete(s[1..]))
  }

  /** The number at the front of `s` and how many bytes it takes. */
  function Decode(s: seq<byte>): (r: (nat, nat))
    requires Complete(s)
    ensures 1 <= r.1 <= |s|
  {
    if s[0] < 128 then (s[0], 1)
    else
      var d := Decode(s[1..]);
      (s[0] % 128 + 128 * d.0, d.1 + 1)
  }

  /** A positive number takes one to five bytes, none of them zero. */
  lemma CodeSize(n: nat)
    requires 0 < n <= MAX_ATTR
    ensures 1 <= |Code(n)| < ATR_BUF_INCR
    ensures forall i :: 0 <= i < |Code(n)| ==> Code(n)[i] != 0
  {
    CodeNonZero(n);
    var a := n / 128;
    var b := a / 128;
    var c := b / 128;
    var d := c / 128;
    assert |Code(d)| == 1;
    assert |Code(c)| <= 2 && |Code(b)| <= 3;
    assert |Code(a)| <= 4;
  }

  lemma {:induction false} CodeNonZero(n: nat)
    requires n > 0
    ensures forall i :: 0 <= i < |Code(n)| ==> Code(n)[i] != 0
  {
    if n >= 128 { CodeNonZero(n / 128); }
  }

  /** Decoding inverts coding, whatever follows. */
  lemma {:induction false} DecodeCode(n: nat, rest: seq<byte>)
    ensures Complete(Code(n) + rest) && Decode(Code(n) + rest) == (n, |Code(n)|)
  {
    if n >= 128 {
      DecodeCode(n / 128, rest);
      assert (Code(n) + rest)[1..] == Code(n / 128) + rest;
    } else {
      assert (Code(n) + rest)[0] == n;
    }
  }

  // ---------------------------------------------------------------------
  // Lists of numbers
  // ---------------------------------------------------------------------

  ghost predicate Number(n: nat) {
    0 < n <= MAX_ATTR
  }

  ghost predicate Numbers(ns: seq<nat>) {
    forall i :: 0 <= i < |ns| ==> Number(ns[i])
  }

  function Enc(ns: seq<nat>): seq<byte> {
    if ns == [] then [] else Code(ns[0]) + Enc(ns[1..])
  }

  lemma EncFirst(ns: seq<nat>)
    ensures Enc(ns) == if ns == [] then [] else Code(ns[0]) + Enc(ns[1..])
  {
    hide Code;
  }

  lemma Grouped(a: seq<byte>, b: seq<byte>, c: seq<byte>)
    ensures a + b + c == a + (b + c) && ([] + c == c)
  {
  }

  lemma {:induction false} EncAppend(a: seq<nat>, b: seq<nat>)
    ensures Enc(a + b) == Enc(a) + Enc(b)
  {
    hide Code, Enc;
    Grouped([], [], Enc(b));
    EncFirst(a);
    EncFirst(a + b);
    if a == [] {
      assert a + b == b;
    } else {
      EncAppend(a[1..], b);
      assert (a + b)[0] == a[0] && (a + b)[1..] == a[1..] + b;
      Grouped(Code(a[0]), Enc(a[1..]), Enc(b));
    }
  }

  lemma EncOne(n: nat)
    ensures Enc([n]) == Code(n)
  {
    assert [n][1..] == [];
  }

  lemma {:induction false} EncNonZero(ns: seq<nat>)
    requires Numbers(ns)
    ensures forall i :: 0 <= i < |Enc(ns)| ==> Enc(ns)[i] != 0
    ensures ns != [] <==> Enc(ns) != []
  {
    if ns != [] {
      CodeNonZero(ns[0]);
      CodeSize(ns[0]);
      EncNonZero(ns[1..]);
    }
  }

  /** The list stored in a byte string, up to its zero byte. */
  function DecodeList(s: seq<byte>): seq<nat>
    decreases |s|
  {
    if !Complete(s) || s[0] == 0 then [] else [Decode(s).0] + DecodeList(s[Decode(s).1..])
  }

  /** Reading a stored list gives back exactly the numbers written. */
  lemma {:induction false} DecodeListEnc(ns: seq<nat>, rest: seq<byte>)
    requires Numbers(ns)
    ensures DecodeList(Enc(ns) + [0] + rest) == ns
  {
    var s := Enc(ns) + [0] + rest;
    if ns == [] {
      assert s[0] == 0;
    } else {
      var tail := Enc(ns[1..]) + [0] + rest;
      assert s == Code(ns[0]) + tail;
      DecodeCode(ns[0], tail);
      CodeNonZero(ns[0]);
      CodeSize(ns[0]);
      assert s[|Code(ns[0])|..] == tail;
      DecodeListEnc(ns[1..], rest);
    }
  }

  // ---------------------------------------------------------------------
  // In the buffer
  // ---------------------------------------------------------------------

  /** The bytes hold the list `ns` at `at`, with its zero byte. */
  ghost predicate HoldsIn(s: seq<byte>, at: nat, ns: seq<nat>) {
    && at + |Enc(ns)| < |s|
    && s[at..at + |Enc(ns)|] == Enc(ns)
    && s[at + |Enc(ns)|] == 0
  }

  ghost predicate Holds(buf: array<byte>, at: nat, ns: seq<nat>)
    reads buf
  {
    HoldsIn(buf[..], at, ns)
  }

  /** Only the bytes from the list on matter. */
  lemma HoldsTail(s: seq<byte>, s': seq<byte>, at: nat, ns: seq<nat>)
    requires HoldsIn(s, at, ns) && |s| == |s'| && forall k :: at <= k < |s| ==> s[k] == s'[k]
    ensures HoldsIn(s', at, ns)
  {
    assert s[at..at + |Enc(ns)|] == s'[at..at + |Enc(ns)|];
  }

  /** The first byte says whether the list is empty. */
  lemma HoldsFirst(s: seq<byte>, at: nat, ns: seq<nat>)
    requires HoldsIn(s, at, ns) && Numbers(ns)
    ensures at < |s| && (s[at] != 0 <==> ns != [])
  {
    EncNonZero(ns);
    if ns != [] { assert s[at..at + |Enc(ns)|][0] == s[at]; }
  }

  /** A list in two parts. */
  lemma HoldsCut(s: seq<byte>, at: nat, a: seq<nat>, b: seq<nat>)
    requires HoldsIn(s, at, a + b)
    ensures at + |Enc(a)| <= |s| && s[at..at + |Enc(a)|] == Enc(a) && HoldsIn(s, at + |Enc(a)|, b)
  {
    hide Enc;
    EncAppend(a, b);
    var m := at + |Enc(a)|;
    var e := s[at..at + |Enc(a + b)|];
    assert s[at..m] == e[..|Enc(a)|] && s[m..m + |Enc(b)|] == e[|Enc(a)|..];
  }

  lemma Cells(s: seq<byte>, at: nat, c: seq<byte>)
    requires at + |c| <= |s| && s[at..at + |c|] == c
    ensures forall k :: 0 <= k < |c| ==> s[at + k] == c[k]
  {
    var d := s[at..at + |c|];
    assert forall k :: 0 <= k < |d| ==> d[k] == s[at + k];
  }

  /** al_decode */
  method AlDecode(buf: array<byte>, at: nat, ghost ns: seq<nat>) returns (n: nat, next: nat)
    requires Holds(buf, at, ns) && ns != []
    ensures n == ns[0] && next == at + |Code(ns[0])| && Holds(buf, next, ns[1..])
  {
    hide Enc, HoldsIn;
    assert ns == [ns[0]] + ns[1..];
    EncOne(ns[0]);
    HoldsCut(buf[..], at, [ns[0]], ns[1..]);
    Cells(buf[..], at, Code(ns[0]));
    n, next := ReadDigits(buf, at, ns[0]);
  }

  /** Add up the digits of `m` standing at `at`. */
  method ReadDigits(buf: array<byte>, at: nat, ghost m: nat) returns (n: nat, next: nat)
    requires at + |Code(m)| <= buf.Length && forall k :: 0 <= k < |Code(m)| ==> buf[..][at + k] == Code(m)[k]
    ensures n == m && next == at + |Code(m)|
  {
    ghost var c := Code(m);
    ghost var left := m;
    var scale := 1;
    n, next := 0, at;
    while true
      invariant at <= next < at + |c| && c[next - at..] == Code(left) && n + scale * left == m
      decreases at + |c| - next
    {
      assert c[next - at] == c[next - at..][0] == buf[..][at + (next - at)];
      var digit: nat := buf[next] % 128;
      Digit(scale, left);
      n := n + digit * scale;
      next := next + 1;
      if buf[next - 1] < 128 {
        break;
      }
      assert c[next - at..] == c[next - 1 - at..][1..];
      left := left / 128;
      scale := scale * 128;
    }
  }

  lemma Digit(scale: nat, m: nat)
    ensures scale * m == (m % 128) * scale + (scale * 128) * (m / 128)
  {
    assert m == m % 128 + 128 * (m / 128);
    assert scale * m == scale * (m % 128) + scale * (128 * (m / 128));
  }

  /** One more digit behind those written. */
  lemma CodeStep(done: seq<byte>, n: nat)
    ensures |Code(n)| >= 1
    ensures n / 128 == 0 ==> Code(n) == [n % 128]
    ensures n / 128 != 0 ==> |Code(n)| == 1 + |Code(n / 128)| && done + [n % 128 + 128] + Code(n / 128) == done + Code(n)
  {
  }

  /** al_code: write the digits of `n` at `at`. */
  method AlCode(buf: array<byte>, at: nat, n0: nat) returns (next: nat)
    requires at + |Code(n0)| <= buf.Length
    modifies buf
    ensures next == at + |Code(n0)| && buf[at..next] == Code(n0)
    ensures forall k :: (0 <= k < at || next <= k < buf.Length) ==> buf[k] == old(buf[k])
  {
    hide Code;
    var n := n0;
    next := at;
    while true
      invariant at <= next <= buf.Length && buf[at..next] + Code(n) == Code(n0) && next + |Code(n)| <= buf.Length
      invariant forall k :: (0 <= k < at || next <= k < buf.Length) ==> buf[k] == old(buf[k])
      decreases n
    {
      CodeStep(buf[at..next], n);
      ghost var done := buf[at..next];
      buf[next] := n % 128;
      n := n / 128;
      if n == 0 {
        next := next + 1;
        assert buf[at..next] == done + [buf[next - 1]];
        return;
      }
      buf[next] := buf[next] + 128;
      next := next + 1;
      assert buf[at..next] == done + [buf[next - 1]];
    }
  }

  // ---------------------------------------------------------------------
  // Editing a list in its buffer
  // ---------------------------------------------------------------------

  /** Walk to the number `a`, or to the end of the list. */
  method FindNumber(buf: array<byte>, a: nat, ghost ns: seq<nat>) returns (found: bool, start: nat, cp: nat, ghost i: nat)
    requires Holds(buf, 0, ns) && Numbers(ns)
    ensures i <= |ns| && a !in ns[..i] && start == |Enc(ns[..i])| && HoldsIn(buf[..], start, ns[i..])
    ensures found <==> i < |ns|
    ensures found ==> ns[i] == a && cp == start + |Code(a)| && HoldsIn(buf[..], cp, ns[i + 1..])
    ensures !found ==> cp == start == |Enc(ns)| < buf.Length
  {
    hide Enc, HoldsIn, Code;
    cp, i := 0, 0;
    assert ns[..0] == [] && ns[0..] == ns;
    EncEmpty();
    HoldsFirst(buf[..], 0, ns);
    while buf[cp] != 0
      invariant i <= |ns| && cp == |Enc(ns[..i])| && a !in ns[..i] && HoldsIn(buf[..], cp, ns[i..]) && cp < buf.Length
      invariant buf[cp] != 0 <==> i < |ns|
      decreases |ns| - i
    {
      start := cp;
      var n;
      n, cp := AlDecode(buf, cp, ns[i..]);
      assert ns[i..][1..] == ns[i + 1..];
      if n == a {
        found := true;
        return;
      }
      assert ns[..i + 1] == ns[..i] + [ns[i]];
      EncAppend(ns[..i], [ns[i]]);
      EncOne(ns[i]);
      i := i + 1;
      HoldsFirst(buf[..], cp, ns[i..]);
    }
    assert ns[..i] == ns;
    found, start := false, cp;
  }

  lemma EncEmpty()
    ensures Enc([]) == []
  {
  }

  /** Write one number and the zero byte behind a list. */
  method AppendNumber(buf: array<byte>, cp: nat, a: nat, ghost ns: seq<nat>)
    requires Holds(buf, 0, ns) && cp == |Enc(ns)| && cp + ATR_BUF_INCR <= buf.Length && Number(a)
    modifies buf
    ensures Holds(buf, 0, ns + [a])
  {
    hide Enc, Code;
    CodeSize(a);
    ghost var was := buf[..];
    var next := AlCode(buf, cp, a);
    buf[next] := 0;
    EncAppend(ns, [a]);
    EncOne(a);
    assert buf[0..cp] == was[0..cp];
    assert buf[0..next] == buf[0..cp] + buf[cp..next];
  }

  lemma EncSnoc(head: seq<nat>, done: seq<nat>, left: seq<nat>)
    requires left != [] && Numbers(left)
    ensures Enc(head + (done + [left[0]])) == Enc(head + done) + Code(left[0])
    ensures done + [left[0]] + left[1..] == done + left && Numbers(left[1..])
  {
    hide Enc, Code;
    EncAppend(head + done, [left[0]]);
    EncOne(left[0]);
    assert head + done + [left[0]] == head + (done + [left[0]]);
    assert forall i :: 0 <= i < |left[1..]| ==> left[1..][i] == left[i + 1];
  }

  /** Move one number from `cp` down to `dp`, behind the bytes `before`. */
  method MoveDown(buf: array<byte>, dp: nat, cp: nat, ghost before: seq<byte>, ghost left: seq<nat>)
    returns (dq: nat, cq: nat)
    requires left != [] && Holds(buf, cp, left) && dp < cp < buf.Length && dp == |before| && buf[0..dp] == before
    modifies buf
    ensures dq == dp + |Code(left[0])| && cq == cp + |Code(left[0])| < buf.Length
    ensures buf[0..dq] == before + Code(left[0]) && Holds(buf, cq, left[1..])
  {
    hide Enc, Code, HoldsIn;
    ghost var was := buf[..];
    var anum;
    anum, cq := AlDecode(buf, cp, left);
    HoldsSize(buf[..], cq, left[1..]);
    dq := AlCode(buf, dp, anum);
    HoldsTail(was, buf[..], cq, left[1..]);
    assert buf[0..dp] == before;
    assert buf[0..dq] == buf[0..dp] + buf[dp..dq];
  }

  lemma HoldsSize(s: seq<byte>, at: nat, ns: seq<nat>)
    requires HoldsIn(s, at, ns)
    ensures at < |s|
  {
  }

  /** Move the rest of the list down over the number at `dp`; the bytes still to be read
      are ahead of those written. */
  method Compact(buf: array<byte>, dp0: nat, cp0: nat, ghost a: nat, ghost head: seq<nat>, ghost tail: seq<nat>)
    requires dp0 == |Enc(head)| && cp0 == dp0 + |Code(a)| && Number(a) && Numbers(tail)
    requires dp0 <= buf.Length && buf[0..dp0] == Enc(head) && HoldsIn(buf[..], cp0, tail)
    modifies buf
    ensures Holds(buf, 0, head + tail)
  {
    hide Enc, Code, HoldsIn;
    var dp, cp := dp0, cp0;
    ghost var done, left := [], tail;
    assert head + [] == head;
    HoldsFirst(buf[..], cp, left);
    CodeSize(a);
    while buf[cp] != 0
      invariant done + left == tail && Numbers(left) && dp + |Code(a)| == cp < buf.Length
      invariant dp == |Enc(head + done)| && buf[0..dp] == Enc(head + done)
      invariant HoldsIn(buf[..], cp, left) && (buf[cp] != 0 <==> left != [])
      decreases |left|
    {
      EncSnoc(head, done, left);
      dp, cp := MoveDown(buf, dp, cp, Enc(head + done), left);
      done, left := done + [left[0]], left[1..];
      HoldsFirst(buf[..], cp, left);
    }
    assert done == tail;
    ghost var was := buf[0..dp];
    buf[dp] := 0;
    assert buf[0..dp] == was;
    HoldsDone(buf[..], dp, head + tail);
  }

  lemma HoldsDone(s: seq<byte>, dp: nat, ns: seq<nat>)
    requires dp == |Enc(ns)| && dp < |s| && s[0..dp] == Enc(ns) && s[dp] == 0
    ensures HoldsIn(s, 0, ns)
  {
  }
}
