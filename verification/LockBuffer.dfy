/** The lock parser as src/boolexp.c runs it: four routines that call each other and move one
    pointer over one buffer. */
module LockBuffer {
  import opened CString
  import opened Wrappers
  import opened LockTree
  import opened LockParser

  /** The null lock for a failure; otherwise the tree and the pointer behind it. */
  ghost predicate Agrees(want: Parsed, got: BoolExp, rest: string) {
    match want
    case None => got == True
    case Some(p) => got == p.0 && rest == p.1
  }

  class Parser {
    const cx: Context
    var parsestore: string
    var parsebuf: nat

    ghost predicate Valid()
      reads this
    {
      parsebuf <= |parsestore|
    }

    ghost function Rest(): string
      reads this
    {
      if parsebuf <= |parsestore| then parsestore[parsebuf..] else []
    }

    constructor (cx: Context)
      ensures Valid() && this.cx == cx
    {
      this.cx, parsestore, parsebuf := cx, [], 0;
    }

    /** `*parsebuf` */
    function Here(): Option<char>
      reads this
    {
      if parsebuf < |parsestore| then Some(parsestore[parsebuf]) else None
    }

    lemma AtRest()
      requires Valid()
      ensures Here() == (if Rest() == [] then None else Some(Rest()[0]))
      ensures Rest() != [] ==> parsestore[parsebuf + 1..] == Rest()[1..]
    {}

    method Advance()
      requires Valid()
      modifies this`parsebuf
      ensures Valid() && Rest() == (if old(Rest()) == [] then [] else old(Rest())[1..])
      ensures old(parsebuf) < |parsestore| ==> parsebuf > old(parsebuf)
    {
      AtRest();
      if parsebuf < |parsestore| {
        parsebuf := parsebuf + 1;
      }
    }

    method SkipWhitespace()
      requires Valid()
      modifies this`parsebuf
      ensures Valid() && Rest() == SkipSpace(old(Rest()))
      ensures Here() == (if Rest() == [] then None else Some(Rest()[0]))
    {
      AtRest();
      while Here().Some? && IsSpace(Here().value)
        invariant Valid() && SkipSpace(Rest()) == SkipSpace(old(Rest()))
        decreases |parsestore| - parsebuf
      {
        AtRest();
        parsebuf := parsebuf + 1;
      }
      AtRest();
    }

    /** One more character of a name, or its end. */
    lemma NameStep(buf: string, r: string)
      ensures r != [] && !EndsObject(r[0]) ==>
        ObjectSpan(r) == 1 + ObjectSpan(r[1..]) && buf + [r[0]] + r[1..] == buf + r
      ensures r == [] || EndsObject(r[0]) ==> ObjectSpan(r) == 0
    {
      if r != [] { assert r == [r[0]] + r[1..]; }
    }

    /** Load a name, with the blanks behind it. */
    method LoadUntilEnd() returns (buf: string)
      requires Valid()
      modifies this`parsebuf
      ensures Valid() && buf + Rest() == old(Rest()) && |buf| == ObjectSpan(old(Rest()))
    {
      hide ObjectSpan;
      buf := [];
      AtRest();
      while Here().Some? && !EndsObject(Here().value)
        invariant Valid() && buf + Rest() == old(Rest()) && ObjectSpan(old(Rest())) == |buf| + ObjectSpan(Rest())
        invariant Here() == (if Rest() == [] then None else Some(Rest()[0]))
        decreases |parsestore| - parsebuf
      {
        NameStep(buf, Rest());
        AtRest();
        buf := buf + [Here().value];
        Advance();
        AtRest();
      }
      NameStep(buf, Rest());
    }

    /** Load the name of an object or a test, without the blanks behind it. */
    method LoadName() returns (buf: string)
      requires Valid()
      modifies this`parsebuf
      ensures var s := old(Rest()); var k := ObjectSpan(s);
        Valid() && buf == TrimEnd(s[..k]) && Rest() == s[k..]
    {
      hide ObjectSpan;
      buf := LoadUntilEnd();
      ghost var all := buf;
      while buf != [] && IsSpace(buf[|buf| - 1])
        invariant TrimEnd(buf) == TrimEnd(all)
      {
        buf := buf[..|buf| - 1];
      }
    }

    method ParseL() returns (b: BoolExp)
      requires Valid()
      modifies this`parsebuf
      ensures Valid() && Agrees(LockParser.ParseL(cx, old(Rest())), b, Rest())
      decreases |Rest()|, 0
    {
      hide TestAtr, ObjectOf, ObjectSpan, TrimEnd, SkipSpace, LockParser.ParseE;
      SkipWhitespace();
      if Here() == Some('(') {
        Advance();
        b := ParseE();
        if b == True {
          return;
        }
        SkipWhitespace();
        var c := Here();
        Advance();
        if c != Some(')') {
          return True;
        }
      } else {
        var buf := LoadName();
        var test := TestAtr(cx, buf);
        if test.Some? {
          return test.value;
        }
        var obj := ObjectOf(cx, buf);
        return if obj.Some? then obj.value else True;
      }
    }

    method ParseF() returns (b: BoolExp)
      requires Valid()
      modifies this`parsebuf
      ensures Valid() && Agrees(LockParser.ParseF(cx, old(Rest())), b, Rest())
      decreases |Rest()|, 1
    {
      hide LockParser.ParseL;
      SkipWhitespace();
      var op := if Here().Some? then PrefixOf(Here().value) else None;
      if op.None? {
        b := ParseL();
        return;
      }
      Advance();
      if op.value == Not {
        b := ParseF();
      } else {
        b := ParseL();
      }
      if b == True || !Suits(op.value, b) {
        return True;
      }
      return Prefix(op.value, b);
    }

    method ParseT() returns (b: BoolExp)
      requires Valid()
      modifies this`parsebuf
      ensures Valid() && Agrees(LockParser.ParseT(cx, old(Rest())), b, Rest())
      decreases |Rest()|, 2
    {
      hide LockParser.ParseF;
      b := ParseF();
      if b != True {
        SkipWhitespace();
        if Here() == Some('&') {
          Advance();
          var b2 := ParseT();
          if b2 == True {
            return True;
          }
          b := Pair(And, b, b2);
        }
      }
    }

    method ParseE() returns (b: BoolExp)
      requires Valid()
      modifies this`parsebuf
      ensures Valid() && Agrees(LockParser.ParseE(cx, old(Rest())), b, Rest())
      decreases |Rest()|, 3
    {
      hide LockParser.ParseT;
      b := ParseT();
      if b != True {
        SkipWhitespace();
        if Here() == Some('|') {
          Advance();
          var b2 := ParseE();
          if b2 == True {
            return True;
          }
          b := Pair(Or, b, b2);
        }
      }
    }

    /** parse_boolexp */
    method ParseBoolexp(buf: string) returns (b: BoolExp)
      modifies this
      ensures b == Parse(cx, buf)
    {
      hide LockParser.ParseE;
      parsestore, parsebuf := buf, 0;
      assert Rest() == buf;
      if buf == [] {
        return True;
      }
      b := ParseE();
    }
  }
}
