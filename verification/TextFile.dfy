/** Files: read a character at a time with one character of push-back, written at the
    end.  Each routine of src/db.c is proved to do what `FlatText` says. */
module TextFile {
  import opened Wrappers
  import opened Constants
  import opened FlatText

  /** A file open for reading. */
  class Reader {
    const text: string
    var pos: nat

    ghost predicate Valid()
      reads this
    {
      pos <= |text|
    }

    /** What is still to be read. */
    ghost function Rest(): string
      reads this
    {
      if pos <= |text| then text[pos..] else []
    }

    /** Was `c` the last character read? */
    ghost predicate Behind(c: Option<char>)
      reads this
    {
      if c.None? then Rest() == [] else 0 < pos <= |text| && text[pos - 1] == c.value
    }

    constructor (text: string)
      ensures Valid() && Rest() == text
    {
      this.text, pos := text, 0;
    }

    method GetC() returns (c: Option<char>)
      requires Valid()
      modifies this
      ensures Valid() && Behind(c) && c == (if old(Rest()) == [] then None else Some(old(Rest())[0]))
      ensures Rest() == if old(Rest()) == [] then [] else old(Rest())[1..]
    {
      if pos == |text| {
        return None;
      }
      c := Some(text[pos]);
      pos := pos + 1;
    }

    method UngetC(c: Option<char>)
      requires Valid() && Behind(c)
      modifies this
      ensures Valid() && Rest() == (if c.None? then old(Rest()) else [c.value] + old(Rest()))
    {
      if c.Some? {
        pos := pos - 1;
      }
    }

    /** getref */
    method GetRef() returns (n: Option<int>)
      requires Valid()
      modifies this
      ensures Valid() && match FlatText.GetRef(old(Rest()))
        case None => n == None && Rest() == old(Rest())
        case Some(r) => n == Some(r.0) && Rest() == r.1
    {
      ghost var all := Rest();
      var buf, room := [], SBUF_SIZE - 1;
      var c: Option<char> := None;
      while room > 0 && pos < |text| && c != Some('\n')
        invariant Valid() && 0 <= room && |buf| <= |all| && buf == all[..|buf|] && Rest() == all[|buf|..]
        invariant LineEnd(all, SBUF_SIZE - 1) == |buf| + if c == Some('\n') then 0 else LineEnd(all[|buf|..], room)
        decreases room
      {
        assert all[|buf|..][1..] == all[|buf| + 1..];
        c := GetC();
        buf, room := buf + [c.value], room - 1;
      }
      n := if buf == [] then None else Some(Atoi(buf));
    }

    /** getstring_noalloc */
    method GetString(newStrings: bool) returns (s: string)
      requires Valid()
      modifies this
      ensures Valid() && (s, Rest()) == FlatText.GetString(old(Rest()), newStrings)
    {
      s := [];
      var c := GetC();
      if !newStrings || c != Some('"') {
        UngetC(c);
        s := GetBare();
      } else {
        s := GetQuoted();
      }
    }

    method GetBare() returns (s: string)
      requires Valid()
      modifies this
      ensures Valid() && (s, Rest()) == Bare(old(Rest()), '\0', [])
    {
      s := [];
      var c, last := '\0', '\0';
      while true
        invariant Valid() && Bare(old(Rest()), '\0', []) == Bare(Rest(), c, s)
        decreases |Rest()|
      {
        last := c;
        var d := GetC();
        if d == None || d == Some('\0') || (d == Some('\n') && last != '\r') {
          return;
        }
        c := d.value;
        s := SafeChr(s, c);
      }
    }

    /** What is behind an opening quote, one character or escape at a time. */
    lemma QuotedStep(r: string, s: string)
      ensures Quoted([], s) == (s, [])
      ensures r != [] && r[0] == '"' ==> Quoted(r, s) == (s, if |r| > 1 && r[1] == '\n' then r[1..][1..] else r[1..])
      ensures r != [] && r[0] == '\\' ==>
        Quoted(r, s) == (if |r| == 1 then (s, []) else if r[1] == '\0' then (s, r[1..][1..]) else Quoted(r[1..][1..], SafeChr(s, r[1])))
      ensures r != [] && r[0] != '"' && r[0] != '\\' ==>
        Quoted(r, s) == if r[0] == '\0' then (s, r[1..]) else Quoted(r[1..], SafeChr(s, r[0]))
    {
      if |r| > 1 { assert r[1..][1..] == r[2..]; }
    }

    method GetQuoted() returns (s: string)
      requires Valid()
      modifies this
      ensures Valid() && (s, Rest()) == Quoted(old(Rest()), [])
    {
      hide Quoted, SafeChr, Reader.Valid, Reader.Rest, Reader.Behind;
      s := [];
      while true
        invariant Valid() && Quoted(old(Rest()), []) == Quoted(Rest(), s)
        decreases |Rest()|
      {
        QuotedStep(Rest(), s);
        var c := GetC();
        if c == Some('"') {
          ghost var tail := Rest();
          assert tail != [] ==> tail == [tail[0]] + tail[1..];
          c := GetC();
          if c != Some('\n') {
            UngetC(c);
          }
          return;
        } else if c == Some('\\') {
          c := GetC();
        }
        if c == None || c == Some('\0') {
          return;
        }
        s := SafeChr(s, c.value);
      }
    }
  }

  /** A file open for writing. */
  class Writer {
    var text: string

    constructor ()
      ensures text == []
    {
      text := [];
    }

    method PutC(c: char)
      modifies this
      ensures text == old(text) + [c]
    {
      text := text + [c];
    }

    /** fprintf of a string */
    method Puts(s: string)
      modifies this
      ensures text == old(text) + s
    {
      text := text + s;
    }

    method PutRef(n: int)
      modifies this
      ensures text == old(text) + FlatText.PutRef(n)
    {
      text := text + Print(n) + "\n";
      assert text == old(text) + (Print(n) + "\n");
    }

    /** One more character of a string, behind a backslash if it needs one. */
    lemma EscapeOne(before: string, s: string, i: nat)
      requires i < |s|
      ensures var one := if s[i] == '\\' || s[i] == '"' then ['\\', s[i]] else [s[i]];
        before + one + Escaped(s[i + 1..]) == before + Escaped(s[i..])
    {
      assert s[i..][1..] == s[i + 1..];
    }

    /** putstring */
    method PutString(s: string)
      modifies this
      ensures text == old(text) + FlatText.PutString(s)
    {
      hide Escaped;
      PutC('"');
      var i := 0;
      assert s[0..] == s;
      while i < |s|
        invariant 0 <= i <= |s| && text + Escaped(s[i..]) == old(text) + "\"" + Escaped(s)
      {
        EscapeOne(text, s, i);
        PutEscaped(s[i]);
        i := i + 1;
      }
      assert s[i..] == [];
      NothingEscaped();
      assert text == old(text) + "\"" + Escaped(s);
      PutC('"');
      PutC('\n');
      assert text == old(text) + ("\"" + Escaped(s) + "\"\n");
    }

    lemma NothingEscaped()
      ensures Escaped([]) == []
    {}

    method PutEscaped(c: char)
      modifies this
      ensures text == old(text) + if c == '\\' || c == '"' then ['\\', c] else [c]
    {
      if c == '\\' || c == '"' {
        PutC('\\');
      }
      PutC(c);
    }
  }
}
