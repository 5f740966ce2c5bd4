/** One object as it stands in a flat file, character by character. */
module FlatExample {
  import opened Constants
  import opened FlatText
  import opened AttrTable
  import opened LockTree
  import opened LockText
  import opened FlatDb

  const NAMES: Table := Table(map[300 := "MEMO"], map["MEMO" := 300], 301)

  /** Fields with different values, a lock, and a text with characters that are escaped. */
  const THING: Obj := Obj("Cup", 1, 2, 3, 4, 5, 6, Pair(And, Const(7), Prefix(LockTree.PrefixOp.Not, Const(8))), 9, 10, -1, 12, 13, 14, 15, 16,
                          map[300 := "a\"b\\c"])

  lemma Line(n: nat)
    requires n < 100
    ensures PutRef(n) == (if n < 10 then [Digit(n)] else [Digit(n / 10), Digit(n % 10)]) + "\n"
  {
    if n >= 10 { assert Decimal(n / 10) == [Digit(n / 10)]; }
  }

  lemma MinusOne()
    ensures PutRef(-1) == "-1\n"
  {
  }

  lemma LockLine()
    ensures Writable(THING) && Put(NAMES, THING.lock) == "(7&(!8))\n"
  {
    assert PutSub(NAMES, Const(7)) == "7" && PutSub(NAMES, Const(8)) == "8";
    assert PutSub(NAMES, Prefix(LockTree.PrefixOp.Not, Const(8))) == "(!8)";
  }

  lemma EscapedText()
    ensures PutString("a\"b\\c") == "\"a\\\"b\\\\c\"\n"
  {
    assert Escaped("c") == "c" by { assert "c"[1..] == ""; }
    assert Escaped("\\c") == "\\\\c" by { assert "\\c"[1..] == "c"; }
    assert Escaped("b\\c") == "b\\\\c" by { assert "b\\c"[1..] == "\\c"; }
    assert Escaped("\"b\\c") == "\\\"b\\\\c" by { assert "\"b\\c"[1..] == "b\\c"; }
    assert Escaped("a\"b\\c") == "a\\\"b\\\\c" by { assert "a\"b\\c"[1..] == "\"b\\c"; }
    hide Escaped;
  }

  lemma AttrNumber()
    ensures PutRef(300) == "300\n"
  {
    assert Decimal(3) == "3" && Decimal(30) == "30" && Decimal(300) == "300";
  }

  lemma AttrLines()
    ensures PutList(NAMES, THING.attrs, [300]) == ">300\n\"a\\\"b\\\\c\"\n<\n"
  {
    hide PutRef, PutString;
    AttrNumber();
    EscapedText();
    assert PutAttr(NAMES, THING.attrs, 300) == ">300\n\"a\\\"b\\\\c\"\n";
    hide PutAttr;
    assert [300][1..] == [];
  }

  /** One line more, in front. */
  lemma Put1(n: int, line: string, ns: seq<int>, lines: string, all: seq<int>, text: string)
    requires PutRef(n) == line && PutRefs(ns) == lines && all == [n] + ns && text == line + lines
    ensures PutRefs(all) == text
  {
    assert all[1..] == ns;
  }

  lemma LinkLines()
    ensures PutRefs(Links(THING)) == "1\n2\n3\n4\n5\n6\n"
  {
    hide PutRef, PutRefs;
    NoLines();
    Line(1);
    Line(2);
    Line(3);
    Line(4);
    Line(5);
    Line(6);
    Put1(6, "6\n", [], "", [6], "6\n");
    Put1(5, "5\n", [6], "6\n", [5, 6], "5\n6\n");
    Put1(4, "4\n", [5, 6], "5\n6\n", [4, 5, 6], "4\n5\n6\n");
    Put1(3, "3\n", [4, 5, 6], "4\n5\n6\n", [3, 4, 5, 6], "3\n4\n5\n6\n");
    Put1(2, "2\n", [3, 4, 5, 6], "3\n4\n5\n6\n", [2, 3, 4, 5, 6], "2\n3\n4\n5\n6\n");
    Put1(1, "1\n", [2, 3, 4, 5, 6], "2\n3\n4\n5\n6\n", [1, 2, 3, 4, 5, 6], "1\n2\n3\n4\n5\n6\n");
  }

  lemma NoLines()
    ensures PutRefs([]) == ""
  {
  }

  lemma PowerLines()
    ensures PutRefs([13, 14, 15, 16]) == "13\n14\n15\n16\n"
  {
    hide PutRef, PutRefs;
    NoLines();
    Line(13);
    Line(14);
    Line(15);
    Line(16);
    Put1(16, "16\n", [], "", [16], "16\n");
    Put1(15, "15\n", [16], "16\n", [15, 16], "15\n16\n");
    Put1(14, "14\n", [15, 16], "15\n16\n", [14, 15, 16], "14\n15\n16\n");
    Put1(13, "13\n", [14, 15, 16], "14\n15\n16\n", [13, 14, 15, 16], "13\n14\n15\n16\n");
  }

  lemma OwnerLines()
    ensures PutRefs([9, 10, -1, 12]) == "9\n10\n-1\n12\n"
  {
    hide PutRef, PutRefs;
    NoLines();
    MinusOne();
    Line(9);
    Line(10);
    Line(12);
    Put1(12, "12\n", [], "", [12], "12\n");
    Put1(-1, "-1\n", [12], "12\n", [-1, 12], "-1\n12\n");
    Put1(10, "10\n", [-1, 12], "-1\n12\n", [10, -1, 12], "10\n-1\n12\n");
    Put1(9, "9\n", [10, -1, 12], "10\n-1\n12\n", [9, 10, -1, 12], "9\n10\n-1\n12\n");
  }

  lemma {:induction false} PutBoth(a: seq<int>, b: seq<int>)
    ensures PutRefs(a + b) == PutRefs(a) + PutRefs(b)
  {
    if a == [] {
      assert a + b == b;
    } else {
      assert (a + b)[1..] == a[1..] + b;
      PutBoth(a[1..], b);
    }
  }

  lemma NumberLines()
    ensures PutRefs(FlatDb.Numbers(THING)) == "9\n10\n-1\n12\n" + "13\n14\n15\n16\n"
  {
    hide PutRef, PutRefs;
    PowerLines();
    OwnerLines();
    PutBoth([9, 10, -1, 12], [13, 14, 15, 16]);
    assert FlatDb.Numbers(THING) == [9, 10, -1, 12] + [13, 14, 15, 16];
  }

  lemma NameLine()
    ensures PutString("Cup") == "\"Cup\"\n"
  {
    assert Escaped("p") == "p" by { assert "p"[1..] == ""; }
    assert Escaped("up") == "up" by { assert "up"[1..] == "p"; }
    assert Escaped("Cup") == "Cup" by { assert "Cup"[1..] == "up"; }
  }

  /** The order of the fields, the quoting, the form of a lock and the end of a list are those of
      the file format. */
  lemma ThingText()
    ensures Writable(THING)
    ensures PutObject(NAMES, THING, [300])
         == "\"Cup\"\n" + ("1\n2\n3\n4\n5\n6\n" + ("(7&(!8))\n" + ("9\n10\n-1\n12\n" + "13\n14\n15\n16\n"
            + ">300\n\"a\\\"b\\\\c\"\n<\n")))
  {
    hide PutString, PutRefs, Put, PutList, Links, FlatDb.Numbers;
    LockLine();
    NameLine();
    LinkLines();
    NumberLines();
    AttrLines();
  }
}
