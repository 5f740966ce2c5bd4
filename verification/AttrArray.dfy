/** The memory back end of src/db.c: each object keeps its attributes in an array sorted by
    number.  It is proved against the same map operations as the disk back end. */
module AttrArray {
  import opened Wrappers
  import opened Constants
  import opened AttrMap

  datatype Cell = Cell(number: int, data: Text)

  predicate Sorted(s: seq<Cell>) {
    forall i, j :: 0 <= i < j < |s| ==> s[i].number < s[j].number
  }

  /** The map an array spells. */
  function MapOf(s: seq<Cell>): map<int, Text> {
    if s == [] then map[] else MapOf(s[..|s| - 1])[s[|s| - 1].number := s[|s| - 1].data]
  }

  lemma {:induction false} MapOfCell(s: seq<Cell>, i: nat)
    requires Sorted(s) && i < |s|
    ensures s[i].number in MapOf(s) && MapOf(s)[s[i].number] == s[i].data
  {
    if i < |s| - 1 { MapOfCell(s[..|s| - 1], i); }
  }

  predicate Has(s: seq<Cell>, n: int) {
    exists i :: 0 <= i < |s| && s[i].number == n
  }

  lemma {:induction false} MapOfKeys(s: seq<Cell>, n: int) returns (i: nat)
    requires n in MapOf(s)
    ensures i < |s| && s[i].number == n
  {
    i := |s| - 1;
    if n != s[i].number { i := MapOfKeys(s[..i], n); }
  }

  /** `at` is where `n` would go: everything before it is smaller, everything from it on is larger. */
  predicate Gap(s: seq<Cell>, at: nat, n: int) {
    at <= |s| && (forall i :: 0 <= i < at ==> s[i].number < n) && (forall i :: at <= i < |s| ==> s[i].number > n)
  }

  lemma GapMissing(s: seq<Cell>, at: nat, n: int)
    requires Gap(s, at, n)
    ensures n !in MapOf(s)
  {
    if n in MapOf(s) { var i := MapOfKeys(s, n); }
  }

  /** A sorted array spells a map when it holds its entries and no others. */
  lemma SameCells(s: seq<Cell>, m: map<int, Text>)
    requires Sorted(s)
    requires forall i :: 0 <= i < |s| ==> s[i].number in m && m[s[i].number] == s[i].data
    requires forall n :: n in m ==> Has(s, n)
    ensures MapOf(s) == m
  {
    hide MapOf;
    forall n ensures n in MapOf(s) <==> n in m {
      if n in MapOf(s) { var i := MapOfKeys(s, n); }
      if n in m {
        var i :| 0 <= i < |s| && s[i].number == n;
        MapOfCell(s, i);
      }
    }
    forall n | n in m ensures MapOf(s)[n] == m[n] {
      var i :| 0 <= i < |s| && s[i].number == n;
      MapOfCell(s, i);
    }
  }

  lemma InsertCell(s: seq<Cell>, t: seq<Cell>, at: nat, c: Cell)
    requires Sorted(s) && Gap(s, at, c.number) && Inserted(s, t, at, c)
    ensures Sorted(t) && MapOf(t) == MapOf(s)[c.number := c.data]
  {
    hide MapOf;
    var m := MapOf(s)[c.number := c.data];
    forall i | 0 <= i < |t| ensures t[i].number in m && m[t[i].number] == t[i].data { InsertedValue(s, t, at, c, i); }
    forall n | n in m ensures Has(t, n) { InsertedKey(s, t, at, c, n); }
    SameCells(t, m);
  }

  /** `t` is `s` with the cell `c` put in at `at`. */
  predicate Inserted(s: seq<Cell>, t: seq<Cell>, at: nat, c: Cell) {
    && |t| == |s| + 1 && at < |t| && t[at] == c
    && (forall i :: 0 <= i < at ==> t[i] == s[i])
    && (forall i :: at < i < |t| ==> t[i] == s[i - 1])
  }

  lemma InsertedValue(s: seq<Cell>, t: seq<Cell>, at: nat, c: Cell, i: nat)
    requires Sorted(s) && Gap(s, at, c.number) && Inserted(s, t, at, c) && i < |t|
    ensures var m := MapOf(s)[c.number := c.data]; t[i].number in m && m[t[i].number] == t[i].data
  {
    hide MapOf;
    GapMissing(s, at, c.number);
    if i < at { MapOfCell(s, i); } else if i > at { MapOfCell(s, i - 1); }
  }

  lemma InsertedKey(s: seq<Cell>, t: seq<Cell>, at: nat, c: Cell, n: int)
    requires Inserted(s, t, at, c) && n in MapOf(s)[c.number := c.data]
    ensures Has(t, n)
  {
    hide MapOf;
    if n == c.number {
      assert t[at].number == n;
    } else {
      var i := MapOfKeys(s, n);
      assert t[if i < at then i else i + 1].number == n;
    }
  }

  lemma ReplaceCell(s: seq<Cell>, t: seq<Cell>, at: nat, data: Text)
    requires Sorted(s) && at < |s| == |t| && t[at] == Cell(s[at].number, data)
    requires forall i :: 0 <= i < |s| && i != at ==> t[i] == s[i]
    ensures Sorted(t) && MapOf(t) == MapOf(s)[s[at].number := data]
  {
    hide MapOf;
    var m := MapOf(s)[s[at].number := data];
    forall i | 0 <= i < |t| ensures t[i].number in m && m[t[i].number] == t[i].data { MapOfCell(s, i); }
    forall n | n in m ensures Has(t, n) {
      if n == s[at].number {
        assert t[at].number == n;
      } else {
        var i := MapOfKeys(s, n);
        assert t[i].number == n;
      }
    }
    SameCells(t, m);
  }

  lemma RemoveCell(s: seq<Cell>, t: seq<Cell>, at: nat)
    requires Sorted(s) && at < |s| && |t| == |s| - 1
    requires forall i :: 0 <= i < at ==> t[i] == s[i]
    requires forall i :: at <= i < |t| ==> t[i] == s[i + 1]
    ensures Sorted(t) && MapOf(t) == Clear(MapOf(s), s[at].number)
  {
    hide MapOf;
    var m := Clear(MapOf(s), s[at].number);
    forall i | 0 <= i < |t| ensures t[i].number in m && m[t[i].number] == t[i].data {
      if i < at { MapOfCell(s, i); } else { MapOfCell(s, i + 1); }
    }
    forall n | n in m ensures Has(t, n) {
      var i := MapOfKeys(s, n);
      assert t[if i < at then i else i - 1].number == n;
    }
    SameCells(t, m);
  }

  /** One object's `ahead` and `at_count`. */
  class ObjAttrs {
    var ahead: array?<Cell>
    var count: nat

    ghost function Cells(): seq<Cell>
      reads this, ahead
    {
      if ahead == null || count > ahead.Length then [] else ahead[..count]
    }

    ghost predicate Valid()
      reads this, ahead
    {
      (ahead != null ==> count <= ahead.Length) && Sorted(Cells())
    }

    ghost function View(): map<int, Text>
      reads this, ahead
    {
      MapOf(Cells())
    }

    constructor ()
      ensures Valid() && View() == map[] && HeadSafe()
    {
      ahead, count := null, 0;
    }

    /** The binary search that all three operations repeat. */
    method Search(atr: int) returns (found: bool, at: nat)
      requires Valid() && ahead != null
      ensures found ==> at < count && ahead[at].number == atr
      ensures !found ==> Gap(Cells(), at, atr)
    {
      var lo, hi: int := 0, count - 1;
      while lo <= hi
        invariant 0 <= lo <= hi + 1 <= count
        invariant forall i :: 0 <= i < lo ==> ahead[i].number < atr
        invariant forall i :: hi < i < count ==> ahead[i].number > atr
      {
        var mid := (hi - lo) / 2 + lo;
        assert forall i :: 0 <= i < mid ==> Cells()[i].number < Cells()[mid].number;
        assert forall i :: mid < i < count ==> Cells()[mid].number < Cells()[i].number;
        if ahead[mid].number == atr {
          return true, mid;
        } else if ahead[mid].number > atr {
          hi := mid - 1;
        } else {
          lo := mid + 1;
        }
      }
      return false, lo;
    }

    /** atr_clr: close the gap over a found cell; anything else is left alone. */
    method AtrClr(atr: int)
      requires Valid()
      modifies this`count, ahead
      ensures Valid() && View() == Clear(old(View()), atr)
      ensures ahead == null ==> count == old(count)
    {
      if count == 0 || ahead == null {
        return;
      }
      ghost var s := Cells();
      var found, mid := Search(atr);
      if found {
        count := count - 1;
        forall i | mid <= i < count { ahead[i] := ahead[i + 1]; }
        RemoveCell(s, Cells(), mid);
      } else {
        GapMissing(s, mid, atr);
      }
    }

    /** atr_add_raw: an empty text clears; a longer one than a buffer holds is cut. */
    method AtrAddRaw(atr: int, buff: Text)
      requires Valid()
      modifies this, ahead
      ensures Valid() && View() == Set(old(View()), atr, Clip(buff))
      ensures ahead == old(ahead) || fresh(ahead)
    {
      if buff == [] {
        AtrClr(atr);
        return;
      }
      var text := if |buff| >= LBUF_SIZE then buff[..LBUF_SIZE - 1] else buff;
      if ahead == null {
        ahead := new Cell[1](_ => Cell(atr, text));
        count := 1;
        assert Cells() == [Cell(atr, text)];
        InsertCell([], Cells(), 0, Cell(atr, text));
        return;
      }
      ghost var s := Cells();
      var found, lo := Search(atr);
      if found {
        ahead[lo] := Cell(atr, text);
        ReplaceCell(s, Cells(), lo, text);
      } else {
        InsertAt(lo, Cell(atr, text));
        InsertCell(s, Cells(), lo, Cell(atr, text));
      }
    }

    /** A block one cell larger, with the cells from `lo` on moved up one slot. */
    method InsertAt(lo: nat, c: Cell)
      requires ahead != null && lo <= count <= ahead.Length
      modifies this
      ensures ahead != null && fresh(ahead) && count == ahead.Length
      ensures |Cells()| == old(count) + 1 && Cells()[lo] == c
      ensures forall i :: 0 <= i < lo ==> Cells()[i] == old(Cells())[i]
      ensures forall i :: lo < i <= old(count) ==> Cells()[i] == old(Cells())[i - 1]
    {
      var list := new Cell[count + 1](_ => c);
      forall i | 0 <= i < count { list[i] := ahead[i]; }
      forall i | lo < i <= count { list[i] := list[i - 1]; }
      list[lo] := c;
      count := count + 1;
      ahead := list;
    }

    method AtrGetRaw(atr: int) returns (r: Option<Text>)
      requires Valid()
      ensures r == Get(View(), atr)
    {
      if ahead == null {
        return None;
      }
      var found, at := Search(atr);
      if found {
        MapOfCell(Cells(), at);
        return Some(ahead[at].data);
      }
      GapMissing(Cells(), at, atr);
      return None;
    }

    /** atr_head looks at the first cell whenever the count is not zero. */
    predicate HeadSafe()
      reads this
    {
      count > 0 ==> ahead != null
    }

    /** atr_free drops the cells but not the count: reads then find nothing, but the next
        walk is safe only if there was nothing to free. */
    method AtrFree()
      modifies this
      ensures Valid() && View() == map[] && (HeadSafe() <==> old(count) == 0)
    {
      ahead := null;
    }

    /** atr_head: the smallest number set, or 0. */
    method AtrHead() returns (attr: int)
      requires Valid() && HeadSafe()
      ensures View() == map[] ==> attr == 0
      ensures View() != map[] ==> attr in View() && forall n :: n in View() ==> attr <= n
    {
      if count > 0 {
        MapOfCell(Cells(), 0);
        forall n | n in View() ensures Cells()[0].number <= n { var i := MapOfKeys(Cells(), n); }
        return ahead[0].number;
      }
      return 0;
    }
  }

  // ---------------------------------------------------------------------
  // The two back ends over whole histories
  // ---------------------------------------------------------------------

  datatype Edit = Add(atr: int, text: Text) | Remove(atr: int)

  /** What the disk back end holds after `edits`. */
  function OnDisk(edits: seq<Edit>): map<int, Text> {
    if edits == [] then map[] else
    var m := OnDisk(edits[..|edits| - 1]);
    match edits[|edits| - 1]
    case Add(a, v) => Set(m, a, v)
    case Remove(a) => Clear(m, a)
  }

  /** What the memory back end holds after `edits`. */
  function InMemory(edits: seq<Edit>): map<int, Text> {
    if edits == [] then map[] else
    var m := InMemory(edits[..|edits| - 1]);
    match edits[|edits| - 1]
    case Add(a, v) => Set(m, a, Clip(v))
    case Remove(a) => Clear(m, a)
  }

  /** After any history the memory holds the disk's texts, each cut to a buffer. */
  lemma {:induction false} MemoryClipsDisk(edits: seq<Edit>)
    ensures InMemory(edits).Keys == OnDisk(edits).Keys
    ensures forall a :: a in OnDisk(edits) ==> InMemory(edits)[a] == Clip(OnDisk(edits)[a])
  {
    if edits != [] { MemoryClipsDisk(edits[..|edits| - 1]); }
  }

  /** The back ends are the same map exactly while no text outgrows the buffer. */
  lemma BackEndsAgree(edits: seq<Edit>)
    ensures InMemory(edits) == OnDisk(edits) <==> forall a :: a in OnDisk(edits) ==> |OnDisk(edits)[a]| < LBUF_SIZE
  {
    MemoryClipsDisk(edits);
    if InMemory(edits) == OnDisk(edits) {
      forall a | a in OnDisk(edits) ensures |OnDisk(edits)[a]| < LBUF_SIZE {
        assert OnDisk(edits)[a] == Clip(OnDisk(edits)[a]);
      }
    }
    if forall a :: a in OnDisk(edits) ==> |OnDisk(edits)[a]| < LBUF_SIZE {
      forall a ensures a in InMemory(edits) <==> a in OnDisk(edits) { assert a in InMemory(edits).Keys <==> a in OnDisk(edits).Keys; }
      forall a | a in OnDisk(edits) ensures InMemory(edits)[a] == OnDisk(edits)[a] {}
      assert InMemory(edits) == OnDisk(edits);
    }
  }

  /** One byte more than a buffer holds. */
  function LongText(): (r: Text)
    ensures |r| == LBUF_SIZE
  {
    seq(LBUF_SIZE, _ => 65)
  }

  /** Set as a description, such a text is stored differently. */
  lemma BackEndsDiffer()
    ensures InMemory([Add(6, LongText())]) != OnDisk([Add(6, LongText())])
  {
    hide LongText;
    var edits := [Add(6, LongText())];
    assert edits[..0] == [] && LongText() != [];
    assert OnDisk(edits) == Set(map[], 6, LongText());
    assert 6 in OnDisk(edits) && |OnDisk(edits)[6]| == LBUF_SIZE;
    BackEndsAgree(edits);
  }
}
