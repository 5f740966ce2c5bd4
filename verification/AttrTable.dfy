/** The attribute names (src/vattr.c, atr_num, atr_str and mkattr in src/db.c). */
module AttrTable {
  import opened CString
  import opened Wrappers

  const VNAME_SIZE: nat := 32

  function Upper(c: char): char {
    if 'a' <= c <= 'z' then c - 'a' + 'A' else c
  }

  function UpperAll(s: string): (r: string)
    ensures |r| == |s| && forall i :: 0 <= i < |s| ==> r[i] == Upper(s[i])
  {
    if s == [] then [] else [Upper(s[0])] + UpperAll(s[1..])
  }

  function Lower(c: char): char {
    if 'A' <= c <= 'Z' then c - 'A' + 'a' else c
  }

  function LowerAll(s: string): (r: string)
    ensures |r| == |s| && forall i :: 0 <= i < |s| ==> r[i] == Lower(s[i])
  {
    if s == [] then [] else [Lower(s[0])] + LowerAll(s[1..])
  }

  /** The form under which a name is looked up: upper case, cut to size. */
  function Key(s: string): (r: string)
    ensures |r| == if |s| < VNAME_SIZE then |s| else VNAME_SIZE - 1
  {
    UpperAll(if |s| < VNAME_SIZE then s else s[..VNAME_SIZE - 1])
  }

  lemma {:induction false} UpperTwice(s: string)
    ensures UpperAll(UpperAll(s)) == UpperAll(s) && UpperAll(LowerAll(s)) == UpperAll(s)
  {
    if s != [] {
      assert UpperAll(s)[1..] == UpperAll(s[1..]) && LowerAll(s)[1..] == LowerAll(s[1..]);
      UpperTwice(s[1..]);
    }
  }

  /** Names that differ in case only are the same name, and so are long ones that agree in their
      first 31 characters; shorter ones are told apart by every character. */
  lemma KeyForgets(s: string, u: string)
    ensures UpperAll(s) == UpperAll(u) ==> Key(s) == Key(u)
    ensures |s| >= 32 ==> Key(s) == Key(s[..31])
    ensures |s| < 32 && |u| < 32 && Key(s) == Key(u) ==> UpperAll(s) == UpperAll(u)
  {
    if UpperAll(s) == UpperAll(u) && |s| >= VNAME_SIZE {
      UpperFront(s, VNAME_SIZE - 1);
      UpperFront(u, VNAME_SIZE - 1);
    }
  }

  lemma {:induction false} UpperFront(s: string, k: nat)
    requires k <= |s|
    ensures UpperAll(s[..k]) == UpperAll(s)[..k]
  {
    if k > 0 {
      assert s[..k][1..] == s[1..][..k - 1];
      UpperFront(s[1..], k - 1);
    }
  }

  predicate OkChar(c: char) {
    IsAlpha(c) || IsDigit(c) || c in "'?!`/-_.@#$^&~=+<>()%"
  }

  /** ok_attr_name */
  predicate OkName(s: string) {
    s != [] && IsAlpha(s[0]) && forall i :: 0 <= i < |s| ==> OkChar(s[i])
  }

  /** Names by number, numbers by key, and the next number to hand out. */
  datatype Table = Table(names: map<int, string>, numbers: map<string, int>, next: int)

  /** atr_num */
  function NameOf(t: Table, n: int): Option<string> {
    if n in t.names then Some(t.names[n]) else None
  }

  /** vattr_alloc skips numbers whose low seven bits are zero. */
  function NextNumber(t: Table): int {
    if t.next % 128 == 0 then t.next + 1 else t.next
  }

  /** mkattr: find the number of a name, or make one; -1 if the name will not do. */
  function MkAttr(t: Table, name: string): (Table, int) {
    var k := Key(name);
    if k in t.numbers then (t, if t.numbers[k] == 0 then -1 else t.numbers[k])
    else
      var n := NextNumber(t);
      if OkName(k) then (Table(t.names[n := k], t.numbers[k := n], n + 1), if n == 0 then -1 else n)
      else (t.(next := n + 1), -1)
  }

  /** What the server keeps of a name: it fits, it starts with a letter (or the star of the
      three internal attributes), and it holds neither of the characters that end a name. */
  predicate NameShape(s: string) {
    0 < |s| < VNAME_SIZE && (IsAlpha(s[0]) || s[0] == '*') && ':' !in s && '\n' !in s
  }

  /** A key that finds attribute `n`: that of its name, or an alias.  Only built-in attributes
      have aliases, and no built-in name holds a slash. */
  predicate Finds(t: Table, k: string, n: int) {
    n in t.names && (Key(t.names[n]) == k || '/' !in t.names[n])
  }

  /** Names find their numbers, keys find attributes, and numbers not yet handed out are unused. */
  ghost predicate Sound(t: Table) {
    && t.next > 0
    && (forall n :: n in t.names ==> 0 < n < t.next && NameShape(t.names[n]))
    && (forall n :: n in t.names ==> Key(t.names[n]) in t.numbers && t.numbers[Key(t.names[n])] == n)
    && (forall k :: k in t.numbers ==> Finds(t, k, t.numbers[k]))
  }

  lemma KeyOfKey(s: string)
    requires |s| < VNAME_SIZE
    ensures Key(Key(s)) == Key(s)
  {}

  /** Upper case brings no slash and takes none away. */
  lemma KeySlash(s: string)
    ensures '/' !in s ==> '/' !in Key(s)
    ensures |s| < VNAME_SIZE && '/' in s ==> '/' in Key(s)
  {
    forall i | 0 <= i < |Key(s)| ensures Key(s)[i] == Upper(s[i]) && s[i] in s {}
    if |s| < VNAME_SIZE && '/' in s {
      var j :| 0 <= j < |s| && s[j] == '/';
      assert Key(s)[j] == '/';
    }
  }

  lemma OkNameShape(s: string)
    requires OkName(s) && |s| < VNAME_SIZE
    ensures NameShape(s)
  {
    assert !OkChar(':') && !OkChar('\n');
    assert forall i :: 0 <= i < |s| ==> OkChar(s[i]);
  }

  /** Making an attribute keeps the table sound; an existing name keeps its number and a
      new one gets a number no attribute had. */
  lemma MkAttrSound(t: Table, name: string)
    requires Sound(t)
    ensures Sound(MkAttr(t, name).0)
    ensures Key(name) in t.numbers ==> MkAttr(t, name) == (t, t.numbers[Key(name)])
    ensures Key(name) !in t.numbers ==> MkAttr(t, name).1 !in t.names
    ensures var r := MkAttr(t, name); r.1 > 0 ==> Finds(r.0, Key(name), r.1) && (r.1 !in t.names ==> r.0.names[r.1] == Key(name))
  {
    var k := Key(name);
    if k !in t.numbers && OkName(k) {
      KeyOfKey(if |name| < VNAME_SIZE then name else name[..VNAME_SIZE - 1]);
      assert Key(k) == k;
      OkNameShape(k);
      var r := MkAttr(t, name).0;
      var n := NextNumber(t);
      forall m | m in r.names
        ensures 0 < m < r.next && NameShape(r.names[m]) && Key(r.names[m]) in r.numbers && r.numbers[Key(r.names[m])] == m
      {
        if m != n { assert m in t.names && Key(t.names[m]) != k; }
      }
      forall j | j in r.numbers ensures Finds(r, j, r.numbers[j]) {
        if j != k { assert Finds(t, j, t.numbers[j]) && t.numbers[j] != n; }
      }
    }
  }

  /** A new name gets the next number whose low seven bits are not all zero, if it is a legal one;
      otherwise the number is used up for nothing. */
  lemma NewNumber(t: Table, name: string)
    requires t.next > 0 && Key(name) !in t.numbers
    ensures var r := MkAttr(t, name); var n := if r.1 > 0 then r.1 else r.0.next - 1;
      && t.next <= n <= t.next + 1 && n % 128 != 0 && (n > t.next ==> t.next % 128 == 0) && r.0.next == n + 1
      && (if OkName(Key(name)) then r.1 == n && r.0.names == t.names[n := Key(name)] && r.0.numbers == t.numbers[Key(name) := n]
          else r.1 == -1 && r.0.numbers == t.numbers && r.0.names == t.names)
  {
    hide Key, OkName;
  }

  /** cf_alias, while the configuration is read and all names are built in: a second key for
      the attribute that `orig` finds, refused when nothing is found or the alias is taken. */
  function AddAlias(t: Table, alias: string, orig: string): Table {
    var lower := LowerAll(orig) in t.numbers;
    var k, a := if lower then LowerAll(orig) else UpperAll(orig), if lower then LowerAll(alias) else UpperAll(alias);
    if k !in t.numbers || a in t.numbers then t else t.(numbers := t.numbers[a := t.numbers[k]])
  }

  /** An alias keeps the table sound and every attribute its name and number, and finds what
      the original finds. */
  lemma AliasSound(t: Table, alias: string, orig: string)
    requires Sound(t) && forall n :: n in t.names ==> '/' !in t.names[n]
    ensures var r := AddAlias(t, alias, orig);
      && Sound(r) && r.names == t.names && r.next == t.next
      && (forall k :: k in t.numbers ==> k in r.numbers && r.numbers[k] == t.numbers[k])
      && (LowerAll(orig) !in t.numbers && UpperAll(orig) in t.numbers && UpperAll(alias) !in t.numbers ==>
            UpperAll(alias) in r.numbers && r.numbers[UpperAll(alias)] == t.numbers[UpperAll(orig)])
  {
    var r := AddAlias(t, alias, orig);
    forall k | k in r.numbers ensures Finds(r, k, r.numbers[k]) {
      if k in t.numbers {
        assert Finds(t, k, t.numbers[k]);
      } else {
        var from := if LowerAll(orig) in t.numbers then LowerAll(orig) else UpperAll(orig);
        assert Finds(t, from, r.numbers[k]);
      }
    }
  }

  /** The server with one of its built-in attributes. */
  const KILL_ONLY: Table := Table(map[11 := "Kill"], map["KILL" := 11], 256)

  lemma KillKeys()
    ensures Key("Kill") == "KILL" == UpperAll("kill") && LowerAll("kill") == "kill" != "KILL"
  {
    assert "kill"[0] != "KILL"[0];
  }

  lemma DeathKeys()
    ensures Key("Death") == "DEATH" == UpperAll("death")
  {
  }

  lemma KillShape()
    ensures NameShape("Kill") && '/' !in "Kill"
  {
  }

  lemma KillSound()
    ensures Sound(KILL_ONLY) && "DEATH" !in KILL_ONLY.numbers && "kill" !in KILL_ONLY.numbers
  {
    KillKeys();
    KillShape();
    assert |"DEATH"| != |"KILL"|;
    hide Key, UpperAll, LowerAll, NameShape;
  }

  /** An alias of the shipped configuration: `DEATH` finds the attribute whose name is `Kill`. */
  lemma DeathAlias()
    ensures Sound(AddAlias(KILL_ONLY, "death", "kill"))
    ensures MkAttr(AddAlias(KILL_ONLY, "death", "kill"), "Death").1 == 11 && Key(KILL_ONLY.names[11]) != "DEATH"
  {
    KillKeys();
    DeathKeys();
    KillSound();
    KillShape();
    hide Key, UpperAll, LowerAll, Sound, NameShape;
    AliasSound(KILL_ONLY, "death", "kill");
  }

  class Attrs {
    var table: Table

    constructor (table: Table)
      ensures this.table == table
    {
      this.table := table;
    }

    method MakeAttr(name: string) returns (n: int)
      modifies this
      ensures (table, n) == MkAttr(old(table), name)
    {
      var k := Key(name);
      if k in table.numbers {
        return if table.numbers[k] == 0 then -1 else table.numbers[k];
      }
      n := table.next;
      table := table.(next := table.next + 1);
      if n % 128 == 0 {
        n := table.next;
        table := table.(next := table.next + 1);
      }
      if !OkName(k) {
        return -1;
      }
      table := table.(names := table.names[n := k], numbers := table.numbers[k := n]);
      if n == 0 {
        return -1;
      }
    }
  }
}
