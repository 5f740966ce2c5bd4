/** The membership indexes of the channel system (src/comsys.c), as values: who is on a
    channel, who of them is connected, which aliases exist, and each player's list of them. */
module Channels {
  import opened Wrappers

  /** A channel: its members, newest first, their number, and the connected ones among them. */
  datatype Channel = Channel(owner: int, who: seq<int>, numWho: int, connectWho: seq<int>)

  datatype Alias = Alias(channel: string, title: string)

  /** `s` without the first `x`. */
  function Drop<T(==)>(s: seq<T>, x: T): seq<T> {
    if s == [] then [] else if s[0] == x then s[1..] else [s[0]] + Drop(s[1..], x)
  }

  lemma {:induction false} DropElements<T>(s: seq<T>, x: T)
    requires Distinct(s)
    ensures Distinct(Drop(s, x)) && (forall y :: y in Drop(s, x) <==> y in s && y != x)
    ensures |Drop(s, x)| == if x in s then |s| - 1 else |s|
  {
    if s != [] {
      assert s == [s[0]] + s[1..];
      assert forall i :: 0 <= i < |s[1..]| ==> s[1..][i] == s[i + 1];
      if s[0] != x {
        DropElements(s[1..], x);
        var d := Drop(s[1..], x);
        assert s[0] !in d;
        assert forall i :: 0 < i < |[s[0]] + d| ==> ([s[0]] + d)[i] == d[i - 1];
      }
    }
  }

  /** The members that count as connected. */
  function LiveOf(who: seq<int>, live: set<int>): seq<int> {
    if who == [] then [] else (if who[0] in live then [who[0]] else []) + LiveOf(who[1..], live)
  }

  lemma {:induction false} LiveElements(who: seq<int>, live: set<int>)
    ensures forall p :: p in LiveOf(who, live) <==> p in who && p in live
  {
    if who != [] {
      LiveElements(who[1..], live);
      assert who == [who[0]] + who[1..];
    }
  }

  // ---------------------------------------------------------------------
  // The invariant
  // ---------------------------------------------------------------------

  /** Has the player an alias for the channel? */
  ghost predicate HasAlias(aliases: map<(int, string), Alias>, p: int, c: string) {
    exists a :: (p, a) in aliases && aliases[(p, a)].channel == c
  }

  function ListOf(comlists: map<int, seq<string>>, p: int): seq<string> {
    if p in comlists then comlists[p] else []
  }

  /** Each player's list holds exactly that player's aliases, each once; no list is empty. */
  ghost predicate ListsOk(aliases: map<(int, string), Alias>, comlists: map<int, seq<string>>) {
    && (forall p :: p in comlists ==> comlists[p] != [])
    && (forall p :: Distinct(ListOf(comlists, p)))
    && (forall p, a :: (p, a) in aliases <==> a in ListOf(comlists, p))
  }

  ghost predicate AliasesOk(aliases: map<(int, string), Alias>, channels: map<string, Channel>) {
    forall k :: k in aliases ==> aliases[k].channel in channels
  }

  /** Members are counted and different. */
  ghost predicate CountsOk(channels: map<string, Channel>) {
    forall c :: c in channels ==> Distinct(channels[c].who) && channels[c].numWho == |channels[c].who|
  }

  /** A player is a member exactly when there is an alias, except perhaps `but`. */
  ghost predicate MembersOk(channels: map<string, Channel>, aliases: map<(int, string), Alias>, but: set<(int, string)>) {
    forall c, p :: c in channels && (p, c) !in but ==> (p in channels[c].who <==> HasAlias(aliases, p, c))
  }

  /** The connected members are known, except on a channel nobody is left on. */
  ghost predicate ConnectOk(channels: map<string, Channel>, live: set<int>) {
    forall c :: c in channels && channels[c].who != [] ==> channels[c].connectWho == LiveOf(channels[c].who, live)
  }

  ghost predicate Consistent(channels: map<string, Channel>, aliases: map<(int, string), Alias>,
                             comlists: map<int, seq<string>>, live: set<int>) {
    && ListsOk(aliases, comlists) && AliasesOk(aliases, channels) && CountsOk(channels)
    && MembersOk(channels, aliases, {}) && ConnectOk(channels, live)
  }

  // ---------------------------------------------------------------------
  // How the indexes change
  // ---------------------------------------------------------------------

  function PutList(comlists: map<int, seq<string>>, p: int, l: seq<string>): map<int, seq<string>> {
    if l == [] then comlists - {p} else comlists[p := l]
  }

  lemma AddToList(aliases: map<(int, string), Alias>, comlists: map<int, seq<string>>, p: int, a: string, v: Alias)
    requires ListsOk(aliases, comlists) && (p, a) !in aliases
    ensures ListsOk(aliases[(p, a) := v], comlists[p := [a] + ListOf(comlists, p)])
  {
    var l := [a] + ListOf(comlists, p);
    var comlists' := comlists[p := l];
    assert a !in ListOf(comlists, p);
    assert Distinct(l) by {
      assert forall i :: 0 < i < |l| ==> l[i] == ListOf(comlists, p)[i - 1];
    }
    forall q ensures Distinct(ListOf(comlists', q)) {
      if q != p { assert ListOf(comlists', q) == ListOf(comlists, q); }
    }
    forall q, b ensures (q, b) in aliases[(p, a) := v] <==> b in ListOf(comlists', q) {
      assert (q, b) in aliases <==> b in ListOf(comlists, q);
    }
  }

  lemma DropFromList(aliases: map<(int, string), Alias>, comlists: map<int, seq<string>>, p: int, a: string)
    requires ListsOk(aliases, comlists)
    ensures ListsOk(aliases - {(p, a)}, PutList(comlists, p, Drop(ListOf(comlists, p), a)))
  {
    var l := Drop(ListOf(comlists, p), a);
    var comlists' := PutList(comlists, p, l);
    assert Distinct(ListOf(comlists, p));
    DropElements(ListOf(comlists, p), a);
    forall q ensures ListOf(comlists', q) == if q == p then l else ListOf(comlists, q) {}
    forall q, b ensures (q, b) in aliases - {(p, a)} <==> b in ListOf(comlists', q) {
      assert (q, b) in aliases <==> b in ListOf(comlists, q);
    }
  }

  /** Adding an alias touches nobody's membership but its owner's on its channel. */
  lemma AliasAdded(aliases: map<(int, string), Alias>, p: int, a: string, v: Alias, q: int, c: string)
    requires (p, a) !in aliases
    ensures HasAlias(aliases[(p, a) := v], q, c) <==> HasAlias(aliases, q, c) || (q == p && c == v.channel)
  {
    var aliases' := aliases[(p, a) := v];
    if HasAlias(aliases, q, c) {
      var b :| (q, b) in aliases && aliases[(q, b)].channel == c;
      assert (q, b) in aliases' && aliases'[(q, b)].channel == c;
    }
    if q == p && c == v.channel { assert (q, a) in aliases' && aliases'[(q, a)].channel == c; }
  }

  lemma AliasDropped(aliases: map<(int, string), Alias>, p: int, a: string, q: int, c: string)
    requires (p, a) in aliases
    ensures (q, c) != (p, aliases[(p, a)].channel) ==> (HasAlias(aliases - {(p, a)}, q, c) <==> HasAlias(aliases, q, c))
  {
    var aliases' := aliases - {(p, a)};
    if (q, c) != (p, aliases[(p, a)].channel) {
      if HasAlias(aliases, q, c) {
        var b :| (q, b) in aliases && aliases[(q, b)].channel == c;
        assert (q, b) in aliases' && aliases'[(q, b)].channel == c;
      }
    }
  }

  /** Taking one member off one channel. */
  lemma MemberDropped(channels: map<string, Channel>, channels': map<string, Channel>, aliases: map<(int, string), Alias>,
                      but: set<(int, string)>, p: int, c: string)
    requires CountsOk(channels) && MembersOk(channels, aliases, but) && c in channels && !HasAlias(aliases, p, c)
    requires channels'.Keys == channels.Keys && CountsOk(channels')
    requires forall d :: d in channels && d != c ==> channels'[d] == channels[d]
    requires forall q :: q in channels'[c].who <==> q in channels[c].who && q != p
    ensures MembersOk(channels', aliases, but - {(p, c)})
  {
    forall d, q | d in channels' && (q, d) !in but - {(p, c)} ensures q in channels'[d].who <==> HasAlias(aliases, q, d) {
      if (q, d) != (p, c) { assert (q, d) !in but; assert q in channels[d].who <==> HasAlias(aliases, q, d); }
    }
  }

  /** The aliases left when a player loses those for the channel `gone`. */
  function Without(aliases: map<(int, string), Alias>, p: int, gone: string): map<(int, string), Alias> {
    map k | k in aliases && !(k.0 == p && aliases[k].channel == gone) :: aliases[k]
  }

  /** Of a player's list, the aliases for other channels. */
  function Others(l: seq<string>, aliases: map<(int, string), Alias>, p: int, c: string): seq<string> {
    if l == [] then []
    else
      var a := l[|l| - 1];
      Others(l[..|l| - 1], aliases, p, c) + if (p, a) in aliases && aliases[(p, a)].channel == c then [] else [a]
  }

  lemma {:induction false} OthersElements(l: seq<string>, aliases: map<(int, string), Alias>, p: int, c: string)
    requires Distinct(l)
    ensures var r := Others(l, aliases, p, c);
      Distinct(r) && forall a :: a in r <==> a in l && !((p, a) in aliases && aliases[(p, a)].channel == c)
  {
    if l != [] {
      var m := l[..|l| - 1];
      OthersElements(m, aliases, p, c);
      assert l == m + [l[|l| - 1]];
      assert l[|l| - 1] !in m;
    }
  }

  lemma OthersListed(aliases: map<(int, string), Alias>, comlists: map<int, seq<string>>, p: int, c: string)
    requires ListsOk(aliases, comlists)
    ensures ListsOk(Without(aliases, p, c), PutList(comlists, p, Others(ListOf(comlists, p), aliases, p, c)))
  {
    var l := Others(ListOf(comlists, p), aliases, p, c);
    var comlists' := PutList(comlists, p, l);
    assert Distinct(ListOf(comlists, p));
    OthersElements(ListOf(comlists, p), aliases, p, c);
    hide Distinct, Others;
    forall q ensures ListOf(comlists', q) == if q == p then l else ListOf(comlists, q) {}
    forall q, b ensures (q, b) in Without(aliases, p, c) <==> b in ListOf(comlists', q) {
      assert (q, b) in aliases <==> b in ListOf(comlists, q);
    }
  }

  /** Without a player's aliases for a channel, only that player's place on it is in doubt. */
  lemma MembersWithout(channels: map<string, Channel>, aliases: map<(int, string), Alias>, p: int, gone: string)
    requires MembersOk(channels, aliases, {}) && AliasesOk(aliases, channels)
    ensures MembersOk(channels, Without(aliases, p, gone), {(p, gone)})
    ensures AliasesOk(Without(aliases, p, gone), channels) && !HasAlias(Without(aliases, p, gone), p, gone)
  {
    var aliases' := Without(aliases, p, gone);
    forall c, q | c in channels && (q, c) != (p, gone) ensures q in channels[c].who <==> HasAlias(aliases', q, c) {
      assert q in channels[c].who <==> HasAlias(aliases, q, c);
      if HasAlias(aliases, q, c) {
        var b :| (q, b) in aliases && aliases[(q, b)].channel == c;
        assert (q, b) in aliases' && aliases'[(q, b)].channel == c;
      }
    }
  }

  lemma {:induction false} DropMissing<T>(s: seq<T>, x: T)
    requires x !in s
    ensures Drop(s, x) == s
  {
    if s != [] { DropMissing(s[1..], x); }
  }

  /** The aliases left when a player loses all. */
  function WithoutAll(aliases: map<(int, string), Alias>, p: int): map<(int, string), Alias> {
    map k | k in aliases && k.0 != p :: aliases[k]
  }

  lemma AllUnlisted(aliases: map<(int, string), Alias>, comlists: map<int, seq<string>>, p: int)
    requires ListsOk(aliases, comlists)
    ensures ListsOk(WithoutAll(aliases, p), comlists - {p})
  {
    hide Distinct;
    var comlists' := comlists - {p};
    forall q ensures ListOf(comlists', q) == if q == p then [] else ListOf(comlists, q) {}
    assert Distinct<string>([]) by { NothingTwice(); }
    forall q, b ensures (q, b) in WithoutAll(aliases, p) <==> b in ListOf(comlists', q) {
      assert (q, b) in aliases <==> b in ListOf(comlists, q);
    }
  }

  lemma NothingTwice()
    ensures Distinct<string>([])
  {}

  /** Without all of a player's aliases, the player's place on the channels they were for is in doubt. */
  lemma MembersWithoutAll(channels: map<string, Channel>, aliases: map<(int, string), Alias>, p: int, chs: seq<string>)
    requires MembersOk(channels, aliases, {}) && AliasesOk(aliases, channels)
    requires forall c :: c in chs <==> HasAlias(aliases, p, c)
    ensures MembersOk(channels, WithoutAll(aliases, p), set c | c in chs :: (p, c)) && AliasesOk(WithoutAll(aliases, p), channels)
    ensures forall c :: !HasAlias(WithoutAll(aliases, p), p, c)
    ensures forall c :: c in chs ==> c in channels && p in channels[c].who
    ensures forall c :: c in channels && c !in chs ==> p !in channels[c].who
  {
    var but := set c | c in chs :: (p, c);
    var aliases' := WithoutAll(aliases, p);
    forall c, q | c in channels && (q, c) !in but ensures q in channels[c].who <==> HasAlias(aliases', q, c) {
      assert q in channels[c].who <==> HasAlias(aliases, q, c);
      if HasAlias(aliases, q, c) && q != p {
        var b :| (q, b) in aliases && aliases[(q, b)].channel == c;
        assert (q, b) in aliases' && aliases'[(q, b)].channel == c;
      }
    }
    forall c | c in chs ensures c in channels && p in channels[c].who {
      assert HasAlias(aliases, p, c);
      var b :| (p, b) in aliases && aliases[(p, b)].channel == c;
    }
    forall c | c in channels && c !in chs ensures p !in channels[c].who {
      assert p in channels[c].who <==> HasAlias(aliases, p, c);
    }
  }

  /** Somebody else's connection changes nothing. */
  lemma {:induction false} LiveElsewhere(who: seq<int>, live: set<int>, live': set<int>, p: int)
    requires p !in who && live - {p} == live' - {p}
    ensures LiveOf(who, live) == LiveOf(who, live')
  {
    if who != [] {
      assert who[0] in live <==> who[0] in live - {p};
      assert who[0] in live' <==> who[0] in live' - {p};
      LiveElsewhere(who[1..], live, live', p);
    }
  }

  /** A channel when a player has joined: in front of the others, unless already there. */
  function AfterJoining(ch: Channel, p: int, live: set<int>): Channel {
    if p in ch.who then ch
    else ch.(who := [p] + ch.who, numWho := ch.numWho + 1, connectWho := LiveOf([p] + ch.who, live))
  }

  /** A channel when a member has left: the connected members are listed anew, unless nobody
      is left. */
  function AfterLeaving(ch: Channel, p: int, live: set<int>): Channel {
    var who := Drop(ch.who, p);
    ch.(who := who, numWho := |who|, connectWho := if who == [] then ch.connectWho else LiveOf(who, live))
  }

  /** So a channel that was in order stays so, unless its last member leaves while connected:
      then one who has left is still listed. */
  lemma StaleExactlyAfterLast(ch: Channel, p: int, live: set<int>)
    requires Distinct(ch.who) && p in ch.who && ch.connectWho == LiveOf(ch.who, live)
    ensures var r := AfterLeaving(ch, p, live); r.connectWho == LiveOf(r.who, live) <==> ch.who != [p] || p !in live
  {
    DropElements(ch.who, p);
    var who := Drop(ch.who, p);
    if who == [] {
      assert forall q :: q in ch.who ==> q == p;
      assert |ch.who| == 1 && ch.who == [p];
      LiveElements(ch.who, live);
      assert p in live ==> p in LiveOf(ch.who, live);
    }
  }
}
