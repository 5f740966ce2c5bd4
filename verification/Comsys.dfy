/** The channel system's operations on its indexes (src/comsys.c).  Whether a player may join,
    which object a name means and what is said on a channel are left to the callers. */
module Comsys {
  import opened Wrappers
  import opened CString
  import opened Channels

  datatype Outcome = Done | BadAlias | AliasInUse | NoChannel | Refused | NotOnChannel | BadName | NameInUse

  /** ok_channel_string for aliases */
  predicate OkAlias(s: string) {
    0 < |s| < 10 && forall i :: 0 <= i < |s| ==> !IsSpace(s[i]) && s[i] != ESC
  }

  /** ok_channel_string for channel names */
  predicate OkChannelName(s: string) {
    0 < |s| < 20 && ESC !in s
  }

  class System {
    var channels: map<string, Channel>
    var aliases: map<(int, string), Alias>
    var comlists: map<int, seq<string>>
    /** Objects that are not players, and connected players. */
    var live: set<int>

    ghost predicate Valid()
      reads this
    {
      Consistent(channels, aliases, comlists, live)
    }

    constructor (live: set<int>)
      ensures Valid() && channels == map[] && aliases == map[] && this.live == live
    {
      channels, aliases, comlists, this.live := map[], map[], map[], live;
    }

    /** The first loop of update_comwho: how many members are connected. */
    method CountConnected(who: seq<int>) returns (count: nat)
      ensures count == |LiveOf(who, live)|
    {
      count := 0;
      assert who[0..] == who;
      for i := 0 to |who|
        invariant count + |LiveOf(who[i..], live)| == |LiveOf(who, live)|
      {
        assert who[i..][1..] == who[i + 1..];
        if who[i] in live {
          count := count + 1;
        }
      }
    }

    /** update_comwho: count the connected members, then fill an array of that size. */
    method UpdateComwho(chp: Channel) returns (r: Channel)
      ensures r == chp.(connectWho := LiveOf(chp.who, live))
    {
      var who := chp.who;
      var count := CountConnected(who);
      var connectWho := new int[count];
      var n := 0;
      assert who[0..] == who;
      for i := 0 to |who|
        invariant 0 <= n <= count && n + |LiveOf(who[i..], live)| == count
        invariant connectWho[..n] + LiveOf(who[i..], live) == LiveOf(who, live)
      {
        assert who[i..][1..] == who[i + 1..];
        if who[i] in live {
          connectWho[n] := who[i];
          assert connectWho[..n + 1] == connectWho[..n] + [who[i]];
          n := n + 1;
        }
      }
      assert connectWho[..] == connectWho[..n];
      r := chp.(connectWho := connectWho[..]);
    }

    /** is_onchannel */
    method IsOnChannel(player: int, chp: Channel) returns (on: bool)
      ensures on == (player in chp.who)
    {
      for i := 0 to |chp.who|
        invariant player !in chp.who[..i]
      {
        if chp.who[i] == player {
          return true;
        }
      }
      return false;
    }

    /** remove_from_channel, for a member: when the last one leaves, the list of connected
        members is left as it was. */
    method RemoveFromChannel(player: int, c: string)
      requires c in channels && player in channels[c].who && Distinct(channels[c].who) && channels[c].numWho == |channels[c].who|
      modifies this`channels
      ensures channels == old(channels)[c := AfterLeaving(old(channels)[c], player, live)]
    {
      var chp := channels[c];
      DropElements(chp.who, player);
      if chp.numWho == 0 || chp.who == [] {
        return;
      }
      if chp.numWho == 1 {
        chp := chp.(numWho := 0, who := []);
        channels := channels[c := chp];
        return;
      }
      var who := UnlinkFirst(chp.who, player);
      chp := chp.(who := who, numWho := chp.numWho - 1);
      chp := UpdateComwho(chp);
      channels := channels[c := chp];
    }

    /** The walk along a list that takes the first `x` out of it. */
    method UnlinkFirst<T(==)>(s: seq<T>, x: T) returns (r: seq<T>)
      ensures r == Drop(s, x)
    {
      var i := 0;
      assert s[..0] + Drop(s[0..], x) == Drop(s, x);
      while i < |s| && s[i] != x
        invariant 0 <= i <= |s| && s[..i] + Drop(s[i..], x) == Drop(s, x)
      {
        assert s[i..][1..] == s[i + 1..] && s[..i + 1] == s[..i] + [s[i]];
        i := i + 1;
      }
      if i == |s| {
        assert s[..i] + Drop(s[i..], x) == s;
        return s;
      }
      assert s[i..][1..] == s[i + 1..];
      r := s[..i] + s[i + 1..];
    }

    /** zorch_alias_from_list */
    method ZorchAliasFromList(player: int, alias: string)
      requires player in comlists ==> comlists[player] != []
      modifies this`comlists
      ensures comlists == if player in old(comlists) then PutList(old(comlists), player, Drop(old(comlists)[player], alias)) else old(comlists)
    {
      if player !in comlists {
        return;
      }
      var clist := UnlinkFirst(comlists[player], alias);
      comlists := if clist == [] then comlists - {player} else comlists[player := clist];
    }

    /** join_channel, given what the join permission check says. */
    method JoinChannel(player: int, name: string, alias: string, title: string, mayJoin: bool) returns (r: Outcome)
      requires Valid()
      modifies this`channels, this`aliases, this`comlists
      ensures Valid()
      ensures r == (if !OkAlias(alias) then BadAlias else if (player, alias) in old(aliases) then AliasInUse
                    else if name !in old(channels) then NoChannel
                    else if player !in old(channels)[name].who && !mayJoin then Refused else Done)
      ensures r != Done ==> channels == old(channels) && aliases == old(aliases) && comlists == old(comlists)
      ensures r == Done ==>
        && aliases == old(aliases)[(player, alias) := Alias(name, title)]
        && comlists == old(comlists)[player := [alias] + ListOf(old(comlists), player)]
        && channels == old(channels)[name := AfterJoining(old(channels)[name], player, live)]
    {
      if !OkAlias(alias) {
        return BadAlias;
      }
      if (player, alias) in aliases {
        return AliasInUse;
      }
      if name !in channels {
        return NoChannel;
      }
      var chp := channels[name];
      var hasJoined := IsOnChannel(player, chp);
      if !hasJoined && !mayJoin {
        return Refused;
      }
      AddToList(aliases, comlists, player, alias, Alias(name, title));
      hide Distinct, LiveOf;
      aliases := aliases[(player, alias) := Alias(name, title)];
      comlists := comlists[player := [alias] + if player in comlists then comlists[player] else []];
      if !hasJoined {
        chp := chp.(who := [player] + chp.who, numWho := chp.numWho + 1);
        chp := UpdateComwho(chp);
        channels := channels[name := chp];
      }
      assert channels == old(channels)[name := AfterJoining(old(channels)[name], player, live)];
      JoinKeeps(old(channels), channels, old(aliases), player, alias, Alias(name, title));
      return Done;
    }

    lemma JoinKeeps(was: map<string, Channel>, now: map<string, Channel>, aliases: map<(int, string), Alias>,
                    player: int, alias: string, v: Alias)
      requires AliasesOk(aliases, was) && CountsOk(was) && MembersOk(was, aliases, {}) && ConnectOk(was, live)
      requires (player, alias) !in aliases && v.channel in was
      requires now == was[v.channel := AfterJoining(was[v.channel], player, live)]
      ensures var aliases' := aliases[(player, alias) := v];
        AliasesOk(aliases', now) && CountsOk(now) && MembersOk(now, aliases', {}) && ConnectOk(now, live)
    {
      var aliases' := aliases[(player, alias) := v];
      forall c, p | c in now ensures p in now[c].who <==> HasAlias(aliases', p, c) {
        AliasAdded(aliases, player, alias, v, p, c);
        assert p in was[c].who <==> HasAlias(aliases, p, c);
      }
    }

    /** do_delcom */
    method DelCom(player: int, alias: string) returns (r: Outcome)
      requires Valid()
      modifies this`channels, this`aliases, this`comlists
      ensures Valid() && r == (if (player, alias) in old(aliases) then Done else NoChannel)
      ensures r != Done ==> channels == old(channels) && aliases == old(aliases) && comlists == old(comlists)
      ensures r == Done ==>
        && aliases == old(aliases) - {(player, alias)}
        && comlists == PutList(old(comlists), player, Drop(ListOf(old(comlists), player), alias))
        && var c := old(aliases)[(player, alias)].channel;
           channels == if HasAlias(aliases, player, c) then old(channels)
                       else old(channels)[c := AfterLeaving(old(channels)[c], player, live)]
    {
      if (player, alias) !in aliases {
        return NoChannel;
      }
      hide Consistent, Drop, HasAlias, AfterLeaving;
      DropAlias(player, alias);
      return Done;
    }

    /** Take the alias away, and the player off its channel if it was the last one for it. */
    method DropAlias(player: int, alias: string)
      requires Valid() && (player, alias) in aliases
      modifies this`channels, this`aliases, this`comlists
      ensures Valid() && aliases == old(aliases) - {(player, alias)}
      ensures comlists == PutList(old(comlists), player, Drop(ListOf(old(comlists), player), alias))
      ensures var c := old(aliases)[(player, alias)].channel;
        c in old(channels) && channels == if HasAlias(aliases, player, c) then old(channels)
                                          else old(channels)[c := AfterLeaving(old(channels)[c], player, live)]
    {
      hide Distinct, Drop, LiveOf, AfterLeaving, AliasesOk, CountsOk, ConnectOk, MembersOk, ListsOk, HasAlias;
      ghost var aliases0 := aliases;
      var c := aliases[(player, alias)].channel;
      MemberOf(player, alias);
      DropFromList(aliases, comlists, player, alias);
      ZorchAliasFromList(player, alias);
      aliases := aliases - {(player, alias)};
      MembersBut(channels, aliases0, player, alias);
      var hasMult := HasMult(player, c);
      if !hasMult {
        LeaveAlone(player, c);
      }
    }

    /** A player without an alias for the channel leaves it. */
    method LeaveAlone(player: int, c: string)
      requires AliasesOk(aliases, channels) && CountsOk(channels) && ConnectOk(channels, live)
      requires MembersOk(channels, aliases, {(player, c)})
      requires c in channels && player in channels[c].who && !HasAlias(aliases, player, c)
      modifies this`channels
      ensures AliasesOk(aliases, channels) && CountsOk(channels) && ConnectOk(channels, live) && MembersOk(channels, aliases, {})
      ensures channels == old(channels)[c := AfterLeaving(old(channels)[c], player, live)]
    {
      ghost var channels0 := channels;
      hide Distinct, Drop, LiveOf, AfterLeaving, AliasesOk, ConnectOk, MembersOk, HasAlias;
      RemoveFromChannel(player, c);
      RemovedKeeps(channels0, channels, aliases, {(player, c)}, player, c);
      assert {(player, c)} - {(player, c)} == {};
    }

    lemma MemberOf(player: int, alias: string)
      requires Valid() && (player, alias) in aliases
      ensures var c := aliases[(player, alias)].channel;
        c in channels && player in channels[c].who && Distinct(channels[c].who) && channels[c].numWho == |channels[c].who|
      ensures player in comlists && comlists[player] == ListOf(comlists, player) != []
      ensures HasAlias(aliases, player, aliases[(player, alias)].channel)
    {
      assert alias in ListOf(comlists, player);
      assert HasAlias(aliases, player, aliases[(player, alias)].channel);
    }

    /** Without one alias, only its owner's place on its channel is in doubt. */
    lemma MembersBut(channels: map<string, Channel>, aliases: map<(int, string), Alias>, player: int, alias: string)
      requires MembersOk(channels, aliases, {}) && (player, alias) in aliases
      ensures MembersOk(channels, aliases - {(player, alias)}, {(player, aliases[(player, alias)].channel)})
      ensures HasAlias(aliases - {(player, alias)}, player, aliases[(player, alias)].channel)
              ==> MembersOk(channels, aliases - {(player, alias)}, {})
      ensures AliasesOk(aliases, channels) ==> AliasesOk(aliases - {(player, alias)}, channels)
    {
      var c := aliases[(player, alias)].channel;
      forall d, q | d in channels && (q, d) != (player, c) ensures q in channels[d].who <==> HasAlias(aliases - {(player, alias)}, q, d) {
        AliasDropped(aliases, player, alias, q, d);
        assert q in channels[d].who <==> HasAlias(aliases, q, d);
      }
      if c in channels { assert player in channels[c].who <==> HasAlias(aliases, player, c); }
      assert HasAlias(aliases, player, c);
    }

    /** Do any aliases of the player still point to the channel? */
    method HasMult(player: int, c: string) returns (found: bool)
      requires ListsOk(aliases, comlists)
      ensures found == HasAlias(aliases, player, c)
    {
      hide Distinct;
      var clist := if player in comlists then comlists[player] else [];
      for i := 0 to |clist|
        invariant forall j :: 0 <= j < i ==> aliases[(player, clist[j])].channel != c
      {
        assert clist[i] in ListOf(comlists, player) && (player, clist[i]) in aliases;
        if aliases[(player, clist[i])].channel == c {
          return true;
        }
      }
      forall a | (player, a) in aliases ensures aliases[(player, a)].channel != c {
        assert a in clist;
      }
      return false;
    }

    /** Taking a player without aliases off a channel settles the doubt. */
    lemma RemovedKeeps(was: map<string, Channel>, now: map<string, Channel>, aliases: map<(int, string), Alias>,
                       but: set<(int, string)>, player: int, c: string)
      requires AliasesOk(aliases, was) && CountsOk(was) && MembersOk(was, aliases, but) && ConnectOk(was, live)
      requires c in was && !HasAlias(aliases, player, c)
      requires now == was[c := AfterLeaving(was[c], player, live)]
      ensures AliasesOk(aliases, now) && CountsOk(now) && ConnectOk(now, live) && MembersOk(now, aliases, but - {(player, c)})
    {
      hide LiveOf;
      assert Distinct(was[c].who);
      DropElements(was[c].who, player);
      MemberDropped(was, now, aliases, but, player, c);
    }

    /** The loop of do_cboot that clears a player's aliases for a channel. */
    method ClearAliases(player: int, c: string)
      requires ListsOk(aliases, comlists)
      modifies this`aliases, this`comlists
      ensures aliases == Without(old(aliases), player, c) && ListsOk(aliases, comlists)
    {
      hide Distinct, Others, ListsOk;
      OthersListed(aliases, comlists, player, c);
      ghost var aliases0 := aliases;
      var clist := if player in comlists then comlists[player] else [];
      var kept := [];
      Cleared(aliases0, aliases0, clist, 0, player, c);
      ghost var lists0 := comlists;
      for i := 0 to |clist|
        invariant comlists == lists0 && ListsOk(aliases0, lists0) && kept == Others(clist[..i], aliases0, player, c)
        invariant ClearedSoFar(aliases, aliases0, clist, i, player, c)
      {
        ClearStep(clist, i, aliases0, player, c);
        NotClearedYet(aliases, aliases0, lists0, clist, i, player, c);
        if (player, clist[i]) in aliases && aliases[(player, clist[i])].channel == c {
          aliases := aliases - {(player, clist[i])};
        } else {
          kept := kept + [clist[i]];
        }
      }
      assert clist[..|clist|] == clist;
      AllCleared(aliases, aliases0, comlists, clist, player, c);
      if player in comlists {
        comlists := if kept == [] then comlists - {player} else comlists[player := kept];
      } else {
        assert PutList(comlists, player, []) == comlists;
      }
    }

    /** The aliases for the channel among the first `i` of the list are gone. */
    ghost predicate ClearedSoFar(now: map<(int, string), Alias>, was: map<(int, string), Alias>, clist: seq<string>, i: nat,
                                 player: int, c: string)
      requires i <= |clist|
    {
      && (forall k :: k in now <==> k in was && !(k.0 == player && was[k].channel == c && k.1 in clist[..i]))
      && (forall k :: k in now ==> now[k] == was[k])
    }

    lemma Cleared(now: map<(int, string), Alias>, was: map<(int, string), Alias>, clist: seq<string>, i: nat, player: int, c: string)
      requires now == was && i == 0
      ensures ClearedSoFar(now, was, clist, i, player, c) && Others(clist[..0], was, player, c) == []
    {}

    lemma NotClearedYet(now: map<(int, string), Alias>, was: map<(int, string), Alias>, comlists: map<int, seq<string>>,
                        clist: seq<string>, i: nat, player: int, c: string)
      requires i < |clist| && ListsOk(was, comlists) && clist == ListOf(comlists, player)
      requires ClearedSoFar(now, was, clist, i, player, c)
      ensures (player, clist[i]) in now && (player, clist[i]) in was && now[(player, clist[i])] == was[(player, clist[i])]
    {
      assert Distinct(clist);
      assert clist[i] in ListOf(comlists, player);
    }

    lemma ClearStep(clist: seq<string>, i: nat, was: map<(int, string), Alias>, player: int, c: string)
      requires i < |clist|
      ensures forall a :: a in clist[..i + 1] <==> a in clist[..i] || a == clist[i]
      ensures Others(clist[..i + 1], was, player, c)
           == Others(clist[..i], was, player, c)
              + if (player, clist[i]) in was && was[(player, clist[i])].channel == c then [] else [clist[i]]
    {
      assert clist[..i + 1][..i] == clist[..i];
      assert clist[..i + 1] == clist[..i] + [clist[i]];
    }

    lemma AllCleared(now: map<(int, string), Alias>, was: map<(int, string), Alias>, comlists: map<int, seq<string>>,
                     clist: seq<string>, player: int, c: string)
      requires ListsOk(was, comlists) && clist == ListOf(comlists, player) && ClearedSoFar(now, was, clist, |clist|, player, c)
      ensures now == Without(was, player, c)
    {
      assert clist[..|clist|] == clist;
      forall k ensures k in now <==> k in Without(was, player, c) {
        if k in was && k.0 == player {
          assert k == (player, k.1);
          assert (player, k.1) in was <==> k.1 in ListOf(comlists, player);
        }
      }
    }

    /** do_cboot, for an object already found. */
    method CBoot(name: string, thing: int) returns (r: Outcome)
      requires Valid()
      modifies this`channels, this`aliases, this`comlists
      ensures Valid()
      ensures r == (if name !in old(channels) then NoChannel else if thing !in old(channels)[name].who then NotOnChannel else Done)
      ensures r != Done ==> channels == old(channels) && aliases == old(aliases) && comlists == old(comlists)
      ensures r == Done ==>
        && aliases == Without(old(aliases), thing, name)
        && channels == old(channels)[name := AfterLeaving(old(channels)[name], thing, live)]
    {
      if name !in channels {
        return NoChannel;
      }
      hide Consistent, Without, AfterLeaving;
      var on := IsOnChannel(thing, channels[name]);
      if !on {
        return NotOnChannel;
      }
      Boot(name, thing);
      return Done;
    }

    method Boot(name: string, thing: int)
      requires Valid() && name in channels && thing in channels[name].who
      modifies this`channels, this`aliases, this`comlists
      ensures Valid() && aliases == Without(old(aliases), thing, name)
      ensures channels == old(channels)[name := AfterLeaving(old(channels)[name], thing, live)]
    {
      hide Distinct, Drop, LiveOf, Without, AfterLeaving, AliasesOk, CountsOk, ConnectOk, MembersOk, ListsOk, HasAlias;
      MembersWithout(channels, aliases, thing, name);
      ClearAliases(thing, name);
      LeaveAlone(thing, name);
    }
  
    /** The first loop of channel_clr: clear every alias and note each channel once. */
    method ClearAll(player: int, clist: seq<string>) returns (chArray: seq<string>)
      requires ListsOk(aliases, comlists) && clist == ListOf(comlists, player)
      modifies this`aliases
      ensures aliases == WithoutAll(old(aliases), player) && Distinct(chArray)
      ensures forall c :: c in chArray <==> HasAlias(old(aliases), player, c)
    {
      hide Distinct, Except, Noted, WithoutAll, HasAlias;
      ghost var was := aliases;
      chArray := [];
      NotListedTwice(clist, player);
      for i := 0 to |clist|
        invariant Except(aliases, was, player, clist, i) && Noted(chArray, was, player, clist, i)
      {
        assert clist[i] in clist;
        ExceptStep(aliases, was, player, clist, i);
        NoteStep(chArray, was, player, clist, i);
        var c := aliases[(player, clist[i])].channel;
        if c !in chArray {
          chArray := chArray + [c];
        }
        aliases := aliases - {(player, clist[i])};
      }
      AllNoted(aliases, was, comlists, chArray, player, clist);
    }

    /** The aliases in the first `i` places of the list are gone. */
    ghost predicate Except(now: map<(int, string), Alias>, was: map<(int, string), Alias>, player: int, clist: seq<string>, i: nat)
      requires i <= |clist|
    {
      (forall k :: k in now <==> k in was && !(k.0 == player && k.1 in clist[..i])) && forall k :: k in now ==> now[k] == was[k]
    }

    ghost predicate Noted(chs: seq<string>, was: map<(int, string), Alias>, player: int, clist: seq<string>, i: nat)
      requires i <= |clist|
    {
      && Distinct(chs)
      && (forall c :: c in chs ==> HasAlias(was, player, c))
      && (forall j :: 0 <= j < i ==> (player, clist[j]) in was && was[(player, clist[j])].channel in chs)
    }

    lemma NotListedTwice(clist: seq<string>, player: int)
      requires ListsOk(aliases, comlists) && clist == ListOf(comlists, player)
      ensures Distinct(clist) && forall a :: a in clist ==> (player, a) in aliases
      ensures Except(aliases, aliases, player, clist, 0) && Noted([], aliases, player, clist, 0)
    {}

    lemma NoteStep(chs: seq<string>, was: map<(int, string), Alias>, player: int, clist: seq<string>, i: nat)
      requires i < |clist| && Noted(chs, was, player, clist, i) && (player, clist[i]) in was
      ensures var c := was[(player, clist[i])].channel;
        Noted(if c in chs then chs else chs + [c], was, player, clist, i + 1)
    {
      assert HasAlias(was, player, was[(player, clist[i])].channel);
    }

    lemma ExceptStep(now: map<(int, string), Alias>, was: map<(int, string), Alias>, player: int, clist: seq<string>, i: nat)
      requires i < |clist| && Except(now, was, player, clist, i) && Distinct(clist) && (player, clist[i]) in was
      ensures (player, clist[i]) in now && now[(player, clist[i])] == was[(player, clist[i])]
      ensures Except(now - {(player, clist[i])}, was, player, clist, i + 1)
    {
      assert clist[..i + 1] == clist[..i] + [clist[i]];
    }

    lemma AllNoted(now: map<(int, string), Alias>, was: map<(int, string), Alias>, comlists: map<int, seq<string>>,
                   chs: seq<string>, player: int, clist: seq<string>)
      requires ListsOk(was, comlists) && clist == ListOf(comlists, player)
      requires Except(now, was, player, clist, |clist|) && Noted(chs, was, player, clist, |clist|)
      ensures now == WithoutAll(was, player) && Distinct(chs) && forall c :: c in chs <==> HasAlias(was, player, c)
    {
      AllGone(now, was, comlists, player, clist);
      hide Except, WithoutAll;
      forall c | HasAlias(was, player, c) ensures c in chs {
        var a :| (player, a) in was && was[(player, a)].channel == c;
        assert a in clist;
        var j :| 0 <= j < |clist| && clist[j] == a;
      }
    }

    lemma AllGone(now: map<(int, string), Alias>, was: map<(int, string), Alias>, comlists: map<int, seq<string>>,
                  player: int, clist: seq<string>)
      requires ListsOk(was, comlists) && clist == ListOf(comlists, player) && Except(now, was, player, clist, |clist|)
      ensures now == WithoutAll(was, player)
    {
      assert clist[..|clist|] == clist;
      forall k ensures k in now <==> k in WithoutAll(was, player) {
        if k in was && k.0 == player {
          assert k == (player, k.1);
          assert (player, k.1) in was <==> k.1 in clist;
        }
      }
    }

    /** The last loop of channel_clr. */
    method LeaveAll(player: int, chArray: seq<string>)
      requires Distinct(chArray) && AliasesOk(aliases, channels) && CountsOk(channels) && ConnectOk(channels, live)
      requires MembersOk(channels, aliases, set c | c in chArray :: (player, c)) && forall c :: !HasAlias(aliases, player, c)
      requires forall c :: c in chArray ==> c in channels && player in channels[c].who
      requires forall c :: c in channels && c !in chArray ==> player !in channels[c].who
      modifies this`channels
      ensures AliasesOk(aliases, channels) && CountsOk(channels) && ConnectOk(channels, live) && MembersOk(channels, aliases, {})
      ensures channels.Keys == old(channels).Keys && forall c :: c in channels ==> channels[c].who == Drop(old(channels)[c].who, player)
    {
      hide AliasesOk, CountsOk, ConnectOk, MembersOk, HasAlias, Drop, LiveOf, Left, Distinct;
      ghost var was := channels;
      assert chArray[0..] == chArray;
      LeftNone(was, player, chArray);
      for i := 0 to |chArray|
        invariant AliasesOk(aliases, channels) && CountsOk(channels) && ConnectOk(channels, live)
        invariant MembersOk(channels, aliases, Doubts(player, chArray, i)) && Left(channels, was, player, chArray, i)
      {
        ghost var before := channels;
        LeftNext(channels, was, player, chArray, i);
        RemoveFromChannel(player, chArray[i]);
        RemovedKeeps(before, channels, aliases, Doubts(player, chArray, i), player, chArray[i]);
        LeftStep(before, channels, was, player, chArray, i);
      }
      LeftEnd(channels, was, player, chArray);
    }

    /** The memberships still in doubt. */
    ghost function Doubts(player: int, chs: seq<string>, i: nat): set<(int, string)>
      requires i <= |chs|
    {
      set c | c in chs[i..] :: (player, c)
    }

    lemma LeftNone(was: map<string, Channel>, player: int, chs: seq<string>)
      ensures Left(was, was, player, chs, 0) && Doubts(player, chs, 0) == set c | c in chs :: (player, c)
    {
      assert chs[0..] == chs;
    }

    /** The first `i` channels have been left, the others not. */
    ghost predicate Left(now: map<string, Channel>, was: map<string, Channel>, player: int, chs: seq<string>, i: nat)
      requires i <= |chs|
    {
      && now.Keys == was.Keys
      && forall c :: c in now ==> now[c].who == if c in chs[..i] then Drop(was[c].who, player) else was[c].who
    }

    lemma LeftNext(now: map<string, Channel>, was: map<string, Channel>, player: int, chs: seq<string>, i: nat)
      requires i < |chs| && Distinct(chs) && Left(now, was, player, chs, i) && chs[i] in was && CountsOk(now)
      ensures chs[i] in now && now[chs[i]].who == was[chs[i]].who
      ensures Distinct(now[chs[i]].who) && now[chs[i]].numWho == |now[chs[i]].who|
    {
      hide Drop;
      assert chs[i] in now.Keys;
    }

    lemma LeftStep(before: map<string, Channel>, now: map<string, Channel>, was: map<string, Channel>, player: int,
                   chs: seq<string>, i: nat)
      requires i < |chs| && Distinct(chs) && Left(before, was, player, chs, i) && chs[i] in before
      requires before[chs[i]].who == was[chs[i]].who
      requires now.Keys == before.Keys && now[chs[i]].who == Drop(before[chs[i]].who, player)
      requires forall c :: c in before && c != chs[i] ==> now[c] == before[c]
      ensures Left(now, was, player, chs, i + 1)
      ensures Doubts(player, chs, i) - {(player, chs[i])} == Doubts(player, chs, i + 1)
    {
      hide Drop;
      FewerDoubts(player, chs, i);
      assert chs[..i + 1] == chs[..i] + [chs[i]];
      forall c | c in now ensures now[c].who == if c in chs[..i + 1] then Drop(was[c].who, player) else was[c].who {
        assert c in now.Keys && c in before.Keys;
      }
    }

    lemma FewerDoubts(player: int, chs: seq<string>, i: nat)
      requires i < |chs| && Distinct(chs)
      ensures Doubts(player, chs, i) - {(player, chs[i])} == Doubts(player, chs, i + 1)
    {
      assert chs[i..] == [chs[i]] + chs[i + 1..];
      assert chs[i] !in chs[i + 1..];
      assert Doubts(player, chs, i) == Doubts(player, chs, i + 1) + {(player, chs[i])};
    }

    lemma LeftEnd(now: map<string, Channel>, was: map<string, Channel>, player: int, chs: seq<string>)
      requires Left(now, was, player, chs, |chs|) && forall c :: c in was && c !in chs ==> player !in was[c].who
      ensures now.Keys == was.Keys && forall c :: c in now ==> now[c].who == Drop(was[c].who, player)
      ensures Doubts(player, chs, |chs|) == {}
    {
      hide Drop;
      assert chs[..|chs|] == chs;
      forall c | c in now && c !in chs ensures now[c].who == Drop(was[c].who, player) {
        assert c in now.Keys && c in was.Keys;
        DropMissing(was[c].who, player);
      }
    }

    lemma NeverListed(player: int)
      requires Valid() && player !in comlists
      ensures WithoutAll(aliases, player) == aliases && comlists - {player} == comlists
      ensures forall c :: c in channels ==> player !in channels[c].who && Drop(channels[c].who, player) == channels[c].who
    {
      forall k | k in aliases ensures k.0 != player {
        assert k == (k.0, k.1);
        assert k.1 in ListOf(comlists, k.0);
      }
      forall c | c in channels ensures player !in channels[c].who && Drop(channels[c].who, player) == channels[c].who {
        assert player in channels[c].who <==> HasAlias(aliases, player, c);
        DropMissing(channels[c].who, player);
      }
    }

    /** channel_clr: every alias of the player goes, then the player leaves every channel they were for. */
    method ChannelClr(player: int)
      requires Valid()
      modifies this`channels, this`aliases, this`comlists
      ensures Valid()
      ensures aliases == WithoutAll(old(aliases), player) && comlists == old(comlists) - {player}
      ensures channels.Keys == old(channels).Keys && forall c :: c in channels ==> channels[c].who == Drop(old(channels)[c].who, player)
    {
      if player !in comlists {
        NeverListed(player);
        return;
      }
      hide Distinct, Drop, ListsOk, AliasesOk, CountsOk, MembersOk, ConnectOk, HasAlias, WithoutAll;
      AllUnlisted(aliases, comlists, player);
      ghost var was := aliases;
      var clist := comlists[player];
      var chArray := ClearAll(player, clist);
      comlists := comlists - {player};
      MembersWithoutAll(channels, was, player, chArray);
      LeaveAll(player, chArray);
    }

    /** do_clearcom */
    method ClearCom(player: int)
      requires Valid()
      modifies this`channels, this`aliases, this`comlists
      ensures Valid() && aliases == WithoutAll(old(aliases), player)
      ensures forall c :: c in channels ==> c in old(channels) && channels[c].who == Drop(old(channels)[c].who, player)
    {
      ChannelClr(player);
    }

    lemma MemberListed(player: int, alias: string)
      requires ListsOk(aliases, comlists) && (player, alias) in aliases
      ensures player in comlists && ListOf(comlists, player) == comlists[player] != []
    {
      assert alias in ListOf(comlists, player);
    }

    /** do_cdestroy: every alias for the channel goes, in whatever order the table gives them,
        and then the channel. */
    method CDestroy(name: string) returns (r: Outcome)
      requires Valid()
      modifies this`channels, this`aliases, this`comlists
      ensures Valid() && r == (if name in old(channels) then Done else NoChannel)
      ensures r != Done ==> channels == old(channels) && aliases == old(aliases) && comlists == old(comlists)
      ensures r == Done ==> channels == old(channels) - {name}
      ensures r == Done ==> aliases == map k | k in old(aliases) && old(aliases)[k].channel != name :: old(aliases)[k]
    {
      if name !in channels {
        return NoChannel;
      }
      DropAliasesOf(name);
      channels := channels - {name};
      DestroyKeeps(old(channels), old(aliases), aliases, name);
      return Done;
    }

    method DropAliasesOf(name: string)
      requires ListsOk(aliases, comlists)
      modifies this`aliases, this`comlists
      ensures ListsOk(aliases, comlists)
      ensures aliases == map k | k in old(aliases) && old(aliases)[k].channel != name :: old(aliases)[k]
    {
      hide Distinct, Drop, ListsOk, Thinned;
      ghost var was := aliases;
      var todo := set k | k in aliases && aliases[k].channel == name;
      ThinNone(was, name, todo);
      while todo != {}
        invariant ListsOk(aliases, comlists) && Thinned(aliases, was, name, todo)
        decreases |todo|
      {
        var k :| k in todo;
        ThinStep(aliases, was, name, todo, k);
        MemberListed(k.0, k.1);
        DropFromList(aliases, comlists, k.0, k.1);
        ZorchAliasFromList(k.0, k.1);
        aliases := aliases - {(k.0, k.1)};
        todo := todo - {k};
      }
      ThinAll(aliases, was, name);
    }

    /** Of the aliases for the channel those in `todo` are left. */
    ghost predicate Thinned(now: map<(int, string), Alias>, was: map<(int, string), Alias>, name: string, todo: set<(int, string)>) {
      && (forall k :: k in now <==> k in was && (was[k].channel != name || k in todo))
      && (forall k :: k in now ==> now[k] == was[k]) && (forall k :: k in todo ==> k in was && was[k].channel == name)
    }

    lemma ThinNone(was: map<(int, string), Alias>, name: string, todo: set<(int, string)>)
      requires todo == set k | k in was && was[k].channel == name
      ensures Thinned(was, was, name, todo)
    {}

    lemma ThinStep(now: map<(int, string), Alias>, was: map<(int, string), Alias>, name: string, todo: set<(int, string)>, k: (int, string))
      requires Thinned(now, was, name, todo) && k in todo
      ensures k == (k.0, k.1) && k in now && Thinned(now - {(k.0, k.1)}, was, name, todo - {k})
    {}

    lemma ThinAll(now: map<(int, string), Alias>, was: map<(int, string), Alias>, name: string)
      requires Thinned(now, was, name, {})
      ensures now == map k | k in was && was[k].channel != name :: was[k]
    {}

    lemma DestroyKeeps(channels0: map<string, Channel>, was: map<(int, string), Alias>, now: map<(int, string), Alias>, name: string)
      requires AliasesOk(was, channels0) && CountsOk(channels0) && MembersOk(channels0, was, {}) && ConnectOk(channels0, live)
      requires forall k :: k in now <==> k in was && was[k].channel != name
      requires forall k :: k in now ==> now[k] == was[k]
      ensures var channels := channels0 - {name};
        AliasesOk(now, channels) && CountsOk(channels) && MembersOk(channels, now, {}) && ConnectOk(channels, live)
    {
      var channels := channels0 - {name};
      forall c, p | c in channels ensures p in channels[c].who <==> HasAlias(now, p, c) {
        assert p in channels0[c].who <==> HasAlias(was, p, c);
        if HasAlias(was, p, c) {
          var a :| (p, a) in was && was[(p, a)].channel == c;
          assert (p, a) in now && now[(p, a)].channel == c;
        }
      }
    }

    /** A player connects or disconnects: the mark is set, and then comsys_connect or
        comsys_disconnect brings the channels the player is on up to date. */
    method SetConnected(player: int, on: bool)
      requires Valid()
      modifies this`live, this`channels
      ensures Valid() && live == if on then old(live) + {player} else old(live) - {player}
      ensures channels.Keys == old(channels).Keys
      ensures forall c :: c in channels ==> channels[c].who == old(channels)[c].who
    {
      live := if on then live + {player} else live - {player};
      UpdateFor(player, old(live));
      MembersStay(old(channels), channels);
    }

    lemma MembersStay(was: map<string, Channel>, now: map<string, Channel>)
      requires AliasesOk(aliases, was) && CountsOk(was) && MembersOk(was, aliases, {})
      requires now.Keys == was.Keys && forall c :: c in was ==> SameBut(now[c], was[c])
      ensures AliasesOk(aliases, now) && CountsOk(now) && MembersOk(now, aliases, {})
    {
      hide Distinct;
      forall k | k in aliases ensures aliases[k].channel in now { assert aliases[k].channel in was.Keys; }
      forall c | c in now ensures Distinct(now[c].who) && now[c].numWho == |now[c].who| { assert c in now.Keys && c in was.Keys; }
      forall c, p | c in now ensures p in now[c].who <==> HasAlias(aliases, p, c) {
        assert c in now.Keys && c in was.Keys;
        assert p in was[c].who <==> HasAlias(aliases, p, c);
      }
    }

    /** The loop over all channels of comsys_connect and comsys_disconnect. */
    method UpdateFor(player: int, ghost live0: set<int>)
      requires ConnectOk(channels, live0) && live0 - {player} == live - {player}
      modifies this`channels
      ensures ConnectOk(channels, live) && channels.Keys == old(channels).Keys
      ensures forall c :: c in channels ==> c in old(channels) && SameBut(channels[c], old(channels)[c])
    {
      hide LiveOf, Updated, ConnectOk;
      ghost var was := channels;
      var todo := channels.Keys;
      UpdatedNone(was, player);
      while todo != {}
        invariant ConnectOk(was, live0) && Updated(channels, was, todo)
        decreases |todo|
      {
        var c :| c in todo;
        UpdatedNext(channels, was, todo, c);
        var isOn := IsOnChannel(player, channels[c]);
        if isOn {
          var chp := UpdateComwho(channels[c]);
          UpdatedStep(channels, was, todo, c, chp);
          channels := channels[c := chp];
        } else {
          LiveElsewhere(channels[c].who, live0, live, player);
          OthersStep(channels, was, live0, todo, c);
        }
        todo := todo - {c};
      }
      UpdatedAll(channels, was);
    }

    /** Everything outside `todo` knows its connected members. */
    ghost predicate Updated(now: map<string, Channel>, was: map<string, Channel>, todo: set<string>)
      reads this`live
    {
      && now.Keys == was.Keys && todo <= was.Keys
      && (forall c :: c in was ==> SameBut(now[c], was[c]))
      && (forall c :: c in todo ==> now[c] == was[c])
      && (forall c :: c in was && c !in todo && now[c].who != [] ==> now[c].connectWho == LiveOf(now[c].who, live))
    }

    lemma UpdatedNone(was: map<string, Channel>, player: int)
      ensures Updated(was, was, was.Keys)
    {}

    lemma UpdatedNext(now: map<string, Channel>, was: map<string, Channel>, todo: set<string>, c: string)
      requires Updated(now, was, todo) && c in todo
      ensures c in now && c in was && now[c] == was[c]
    {
      assert c in now.Keys;
    }

    lemma UpdatedStep(now: map<string, Channel>, was: map<string, Channel>, todo: set<string>, c: string, chp: Channel)
      requires Updated(now, was, todo) && c in todo && c in now && chp == now[c].(connectWho := LiveOf(now[c].who, live))
      ensures Updated(now[c := chp], was, todo - {c})
    {
      hide LiveOf;
    }

    lemma OthersStep(now: map<string, Channel>, was: map<string, Channel>, live0: set<int>, todo: set<string>, c: string)
      requires Updated(now, was, todo) && c in todo && c in now && now[c] == was[c]
      requires ConnectOk(was, live0) && LiveOf(now[c].who, live0) == LiveOf(now[c].who, live)
      ensures Updated(now, was, todo - {c})
    {
      hide LiveOf;
    }

    lemma UpdatedAll(now: map<string, Channel>, was: map<string, Channel>)
      requires Updated(now, was, {})
      ensures ConnectOk(now, live) && now.Keys == was.Keys
      ensures forall c :: c in now ==> c in was && SameBut(now[c], was[c])
    {
      hide LiveOf;
      forall c | c in now ensures c in was { assert c in now.Keys; }
    }

    /** Two records of a channel that differ at most in the list of connected members. */
    ghost predicate SameBut(a: Channel, b: Channel) {
      a == b.(connectWho := a.connectWho)
    }

    /** do_ccreate */
    method CCreate(name: string, owner: int) returns (r: Outcome)
      requires Valid()
      modifies this`channels
      ensures Valid()
      ensures r == (if !OkChannelName(name) then BadName else if name in old(channels) then NameInUse else Done)
      ensures channels == if r == Done then old(channels)[name := Channel(owner, [], 0, [])] else old(channels)
    {
      if !OkChannelName(name) {
        return BadName;
      }
      if name in channels {
        return NameInUse;
      }
      CreateKeeps(name, Channel(owner, [], 0, []));
      channels := channels[name := Channel(owner, [], 0, [])];
      return Done;
    }

    lemma CreateKeeps(name: string, ch: Channel)
      requires Valid() && name !in channels && ch.who == [] && ch.numWho == 0
      ensures Consistent(channels[name := ch], aliases, comlists, live)
    {
      var now := channels[name := ch];
      forall p ensures !HasAlias(aliases, p, name) {}
      forall c, p | c in now ensures p in now[c].who <==> HasAlias(aliases, p, c) {
        if c != name { assert p in channels[c].who <==> HasAlias(aliases, p, c); }
      }
    }
  }
}
