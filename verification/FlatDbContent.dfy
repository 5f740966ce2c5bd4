/** What is left of an object, and of the object table, after a dump and a load, told field by
    field and attribute by attribute. */
module FlatDbContent {
  import opened Constants
  import opened AttrTable
  import opened FlatDb

  /** Is the attribute one that an object's list carries: named, and none of the four that are
      written elsewhere or not at all? */
  predicate Carried(t: Table, n: int) {
    n > 0 && n in t.names && n != A_NAME && n != A_LOCK && n != A_LIST && n != A_MONEY
  }

  /** The first characters of a text that fit before the zero byte of a buffer of that size. */
  function Head(s: string, size: nat): string
    requires size > 0
  {
    if |s| < size then s else s[..size - 1]
  }

  /** The attributes come back, and nothing else: each named one, as much of it as a buffer holds. */
  ghost predicate SameAttrs(t: Table, before: map<int, string>, after: map<int, string>) {
    && (forall n :: n in after <==> n in before && Carried(t, n))
    && (forall n :: n in after ==> after[n] == Head(before[n], LBUF_SIZE))
  }

  predicate SameFields(before: Obj, after: Obj) {
    && after.location == before.location && after.zone == before.zone && after.contents == before.contents
    && after.exits == before.exits && after.link == before.link && after.next == before.next
    && after.lock == before.lock && after.owner == before.owner && after.parent == before.parent
    && after.pennies == before.pennies && after.flags == before.flags && after.flags3 == before.flags3
    && after.powers == before.powers && after.powers2 == before.powers2
  }

  /** Bit 30 of the second flag word of a player is off, and all other bits are what they were. */
  predicate LoggedOff(before: Obj, after: Obj) {
    if before.flags % 8 == 3 then
      && after.flags2 / 0x4000_0000 % 2 == 0
      && after.flags2 % 0x4000_0000 == before.flags2 % 0x4000_0000
      && after.flags2 / 0x8000_0000 == before.flags2 / 0x8000_0000
    else after.flags2 == before.flags2
  }

  /** The name is cut to a large buffer first; one of more than `MBUF_SIZE` characters is cut to fit there. */
  predicate SameName(before: string, after: string) {
    after == if |before| <= MBUF_SIZE then before else before[..MBUF_SIZE - 1]
  }

  /** An object that was going away; bit 14 says so. */
  predicate GoingAway(o: Obj) {
    o.flags / 0x4000 % 2 == 1
  }

  /** A user-named attribute that is marked deleted; bit 7 says so. */
  predicate Deleted(v: Vattr) {
    v.flags / 0x80 % 2 == 1
  }

  /** All of that at once. */
  ghost predicate Same(t: Table, before: Obj, after: Obj) {
    && SameFields(before, after) && LoggedOff(before, after) && SameName(before.name, after.name)
    && SameAttrs(t, before.attrs, after.attrs)
  }

  /** Every object that was not going away is in its slot; every other slot is garbage, or
      missing at the end. */
  ghost predicate Survived(t: Table, before: seq<Obj>, after: seq<Obj>) {
    && |after| <= |before|
    && forall j :: 0 <= j < |before| ==>
         if GoingAway(before[j]) then j < |after| ==> GoingAway(after[j]) && after[j].attrs == map[]
         else j < |after| && Same(t, before[j], after[j])
  }
}
