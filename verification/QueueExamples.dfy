/** Small states in which a law of the command queue fails that one might expect to hold. */
module QueueExamples {
  import opened Constants
  import opened QueueModel
  import opened QueueLaws
  import opened QueueAccounts
  import opened QueueGains
  import opened QueueRuns

  /** Every object belongs to player #2, who pays ten coins a command, except that #`free` has
      free money. */
  function Village(free: Dbref): World {
    World((x: int) => if x == NOTHING || x == GOD then GOD else 2, (x: int) => x == 2, (x: int) => x == free, (x: int) => false,
          (x: int) => 100, 10, 10, 0)
  }

  lemma VillageSound(free: Dbref)
    ensures Village(free).Sound()
  {}

  const WAITER: Entry := Entry(0, 2, 2, 0, 5, 300)

  /** One wait counted on attribute 300 of #5, and one entry waiting for it. */
  function OneWaiter(): State {
    Start(map[], map[]).(sq := [WAITER], sem := map[(5, 300) := 1], count := map[2 := 1], nextId := 1)
  }

  lemma OneWaiterExact()
    ensures Shape(Village(4), OneWaiter()) && Exact(OneWaiter(), (5, 300)) && Waiting(OneWaiter(), (5, 300)) == 1
  {
    assert [WAITER][..0] == [];
    assert Take([WAITER], WaitsOn((5, 300))) == [WAITER];
  }

  /** A wait that cannot be paid for stays counted: one more than are waiting. */
  lemma RefusedWaitStaysCounted()
    ensures Exact(OneWaiter(), (5, 300))
    ensures !Exact(Do(Village(4), OneWaiter(), SemWait(2, 2, 5, 300, 0, false, 0)), (5, 300))
  {
    OneWaiterExact();
    SemaphoreStep(Village(4), OneWaiter(), SemWait(2, 2, 5, 300, 0, false, 0), (5, 300));
  }

  function Purse(): State {
    Start(map[2 := 50], map[])
  }

  lemma PurseReady(free: Dbref)
    ensures Shape(Village(free), Purse())
    ensures At(Purse().count, 2) == Live(Village(free), Purse(), 2) <= Village(free).queueMax(2)
  {
    VillageSound(free);
    hide At, Live;
    InvStart(Village(free), map[2 := 50], map[]);
    assert Accounts(Village(free), Purse());
  }

  lemma PurseAccepts(free: Dbref)
    requires free == 2 || free == 4
    ensures Gains(Village(free), Purse(), Queue(free, 2, 0, 0, false, 0), 2)
    ensures Enabled(Village(free), Queue(free, 2, 0, 0, false, 0))
  {}

  /** Whether it is an object of the player's that has free money, or the player: a command is
      queued without paying, and its deposit is still counted for the player. */
  lemma FreeCommandGains(free: Dbref)
    requires free == 2 || free == 4
    ensures var w := Village(free);
      Worth(w, Do(w, Purse(), Queue(free, 2, 0, 0, false, 0)), 2) > Worth(w, Purse(), 2)
  {
    hide Do, Shape, Worth, Gains, Live, At, Enabled, Village, Purse, World.Sound;
    VillageSound(free);
    PurseReady(free);
    PurseAccepts(free);
    var w, s := Village(free), Purse();
    GainsExactlyWhenFree(w, s, Queue(free, 2, 0, 0, false, 0), 2);
  }
}
