# A verified model of the TinyMUSH core

This project models, in Dafny, the parts of the TinyMUSH server that keep real state or do
real parsing, and proves what they promise. `dafny verify dfyconfig.toml` checks all of it.

Most components come in three layers. Functions on values say what an operation
does. Methods repeat the C code's loops, cursors, lists and buffers in place, and are proved to
do what the functions say. Lemmas prove what the server relies on: over whole runs for the
queue, over every text for parsers and files.

| component | files | source |
|---|---|---|
| command queue: four linked queues, counting semaphores, quotas, deposits, timers | `QueueModel`, `QueueCounting`, `QueueLaws`, `QueueAccounts`, `QueueGains`, `QueueRuns`, `QueueEffects`, `QueueExamples`, `BlockList`, `CommandQueue` | `src/cque.c` |
| argument splitter: an in-place tokenizer with a bounded bracket stack | `LineSplit`, `LineCut`, `LineCursor`, `LineJoin`, `LineNesting`, `LineOutput`, `ParseTo` | `src/eval.c` |
| attribute store: an object index of base-128 numbers edited in place behind a write-back cache, and the sorted arrays of the memory back end | `AttrList`, `AttrMap`, `AttrStore`, `AttrArray` | `src/db.c` |
| attribute names | `AttrTable` | `src/db.c`, `src/vattr.c` |
| locks: tree, file format, parser, evaluator with bounded indirection | `LockTree`, `LockText`, `LockRoundTrip`, `LockFile`, `LockParser`, `ParsedLocks`, `LockPrinter`, `LockBuffer`, `LockEval`, `LockLaws`, `LockEvaluator` | `src/boolexp.c`, `src/db_rw.c`, `src/comsys.c` |
| flat file: numbers, quoted strings, whole-database dump and load | `FlatText`, `TextFile`, `FlatDb`, `FlatDbContent`, `FlatDbRoundTrip`, `FlatDbWhole`, `FlatExample`, `FlatDbFile` | `src/db.c`, `src/db_rw.c` |
| quicksort with a softcode comparator; stream cipher | `SaneQsort`, `Cipher` | `src/funceval.c` |
| channel membership kept in several indexes | `Channels`, `Comsys` | `src/comsys.c` |
| buffer pools | `BufferPool` | `src/alloc.c` |
| shared | `Wrappers`, `Constants`, `CString` | `src/alloc.h`, `src/attrs.h` |

The command queue is proved twice over. `CommandQueue.Queues` is a class with four linked
lists, counters and money, whose every method equals a function of `QueueModel`; a run is a
sequence of steps, each an action of the main loop or the execution of the entry at the head of
the player queue, whose command may perform any actions of its own. `QueueRuns` then proves
that every reachable state keeps the queues in shape, no more waiters than the counters say,
counts equal to live entries and within the limit, and every block on one queue; that balance
plus deposits falls by exactly what is named as forfeited; and that an expired entry leaves the
wait queue within a bounded number of passes.

What an operation answers is also said without the rules by which it is computed. `QueueEffects`
tells by the fields of an entry who is halted, released, refused or due. `LineNesting` and
`LineOutput` give lines a grammar and say where `parse_to` cuts them and what it returns.
`LockPrinter` prints locks, and the parser is its inverse; `LockLaws` says who passes which lock.
`FlatDbContent` says field by field what is left of an object after a dump and a load.

## Where the code falls short of the obvious law

Each of these is proved: a lemma says exactly when the law holds, or shows an input on which it
fails, or both.

- A semaphore's counter equals its waiters until a counted wait is refused after its increment,
  and every other action keeps them equal: `SemaphoreStep`, `RefusedWaitStaysCounted`.
  Destroying an object drains its semaphores without naming an attribute, but then frees the
  counters with its attributes: `SemDestroy`.
- `payfor` charges nothing when the object that queues, or its owner, has free money, though the
  deposit is counted for the owner all the same. For every owner but God, balance plus deposits
  rises when such a command is accepted, and only then: `GainsExactlyWhenFree`,
  `FreeCommandGains`.
- `do_second` moves at most one expired entry a pass, because `give_que` clears the link its
  loop follows; the comment in the source does not say so: `ReleaseWaiting`, `OnePassOneEntry`.
- Shifting the timers sets every time on the wait queue to the negative of the shift instead of
  taking the shift off, so with a clock past zero all of them fall due at once: `WarpReleases`.
- A 33rd open bracket is not remembered, so a line that nests deeper than 32 can be cut inside
  brackets; up to 32 it never is: `NestedCut`, `TooDeep`.
- The memory back end cuts a text at `LBUF_SIZE - 1` and the disk back end does not, so they agree
  exactly while no text is longer: `BackEndsAgree`, `BackEndsDiffer`. The callers in `src/db.c` and
  `src/db_rw.c` pass texts out of buffers that hold no more than that. The memory back end's
  `atr_free` leaves the count standing, so the next walk is safe only if there was nothing to free:
  `AttrArray.ObjAttrs.AtrFree`.
- A lock is read back from a dump exactly when its keys hold nothing that ends a key and the
  names it tests start with a letter and hold no slash, though `ok_attr_name` allows slashes and
  three internal attributes start with a star: `LockRoundTrip`, `SlashExample`, `ParsedSurvives`. An
  eval lock, or a test of a nameless attribute, writes a newline of its own, and `getboolexp`
  takes one newline too many when another follows.
- Evaluation equals the lock's unlimited meaning unless the nesting limit was reported. A lock
  that denies itself has no meaning, and what it answers is the parity of the limit: `EvalMeans`,
  `SelfDenial`.
- Strings come back from the flat file whole exactly when they are shorter than a buffer
  (`StringRoundTrip`); names are cut at `MBUF_SIZE`, and attributes whose name is marked deleted
  are not read back (`FlatRoundTrip`).
- When a channel's last member leaves, `update_comwho` is skipped, so a connected one stays
  listed: `StaleExactlyAfterLast`.
- Decryption undoes encryption exactly when both output buffers had room for the text behind what
  they already held: `DecryptEncrypt`.
- Names and numbers of attributes are no bijection: an `attr_alias` of the configuration is a second
  key for a built-in attribute. Every key still finds an attribute and every name its number:
  `MkAttrSound`, `AliasSound`, `DeathAlias`.
- `parse_to` looks at the cell in front of its line in one case, when both strip flags are set, the
  line starts with a brace and nothing of the piece is left: `ParseTo.ParseTo` asks for that cell to
  exist, and not to hold a closing brace, in that case only.

## Model

| member | source | states |
|---|---|---|
| CommandQueue.Queues.constructor | src/conf.c:340-346 | four empty, well-formed, disjoint lists standing for the empty queue state |
| CommandQueue.Queues.GiveQue | src/cque.c:56-77 | a block goes behind the last one of the player or the object queue according to its cause, untimed and unlinked from what it pointed to |
| CommandQueue.Queues.AddTo | src/cque.c:28-50 | the counter of one semaphore moves by the amount and is returned; no other moves |
| CommandQueue.Queues.Pay | src/predicates.c:386-403 | the owner is charged if it can pay; objects that are exempt, or whose owner is, pay nothing |
| CommandQueue.Queues.Give | src/predicates.c:444-455 | the owner is credited, except for exempt objects |
| CommandQueue.Queues.HaltRunQueue | src/cque.c:112-128 | exactly the wanted entries of a run queue are wiped in place, counted and tallied |
| CommandQueue.Queues.HaltWaitQueue | src/cque.c:132-144 | the wait queue is what is left without the wanted entries, in order, and those are counted and tallied |
| CommandQueue.Queues.HaltSemQueue | src/cque.c:148-163 | the semaphore queue is what is left without the wanted entries, in order and with a right tail; those are counted and tallied, and each gives its place on its semaphore back |
| CommandQueue.Queues.PayTallies | src/cque.c:165-174 | halting everything refunds each owner its tally and zeroes its count, and touches nobody else |
| CommandQueue.Queues.HaltQue | src/cque.c:98-184 | the four passes and the refund together are the halt function, and the number returned is the number of wanted entries |
| CommandQueue.Queues.ScanSemQueue | src/cque.c:266-296 | the walk takes off the matching entries, runs or refunds each, stops after the number asked for, and leaves the others in order with a right tail |
| CommandQueue.Queues.NfyQue | src/cque.c:247-309 | the three keys of notify: what leaves the queue, where it goes, and what the counter is afterwards |
| CommandQueue.Queues.DestroyObj | src/object.c:563-635 | destroying an object halts it, drains every semaphore it is, and in the end frees its counters |
| CommandQueue.Queues.SetupQue | src/cque.c:373-475 | a block is made exactly for an accepted command; refusals change what the source changes, down to the runaway that halts its owner and keeps the rejected deposit |
| CommandQueue.Queues.FindPlace | src/cque.c:508-512 | the place found is behind every entry that is not later and in front of every later one |
| CommandQueue.Queues.WaitQue | src/cque.c:481-527 | an accepted command ends on exactly the queue its wait and semaphore call for |
| CommandQueue.Queues.DoWait | src/cque.c:595-604 | the counter goes up first; the command then runs at once or waits |
| CommandQueue.Queues.ReleaseWaiting | src/cque.c:695-699 | the loop turns at most once, because the link it follows has been cleared |
| CommandQueue.Queues.ReleaseTimedOut | src/cque.c:703-721 | every expired waiter gives its place back and is queued to run, in order; the others stay in order |
| CommandQueue.Queues.DoSecond | src/cque.c:662-724 | the object queue is spliced behind the player queue, then both timed passes |
| CommandQueue.Queues.TopOnce | src/cque.c:759-902 | one turn of the loop that runs the head entry: deposit back, count lowered, entry wiped, commands run while it stays the head, block removed |
| CommandQueue.Queues.DoTopLoop | src/cque.c:730-911 | running up to a number of commands is that many steps of the model, none when nothing is queued; dequeuing is tested once, on entry, so a command that turns it off does not stop the others |
| BlockList.List.InsertBefore | src/cque.c:508-518 | linking a block between two others inserts it there in the list and changes nothing else |
| BlockList.List.Unlink | src/cque.c:153-158 | unlinking removes exactly that block and keeps the tail the last block |
| BlockList.List.TakeAllFrom | src/cque.c:680-687 | splicing appends the other list, moves the tail and leaves the other empty |
| QueueCounting.ScanTakesOldest | src/cque.c:266-296 | a limited notify takes exactly the oldest matching entries, as many as asked for if there are enough, and keeps the order of all the others |
| QueueLaws.InsertPlace | src/cque.c:508-518 | the wait queue stays sorted and is stable on ties: everything before the new entry is not later, what follows is later |
| QueueLaws.PayBackAmounts | src/cque.c:165-174 | after halting everything each owner's balance and count are what the tallies say, and an exempt owner gets nothing |
| QueueLaws.ShapeDo | src/cque.c:56-77 | every action keeps the queues in shape: wiped entries only on run queues, no player's command on the object queue, the wait queue sorted, every semaphore entry naming a semaphore |
| QueueLaws.SemHalt | src/cque.c:148-163 | a halt lowers waiters and counter of every semaphore by the same number |
| QueueLaws.NotifyWaiting | src/cque.c:256-296 | how many entries are left waiting on each semaphore after a notify, for every key, count and attribute |
| QueueLaws.SemDestroy | src/object.c:563-635 | after an object is destroyed nobody waits on it and it has no counter; every other semaphore loses as many waiters as its counter falls |
| QueueLaws.SemaphoreStep | src/cque.c:247-309 | every action keeps waiters within the counter, and keeps them equal to it if and only if it is not a counted wait on that semaphore that is refused |
| QueueAccounts.HaltEffect | src/cque.c:98-184 | a halt keeps counts equal to live entries and conserves balance plus deposits of every paying owner |
| QueueAccounts.SetupEffect | src/cque.c:384-408 | queueing keeps counts right and within the limit, and costs exactly the coin, or on a runaway the whole charge |
| QueueAccounts.AccountStep | src/cque.c:389-408 | every action keeps counts equal to live entries and within the limit, and moves a paying owner's money and deposits by exactly what is named as forfeited; `ExemptStays` covers the money of the others |
| QueueGains.ExemptStays | src/predicates.c:386-455 | no action changes the balance of an exempt owner |
| QueueGains.LiveStep | src/cque.c:384-475 | an accepted command adds one live entry of its owner; no other action adds any |
| QueueGains.GainsExactlyWhenFree | src/predicates.c:386-455 | for every owner but God, balance plus deposits rises if and only if a command of an exempt object or an exempt owner is accepted, where a deposit costs anything |
| QueueRuns.PlayerQueueStep | src/cque.c:56-77 | the player queue only grows at its tail, entries are wiped in place but never reordered, and only the once-a-second pass lets an object's command in |
| QueueRuns.IdsStep | src/cque.c:481-527 | no action duplicates a block: it stays, moves or is freed, and new blocks are new |
| QueueRuns.HeadStays | src/cque.c:785-818 | the running entry stays at the head, wiped, whatever its commands do |
| QueueRuns.InvStart | src/conf.c:340-346 | the server starts with queues in shape, no waiters beyond the counters, counts equal to live entries, and every block on one queue |
| QueueRuns.InvNext | src/cque.c:730-911 | every step, whether an action or the running of a command that acts on the queues itself, keeps the queues in shape, waiters within the counters, counts right and within the limit, and every block on one queue |
| QueueRuns.InvRun | src/cque.c:98-911 | so every state reached by any run has queues in shape, waiters within the counters, counts equal to live entries and within the limit, and every block on one queue |
| QueueRuns.ExactRun | src/cque.c:595-603 | over any run in which no counted wait on a semaphore is refused, its counter is the number of its waiters |
| QueueRuns.WorthRun | src/cque.c:98-184 | over any run a paying owner's balance plus deposits falls by exactly what the run forfeits, and the balance of an exempt owner other than God stays what it was |
| QueueRuns.WorthNeverRises | src/cque.c:282-284 | over any run that accepts none of its commands for free, the balance plus deposits of any owner but God never rises |
| QueueRuns.OnePassOneEntry | src/cque.c:695-699 | a pass of do_second takes at most one entry off the wait queue |
| QueueRuns.BoundedDelay | src/cque.c:695-699 | an expired entry with k entries before it has left the wait queue after k + 1 enabled passes, whatever is queued, notified, halted or run meanwhile |
| QueueExamples.RefusedWaitStaysCounted | src/cque.c:595-603 | a wait that is refused after its increment leaves the counter above the waiters |
| QueueExamples.FreeCommandGains | src/predicates.c:386-455 | in a state of the model, a command raises its owner's balance plus deposits, be it the object or the owner that has free money |
| QueueEffects.HaltHits | src/cque.c:81-163 | a halt of an owner, an object, both or everything wipes on the run queues, and takes off the other two in order, exactly the entries whose player is that object and whose owner is that owner |
| QueueEffects.HaltSparesOthers | src/cque.c:81-163 | halting one object leaves every other object's entries where they are, its owner's included |
| QueueEffects.SecondReleases | src/cque.c:662-724 | a pass runs the object queue behind the player queue, then the first entry of the wait queue if it is due, then the overdue waiters, each kind in order and on the queue of its cause; every other waiter stays |
| QueueEffects.WaiterStays | src/cque.c:703-709 | a waiter leaves its semaphore in a pass if and only if it has a timeout and that has passed |
| QueueEffects.WarpReleases | src/cque.c:1110-1137 | a shift makes the wait queue due at its negative and takes it off every timeout; waiters whose time has then come leave, and no others |
| QueueEffects.QueueDecides | src/cque.c:373-527 | a command is queued if and only if commands are interpreted, the object is not halted, the price can be paid and the owner is within its limit; what it is charged, where the entry goes, when it falls due, and what a refusal changes |
| QueueEffects.SemWaitDecides | src/cque.c:595-604 | a wait counts first; with a counter that was not negative it waits on the semaphore, due after its timeout or never, and under a negative one it runs at once |
| QueueEffects.NotifyReleases | src/cque.c:247-309 | which waiters a notification finds, oldest first; that they run, or on a drain are discarded with their deposits returned; and where the counter is left |
| QueueEffects.HeadRuns | src/cque.c:759-902 | the head is dropped if it was halted or its object is going away; otherwise its deposit goes back and its count falls, and its commands run unless the object is set to halt |
| LineCut.CutIgnoresFlags | src/eval.c:60-200 | for a delimiter that is not white space the line is cut where a plain nesting scan says, for every combination of strip, escape and compress flags |
| LineCut.ScanFollowsCut | src/eval.c:86-196 | the rewriting scanner and the reference scan stop at the same place, from any position and bracket stack |
| LineCut.CutAtDelimiter | src/eval.c:114-165 | if the line is cut it is cut at a delimiter |
| LineCut.PlainCutIsFirst | src/eval.c:160-165 | on text without brackets, braces and escapes the cut is the first delimiter |
| LineNesting.NestedCut | src/eval.c:67-196 | in a line of balanced brackets and braces, with at most 32 brackets open at once, a delimiter inside brackets or braces or behind an escape is no cut, and the first one outside is |
| LineNesting.NestedParse | src/eval.c:67-196 | the scanner cuts such a line there for every combination of flags |
| LineNesting.TooDeep | src/eval.c:67-68 | past 32 open brackets the line is cut inside them |
| LineNesting.ClosesInner | src/eval.c:102-113 | a closing bracket closes the innermost one of its kind, and every one of the other kind opened inside it |
| LineNesting.StrayCloser | src/eval.c:102-129 | one that closes nothing is a plain character, or the cut if it is the delimiter |
| LineNesting.UnclosedBrace | src/eval.c:130-159 | a brace that is never closed hides everything behind it |
| LineOutput.ParsedShows | src/eval.c:86-196 | what the scanner has written of such a line, part by part: blanks squeezed, backslashes and outer braces dropped as asked, everything else as typed |
| LineOutput.PieceShows | src/eval.c:24-200 | the piece returned is that, without a trailing blank if asked |
| LineOutput.AroundDrops | src/eval.c:31-44 | braces around the whole piece go if asked, with the blanks inside them at either end as the flags say; a piece without them stays |
| LineJoin.PlainPiece | src/eval.c:60-200 | with compression off and no flags the piece is exactly the text in front of the cut |
| LineCursor.StepTracks | src/eval.c:86-196 | a blank just read is a blank just written, and output is empty only behind a brace or a lone escape: what the cleanup's looks behind its cursors rely on |
| LineJoin.NulNeverCuts | src/eval.c:227-230 | with NUL for a delimiter the last argument takes everything that is left |
| LineJoin.JoinArgs | src/eval.c:226-242 | joining the arguments with commas gives back the text that was split, for every number of arguments |
| LineJoin.ArglistJoins | src/eval.c:209-244 | with compression off and no flags, joining the arguments of parse_arglist with commas gives exactly the text in front of the closing delimiter, for every number of arguments |
| LineOutput.ArgsShow | src/eval.c:226-242 | a list of such lines with commas between them comes apart into exactly those lines, each returned as a piece |
| ParseTo.NextChar | src/eval.c:52-57 | the write cursor never passes the read cursor: what is still to be read, and the cell before it, are the original text |
| ParseTo.BraceLoop | src/eval.c:130-152 | the loop over a braced group ends where its braces balance, with the output that the flags call for |
| ParseTo.FindOpen | src/eval.c:102-113 | the search down the stack finds the innermost opening bracket, and -1 exactly when there is none |
| ParseTo.Unbrace | src/eval.c:31-44 | braces around the piece are dropped and blanks inside them trimmed as the flags say, without touching the rest of the buffer |
| ParseTo.Cleanup | src/eval.c:24-47 | the piece stands NUL-terminated in the buffer, and nothing behind the cut has changed |
| ParseTo.MainLoop | src/eval.c:86-196 | the cursors, the stack and the buffer end where the scan on strings ends, with its output |
| ParseTo.Divide | src/eval.c:76-199 | only cells of the piece and up to the cut change, and the rest starts right behind the delimiter |
| ParseTo.ParseTo | src/eval.c:60-200 | the in-place splitter returns the piece and the rest that the functions on strings say, for every line, delimiter and flags, given a cell in front of the line in the one case that looks at it |
| ParseTo.FillArgs | src/eval.c:226-242 | the loop ends and fills one slot per argument, the last one with all that is left, and touches no slot behind them |
| ParseTo.ParseArglist | src/eval.c:209-244 | slots hold the arguments of the text in front of the closing delimiter and the pointer returned is behind it |
| AttrList.CodeSize | src/db.c:1287-1304 | a positive 31-bit number takes one to five bytes, none of them zero, so it fits in the increment together with the list's zero byte |
| AttrList.DecodeCode | src/db.c:1260-1304 | decoding inverts coding, whatever follows |
| AttrList.DecodeListEnc | src/db.c:1260-1304 | a stored list reads back as exactly the numbers written |
| AttrList.AlDecode | src/db.c:1260-1281 | the loop returns the first number and leaves the pointer at the rest of the list |
| AttrList.AlCode | src/db.c:1287-1304 | the loop writes exactly the digits of the number and nothing outside them |
| AttrList.Compact | src/db.c:1486-1492 | deleting copies the rest of the list down without overwriting a byte still to be read |
| AttrStore.WithoutElements | src/db.c:1465-1496 | what is left is every other number, once |
| AttrStore.AttrDb.AlExtend | src/db.c:1345-1363 | the buffer has room for the length asked for and keeps its bytes when told to |
| AttrStore.AttrDb.AlStore | src/db.c:1377-1388 | writing the cached index back changes no attribute and leaves nothing cached |
| AttrStore.AttrDb.AlFetch | src/db.c:1392-1417 | the cache holds the index of the object asked for, and every object's logical index is unchanged |
| AttrStore.AttrDb.AlAdd | src/db.c:1421-1461 | the number is listed once, at the end if it was not there, and no other object's index changes |
| AttrStore.AttrDb.AlDelete | src/db.c:1465-1496 | the number is gone from that index and everything else stays, for all objects at once |
| AttrStore.AttrDb.AtrAddRaw | src/db.c:1949-1996 | setting an attribute sets the map, or clears it for an empty text, and afterwards every object's index again lists exactly its attributes without duplicates |
| AttrStore.AttrDb.AtrClr | src/db.c:1806-1810 | clearing removes it from the map, and index and attributes still agree |
| AttrStore.AttrDb.AtrGetRaw | src/db.c:2113-2131 | reading returns what the map holds |
| AttrStore.AttrDb.AlDestroy | src/db.c:1512-1518 | the index is gone; index and attributes still agree if and only if the object had no attributes |
| AttrStore.AttrDb.AtrHead | src/db.c:2450-2475 | the walk starts on a copy of the logical index, over whatever an earlier walk left there, and yields its first number |
| AttrStore.AttrDb.AtrFree | src/db.c:2279-2291 | although its body edits the index it walks, nothing of the object is left, no other object changes, and the walk state is restored |
| AttrArray.MapOfCell | src/db.c:1773-1804 | a strictly sorted array spells one map: each cell is what the map holds |
| AttrArray.ObjAttrs.Search | src/db.c:1786-1803 | the binary search finds the cell, or the only place where it could go |
| AttrArray.ObjAttrs.AtrAddRaw | src/db.c:1859-1948 | the memory back end sets the same map, with the text cut to a buffer, and the array stays strictly sorted |
| AttrArray.ObjAttrs.InsertAt | src/db.c:1921-1947 | the shifting insert moves everything from the gap on up one slot and nothing else |
| AttrArray.ObjAttrs.AtrClr | src/db.c:1773-1804 | the shifting delete clears the same map and keeps the order |
| AttrArray.ObjAttrs.AtrGetRaw | src/db.c:2076-2111 | reading returns what the map holds |
| AttrArray.ObjAttrs.AtrFree | src/db.c:2292-2294 | everything is gone, and the next walk is safe if and only if nothing was there |
| AttrArray.ObjAttrs.AtrHead | src/db.c:2439-2449 | the first number of a walk is the smallest one set |
| AttrArray.MemoryClipsDisk | src/db.c:1843-2000 | after any history of edits the memory holds the disk's texts, each cut to a buffer |
| AttrArray.BackEndsAgree | src/db.c:1863-1865 | the two back ends hold the same map if and only if no text outgrows the buffer |
| AttrArray.BackEndsDiffer | src/db.c:1863-1865 | a text of one byte more than a buffer holds is stored differently by the two |
| AttrMap.SetThenGet | src/db.c:1843-2000 | what was set last is what is read, nothing after an empty text or a clear, and no other attribute is touched |
| AttrTable.MkAttrSound | src/db.c:1236-1254 | every name keeps finding its number and every key an attribute, aliases included; a known key finds what it found, a new one gets a number no attribute had |
| AttrTable.NewNumber | src/vattr.c:61-104 | a new legal name gets the next number whose low seven bits are not all zero; an illegal one gets nothing but uses the number up |
| AttrTable.KeyForgets | src/db.c:1068-1072 | names are told apart by their first 31 characters, without regard to case, and by nothing else |
| AttrTable.AliasSound | src/conf.c:651-680 | an alias for a built-in attribute keeps the table sound, changes no name and no key, and finds what the original finds |
| AttrTable.DeathAlias | src/conf.c:651-680 | one alias of the shipped configuration: `death` finds the attribute whose name is `Kill`, and the table is sound |
| AttrTable.Attrs.MakeAttr | src/vattr.c:61-104 | the table after the call is the sound one of the function, with its number |
| FlatText.RefRoundTrip | src/db.c:2792-2797 | a number in range reads back as itself, whatever follows its line |
| FlatText.FillFits | src/db.c:2819-2870 | filling a buffer a character at a time keeps exactly the prefix that fits |
| FlatText.StringRoundTrip | src/db.c:2799-2870 | a string reads back cut to a buffer with exactly what follows left over, so whole if and only if it is shorter than a buffer |
| TextFile.Reader.GetRef | src/db.c:2872-2878 | reading a line a character at a time gives the number of the function and leaves the same rest |
| TextFile.Reader.GetString | src/db.c:2819-2870 | the loops over characters with one push-back return the string of the function, quoted or old-style, and leave the same rest |
| TextFile.Writer.PutString | src/db.c:2799-2817 | the loop appends exactly the quoted and escaped text |
| LockRoundTrip.TreeBack | src/db_rw.c:32-234 | a tree written inside another comes back with exactly the text behind it if and only if it is readable |
| LockRoundTrip.LockRoundTrip | src/db_rw.c:240-263 | getboolexp of putboolexp gives the same lock, the same rest and no new attribute, if and only if the lock is readable and no newline is in the way |
| LockRoundTrip.SlashLost | src/db_rw.c:175-199 | a lock on an attribute with a slash in its name, which ok_attr_name allows, never comes back |
| LockRoundTrip.SlashExample | src/predicates.c:533-547 | one such table and lock: `A/B` is accepted as a name, and a test of it does not come back |
| LockRoundTrip.ChannelLockBack | src/comsys.c:1810-1863 | the reader of channels is behind the dash with the lock intact if and only if the lock is readable, eval locks with their extra newline included |
| LockRoundTrip.ChannelLocksBack | src/comsys.c:1671-1676 | the three locks of a channel, each with its line, read back one behind the other |
| LockFile.GetBoolExp1 | src/db_rw.c:32-234 | the recursive reader on the file does what the function on the remaining text does, abort included |
| LockFile.GetBoolExp | src/db_rw.c:240-263 | the reader of a whole lock leaves the file at the position, the tree and the attribute names that the function says, one newline too many included |
| LockFile.GetChannelLock | src/comsys.c:1810-1863 | the reader of a channel's lock skips its line with a dash, or the extra newline and that line |
| LockFile.PutBoolSubexp | src/db_rw.c:535-609 | the recursive writer appends exactly the text from which the reader recovers a readable tree |
| LockFile.PutBoolExp | src/db_rw.c:615-623 | a lock is written with its newline, the null lock as an empty line, after what the file holds |
| LockFile.DumpAndLoad | src/db_rw.c:240-623 | writing a lock to a file and reading it gives that lock if and only if it is readable |
| ParsedLocks.ParseTyped | src/boolexp.c:462-586 | every lock the parser builds has objects under `@` and `$`, objects or tests under `=` and `+`, and no null pointer inside: evaluation never reaches its abort |
| ParsedLocks.ParsedSurvives | src/boolexp.c:588-602 | a lock typed on one line is readable on file if and only if every attribute it tests has a name that starts with a letter and holds no slash |
| ParsedLocks.SlashNotTyped | src/boolexp.c:268-325 | nobody but God, who may use numbers, can type a test of an attribute with a slash in its name |
| LockBuffer.Parser.LoadName | src/boolexp.c:362-375 | the loop loads the name up to what ends it, without the blanks behind it |
| LockBuffer.Parser.ParseE | src/boolexp.c:566-586 | the four mutually recursive routines over one moving pointer return the tree and the rest of the functions, or the null lock |
| LockBuffer.Parser.ParseBoolexp | src/boolexp.c:588-602 | for every text the parser over its buffer returns the lock of the functions, the null lock for what does not parse |
| LockPrinter.ParseShow | src/boolexp.c:268-602 | the text of a lock denotes that lock, for every lock over known objects and testable attributes, with any blanks between tokens, fully parenthesized or with only the parentheses that precedence and right association do not make redundant |
| LockPrinter.ShowInjective | src/boolexp.c:462-602 | different locks never share a text, whatever the style |
| LockPrinter.ExtraIgnored | src/boolexp.c:566-602 | a closing parenthesis too many, and all text behind it, is not looked at |
| LockPrinter.MissingParenthesis | src/boolexp.c:344-353 | one that is missing makes the text the null lock |
| LockEval.MeansDeeper | src/boolexp.c:80-108 | allowing deeper nesting never changes a lock's meaning |
| LockEval.EvalMeans | src/boolexp.c:57-224 | evaluation of any typed lock on any lock database is defined, reports the limit exactly when the lock has no meaning within the room left, and otherwise equals that meaning |
| LockEval.EvalAgrees | src/boolexp.c:57-224 | with a meaning at any depth below the limit, evaluation finds it and reports nothing |
| LockEval.SelfDenial | src/boolexp.c:80-108 | a lock that denies itself has no meaning at any depth, and what is answered is the parity of the nesting limit |
| LockEval.DenialText | src/boolexp.c:462-534 | the text of a lock that denies itself parses as one, so it can be stored on an object |
| LockLaws.IsAlone | src/boolexp.c:179-186 | `=#n` holds for exactly the player n, on any database |
| LockLaws.CarryAlone | src/boolexp.c:196-203 | `+#n` holds for exactly those who carry n, and looks at nothing but what is carried |
| LockLaws.EitherWay | src/boolexp.c:122-142 | a bare object or attribute test holds if and only if being it or carrying it does |
| LockLaws.OwnersAlone | src/boolexp.c:217-218 | `$#n` is symmetric, holds of oneself, and looks at owners only |
| LockLaws.NamelessFails | src/boolexp.c:125-150 | a test of an attribute without a name fails, however it is asked |
| LockLaws.TestAsksPlayer | src/boolexp.c:179-195 | `=attr` puts the one question to the player alone, and an eval test the one to the softcode |
| LockLaws.CarrySome | src/boolexp.c:204-216 | `+attr` holds if and only if `=attr` holds, from the same place, for something carried |
| LockLaws.Connectives | src/boolexp.c:66-77 | the null lock lets everybody in, and `&`, `|` and `!` are conjunction, disjunction and negation |
| LockLaws.RightUnseen | src/boolexp.c:70-75 | when the left side decides a pair the right side is not evaluated, so it reports no limit |
| LockLaws.DeMorgan | src/boolexp.c:70-77 | De Morgan's law, report of the limit included |
| LockLaws.IndirectAsks | src/boolexp.c:78-121 | `@#n` is the lock stored on n, asked of the same player from the same place with n as the locked thing, one level down; no lock lets everybody in, no object nobody, and past the last level it is false and reported |
| LockEvaluator.Evaluator.EvalBoolexp | src/boolexp.c:57-224 | the recursive evaluator ends on every lock database, mutually indirect locks included, restores the nesting level on every path, and returns the value of the function |
| LockEvaluator.Evaluator.EvalBoolexpAtr | src/boolexp.c:226-241 | a lock stored as text is parsed and evaluated at the present nesting level, which is the same afterwards |
| FlatDbRoundTrip.AttrsBack | src/db_rw.c:389-530 | an attribute list reads back, in any walk order, as exactly the attributes that have names and are none of the four kept elsewhere, each as much of its text as a buffer holds |
| FlatDbRoundTrip.ObjectBack | src/db_rw.c:1844-1983 | an object's entry reads back with every field, its lock and its named attributes the same, the name cut, and bit 30 of a player's second flag word off and no other bit changed; exactly the text behind it is left |
| FlatDbRoundTrip.EntryBack | src/db_rw.c:1844-1983 | an entry is read into the slot of its number; the slots skipped before it are garbage |
| FlatDbRoundTrip.ObjectsBack | src/db_rw.c:2161-2178 | all objects that are not going away come back in their slots, and every other slot is garbage or missing at the end |
| FlatDbWhole.VattrBack | src/db_rw.c:1572-1585 | the line of a user-named attribute reads back as its number, flags and name |
| FlatDbWhole.VattrsBack | src/db_rw.c:2153-2159 | reading the table defines exactly the attributes that are not marked deleted |
| FlatDbWhole.InstallNames | src/vattr.c:73-104 | defining them gives each its number, name and flags, changes no other name, and keeps the table sound |
| FlatDbWhole.HeaderBack | src/db_rw.c:2148-2149 | the counters of the header come back |
| FlatDbWhole.FlatRoundTrip | src/db_rw.c:1387-2017 | db_read of db_write rebuilds the counters, the user-named attributes that are not deleted, and every object that is not going away, with all fields, locks and named attributes, as `FlatDbContent` says, and nothing else |
| FlatDbWhole.NothingLost | src/db_rw.c:1387-2017 | where no text is longer than its buffer and every attribute has a name that is written, every object comes back whole, but for players no longer being connected |
| FlatDbWhole.UserAttributeKept | src/db_rw.c:2090-2116 | a live object's attribute under a user-given name comes back with its text |
| FlatExample.ThingText | src/db_rw.c:2029-2121 | one object as it stands in the file, line by line |
| FlatDbFile.DbWrite | src/db_rw.c:2123-2185 | the loops of the writer append exactly the text that FlatRoundTrip reads back |
| FlatDbFile.WriteObject | src/db_rw.c:2029-2121 | one object's fields, lock and attributes are appended in the order and form that ObjectBack reads back |
| FlatDbFile.ReadList | src/db_rw.c:389-530 | the reading loop of get_list is the function on the remaining text |
| FlatDbFile.ReadObject | src/db_rw.c:1844-1983 | one object's entry is read as the function says, including the attribute names its lock makes |
| FlatDbFile.Loader.DbRead | src/db_rw.c:1387-2024 | the loop of the reader fills the database that the function says, and gives up exactly when it does |
| SaneQsort.CameFrom | src/funceval.c:2907-2969 | rearranging a stretch loses and invents nothing: every element was in the stretch before |
| SaneQsort.OpenStretch | src/funceval.c:2950-2966 | rearranging the stretch still open keeps what is in order outside it in order |
| SaneQsort.SmallerSide | src/funceval.c:2950-2966 | recursing on the smaller side only makes the depth logarithmic |
| SaneQsort.Sorter.Partition | src/funceval.c:2926-2948 | the stretch is rearranged around the pivot; with a consistent comparator what is less stands before it and the rest behind |
| SaneQsort.Sorter.Sort | src/funceval.c:2907-2969 | for any comparator, even one that contradicts itself from call to call, and any random picks, sorting ends with a permutation and logarithmic depth; with a comparator that means a strict order the result is sorted |
| Cipher.CrunchIsFilter | src/funceval.c:4770-4805 | what is left of a key is its printable characters outside escapes |
| Cipher.CrunchTwice | src/funceval.c:4770-4805 | crunching is idempotent |
| Cipher.ShiftedBack | src/funceval.c:4807-4851 | shifting back undoes shifting at every key position: escapes and non-printables pass and the key keeps step |
| Cipher.CryptedIs | src/funceval.c:4807-4851 | which character becomes which: the n-th printable character outside escapes is moved on, or back, by the n-th character of the key, round a circle of 95, with the key starting over at its end, and all others stay |
| Cipher.DecryptEncrypt | src/funceval.c:4807-4851 | decrypting with the same code gives the text back, behind whatever was in the two output buffers, if and only if both had room for it |
| Cipher.CrunchCode | src/funceval.c:4770-4805 | the two pointers in one buffer leave exactly the filtered key |
| Cipher.CryptCode | src/funceval.c:4807-4851 | the loop with its wrapping key pointer appends what the function says |
| BufferPool.Pool.constructor | src/alloc.c:46-57 | an empty pool with nothing on the chain |
| BufferPool.Pool.Alloc | src/alloc.c:138-224 | no live buffer is handed out again, the live ones grow by exactly the one returned, and the chain stays the disjoint union of free and live |
| BufferPool.Pool.Free | src/alloc.c:226-287 | a live buffer becomes free; freeing it twice, or one of another size, changes nothing |
| BufferPool.Pool.Reset | src/alloc.c:363-394 | exactly the live buffers are kept, untouched, and the chain is as long as their number |
| BufferPool.Pool.LiveCount | src/alloc.c:206-214 | the counter of buffers in use is their number |
| Channels.OthersListed | src/comsys.c:1217-1238 | after losing the aliases for one channel a player's list holds exactly the aliases left |
| Channels.StaleExactlyAfterLast | src/comsys.c:410-437 | the list of connected members is right after a member leaves if and only if that was not a connected last one |
| Comsys.System.UpdateComwho | src/comsys.c:266-304 | the array holds exactly the connected members, in order |
| Comsys.System.RemoveFromChannel | src/comsys.c:395-445 | the member and only the member is off the channel; the connected list is rebuilt unless it was the last |
| Comsys.System.ZorchAliasFromList | src/comsys.c:448-475 | the alias is off the player's list, which goes when it is empty |
| Comsys.System.JoinChannel | src/comsys.c:670-772 | the outcome in each case, and all indexes still agree: member exactly when there is an alias, each list exactly the player's aliases, counts right |
| Comsys.System.ChannelClr | src/comsys.c:774-827 | no alias and no membership of the player is left, nobody else's changes, and all indexes agree |
| Comsys.System.SetConnected | src/comsys.c:829-871 | connecting or disconnecting brings every channel's connected members up to date and changes no membership |
| Comsys.System.CCreate | src/comsys.c:936-983 | a new channel is empty, an old name or a bad one is refused |
| Comsys.System.CDestroy | src/comsys.c:986-1060 | the channel and exactly the aliases for it are gone from the table and from every list |
| Comsys.System.CBoot | src/comsys.c:1191-1255 | the victim loses exactly the aliases for that channel and the membership, and all indexes agree |
| Comsys.System.DelCom | src/comsys.c:1355-1391 | the player leaves the channel exactly when the alias was the last one for it |
| Comsys.System.ClearCom | src/comsys.c:1393-1401 | no alias of the player is left and every channel's members are the others, in order; all indexes agree |

## Left out

- Sockets, signals, SQL, caches, help files, the command table, configuration and list code: plumbing, or wide and shallow.
- Command queue: the text, arguments and registers of an entry are left out; a queued command is the list of queue actions it performs. `exec` and `process_command` are not modelled.
- Command queue: an `@kick` nested in a running command is not one of those actions, since it can drop the running entry.
- Command queue: of `destroy_obj` only what it does to the queue is modelled; compensating the owner, and the object's flags and links, are not.
- Command queue: matching and permissions of `do_halt`, `do_notify` and `do_wait` happen before the modelled part; a queueing object is assumed not to be going away, and owners do not change during a run.
- Command queue: the C code keeps no tail pointer for the wait queue; the list class keeps one for all four.
- Failure of memory allocation and overflow of C integers are not modelled; numbers that go to a file are required to be in range where they are written.
- ParseTo.ParseTo: leaves out one case, both strip flags on a line that starts with a brace and leaves nothing of the piece, with nothing or a closing brace in the cell in front of it: the cleanup would read before the buffer, or take that brace for the end of the piece. No caller sets both flags.
- ParseTo.ParseArglist: evaluation of an argument is any function on its text.
- Radix compression, the flags some attributes set on their object, ownership and flag prefixes of attribute texts, and the database files below the disk back end are not modelled.
- LockFile.GetBoolExp1: its name and key buffers are unbounded here; a longer name or key overruns them in the C code. The node without a type that a quoted name alone leaves is taken as an abort.
- LockBuffer.Parser.ParseBoolexp: blanks are skipped up to the end of the text; the C code may also look at stale bytes behind it once a parenthesis is missing.
- LockEvaluator.Evaluator.EvalBoolexp: attribute checks, wildcards and softcode are any functions of their arguments; `unparse_boolexp` is not part of this model.
- FlatDbFile.ReadList: at the end of the file the source loops for ever; the model gives up.
- TextFile.Reader.GetRef: at the end of the file the source uses the line it read last; the model gives up.
- FlatDbFile.Loader.DbRead: only the flat format the server writes is read; the conversions from other servers, and other versions of the format, are refused.
- FlatDbWhole.FlatRoundTrip: takes the list of an object in any order the walk gives; flags of garbage slots are those of the garbage object, which `db_grow` leaves partly unset; the texts of locks kept as attributes and the lock trees in memory are taken as an inverse pair.
- SaneQsort.Sorter.Sort: elements are any values and the comparator any function of two of them and of the number of the call.
- BufferPool: corrupted headers and footers, tracing and statistics by tag are left out; clients are assumed not to write the magic word first into a live buffer.
- Comsys: member and alias lists are sequences rather than linked nodes; messages, listening, titles, channel permissions, and the saved lists of channels and aliases, except the locks, are left out.
- Object stacks, x-variables and structures in `src/funceval.c`: their counts hold no invariant as written.
