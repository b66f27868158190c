# Colony.Core, verified core

A Dafny model of the parts of Colony.Core that carry real state, and proofs of what they promise:

- the intrusive AVL tree behind `Map` (`AvlShape`, `AvlNodes`, `AvlExchange`, `AvlTree`): node objects with parent links
  and a sentinel, tied to a ghost tree; insertion, removal, search and traversal keep the whole tree well formed;
- the data model's change notifications (`SequenceNumbers`, `ModelPoint`, `Notification`, `NotificationRuns`,
  `NotificationEffects`, `NotificationCode`, `NotificationLists`): a transition system over points, subscribers, event
  loops and writer threads at the granularity of the two locks, its invariant, what follows for every run, what each step
  does, the code as runs of it, and the linked lists that hold the subscribers in memory;
- docopt pattern expansion, what it is for, and matching (`DocoptPattern`, `DocoptTransform`, `DocoptRepeats`,
  `DocoptMatch`);
- checksums: polynomial division over GF(2) and the two table-driven CRCs (`Gf2Division`, `MachineWords`, `CheckValue`,
  `Crc16`, `Crc32`), streaming MD5 (`Md5`), Fletcher-16 (`Fletcher`);
- intrusive lists and the hash table over them (`DList`, `HashTable`, `HashNumbers`), the ring buffer alone and between a producer and a
  consumer (`RingBuffer`, `RingBufferRuns`);
- the incremental frame decoder of the simulator (`Framer`).

`dafny verify dfyconfig.toml` checks everything. Where a module has a class, the class works by the same field updates and
loops as the source, and its methods are specified by functions on values; the laws are proved about those functions.

## What the code does that its comments do not say

- `eLOCK` (ModelPoint.h:52) is documented to fail silently on a locked point. The code updates the point
  (ModelPointCommon_.cpp:553-557); `ModelPoint` follows the code, `LockDoesNotKeep` gives a point it changes,
  and `LockedUpdateIff` and `LockedInvalidateIff` say exactly when a locked point is left.
- `copyDataFrom_` and `isDataEqual_` take as many bytes as the point has, whatever smaller size the caller gives
  (ModelPointCommon_.cpp:176-185). `WriteData` does so, and asks that those bytes exist.
- `copyDataAndStateFrom` drops the lock request when the other point is invalid (ModelPointCommon_.cpp:147-153).
- `importData` and `exportData` compare the length without the byte for the lock (ModelPointCommon_.cpp:253, 296), so
  they can go one byte beyond it; `WithinLengthIff` says exactly when. `ImportData` asks that the bytes it reads exist.
- The decoder's test for non-ASCII characters looks at a character's numeric value (Framer.cs:61), which traps only some
  of them, and a frame given up there keeps what earlier calls had collected. `OldContentShows` gives a stream and
  `PiecesMatterIff` says exactly when that shows.
- `removeItem` of the hash table uses the bucket number an item remembers without a check (HashTable_.cpp:81-82), and
  neither that removal nor the list resets it. `TakesCodeAlong` says what number an item carries into another table, and
  `RemovalOutOfRange` gives an item and a table for which the access is beyond the buckets.
- A Fletcher-16 check does not tell a byte of 0 from one of 255 (`ZeroIsLike255`); `OkayIff` and `OneByteShows` say
  exactly what it tells.
- The ring buffer is documented as safe for one producer and one consumer (RingBuffer.h:28-39), but it advances and wraps
  a pointer in two stores (RingBuffer.h:225-228, 242-245). In between, the other side can take a full buffer for one with
  room, or an empty one for one with elements: `ProducerIsMisled` and `ConsumerIsMisled` reach these moments,
  `MisledProducerLoses` and `MisledConsumerInvents` say what then happens, `FullIsRightIff` and `EmptyIsRightIff` that
  there are no others, and `QueueInEveryRun` that everything is in order in every run without them.
- `peekNextRemoveItems` leaves the count of the caller alone when the buffer is empty (RingBuffer.h:253-256).

## Preconditions taken from the source

- An item handed to a container is free (Item.cpp:24-28 makes anything else a fatal error), and a mark is only ever set by
  the container that holds the item. The AVL tree holds fewer than 9,227,464 items when one is inserted.
- An item handed to `removeItem` of a hash table remembers a bucket number of that table, as every item last inserted there
  does, and every free one that never was in a larger table.
- Attaching, detaching and notifying a subscriber happen on its own event loop's thread (EventLoop.h:77-80), and a
  subscriber is bound to one model point until its detach completes. A writer holds the database lock for the whole update.
- One `md5_append` takes fewer than 2^28 bytes, so that its shift stays within an `int`.
- OneOrMore patterns have one child (docopt_private.h:609 asserts it).
- Equal leaves of a usage pattern are one object when repeated ones are counted (docopt_private.h:147-151 sees to it).
- One producer and one consumer use a ring buffer, and commit no more than the window they were given.

## Model

| member | source | states |
|---|---|---|
| `AvlShape.FixLeftRestores` | src/Cpl/Container/AvlTree_.cpp:575-634 | what the rebalancing after growth on the left, and after a loss on the right, must come to: every balance true again, and one level less unless the left child was even; `AvlNodes.GrewLeft` and `RightShorter` do it on the nodes |
| `AvlShape.FixRightRestores` | src/Cpl/Container/AvlTree_.cpp:636-695 | the mirror image, for `AvlNodes.GrewRight` and `LeftShorter` |
| `AvlShape.AfterGrowthSettles` | src/Cpl/Container/AvlTree_.cpp:124-169 | what one step up after growth must come to: every balance true, the order kept, and `taller` exactly when the enclosing subtree grew; `AvlTree.StepAfterGrowth` does it on the nodes |
| `AvlShape.AfterShrinkSettles` | src/Cpl/Container/AvlTree_.cpp:223-276 | what one step up after a loss must come to: every balance true, the order kept, and `shorter` exactly when the enclosing subtree lost a level; `AvlTree.StepAfterShrink` does it on the nodes |
| `AvlShape.HeightLimit` | src/Cpl/Container/AvlTree_.h:19-24 | a balanced tree of fewer than 9,227,464 items has at most 32 levels, the depth the option allows |
| `AvlShape.LeanestIsLean` | src/Cpl/Container/AvlTree_.h:19-24 | that limit is exact: for every height there is a balanced tree with just the least number of items |
| `AvlNodes.MapItem.Initialize` | src/Cpl/Container/MapItem.h:61-61 | a fresh node: its parent, no children, even balance, not the sentinel |
| `AvlNodes.RotateLeft` | src/Cpl/Container/AvlTree_.cpp:514-542 | the six link updates of a left rotation, field by field |
| `AvlNodes.RotateRight` | src/Cpl/Container/AvlTree_.cpp:544-572 | the six link updates of a right rotation |
| `AvlNodes.RotLeftLinks` | src/Cpl/Container/AvlTree_.cpp:514-542 | those updates turn linked nodes into the linked nodes of the rotated tree: parent and child links stay mutually inverse |
| `AvlNodes.RotRightLinks` | src/Cpl/Container/AvlTree_.cpp:544-572 | the same for the right rotation |
| `AvlNodes.RotateLeftAt` | src/Cpl/Container/AvlTree_.cpp:514-542 | a left rotation inside a larger tree: the whole tree stays linked and nothing outside the rotated nodes and the parent link changes |
| `AvlNodes.RotateRightAt` | src/Cpl/Container/AvlTree_.cpp:544-572 | the same for the right rotation |
| `AvlNodes.GrewLeft` | src/Cpl/Container/AvlTree_.cpp:575-634 | single and double rotation after growth on the left: the nodes afterwards are the rebalanced tree, balance fields included |
| `AvlNodes.GrewRight` | src/Cpl/Container/AvlTree_.cpp:636-695 | the same on the right |
| `AvlNodes.RightShorter` | src/Cpl/Container/AvlTree_.cpp:388-449 | rebalancing after a loss on the right, all four cases, with the returned flag |
| `AvlNodes.LeftShorter` | src/Cpl/Container/AvlTree_.cpp:451-512 | rebalancing after a loss on the left |
| `AvlExchange.FindPrev` | src/Cpl/Container/AvlTree_.cpp:697-779 | the walk to the predecessor ends at the rightmost node of the left subtree, the last item in its order |
| `AvlExchange.ExchangeLinks` | src/Cpl/Container/AvlTree_.cpp:697-779 | the pointer swap of a node and its predecessor gives a linked tree in which the two have changed places, whether or not they are parent and child |
| `AvlExchange.ExchangeWithPrev` | src/Cpl/Container/AvlTree_.cpp:697-779 | the swap in the tree at hand: links, balances and the sentinel flag included |
| `AvlExchange.Unlink` | src/Cpl/Container/AvlTree_.cpp:191-220 | a node with at most one child is spliced out and its child takes its place |
| `AvlTree.StepAfterGrowth` | src/Cpl/Container/AvlTree_.cpp:124-169 | one turn of the second loop of `insert` does what the step on values does, flag included |
| `AvlTree.StepAfterShrink` | src/Cpl/Container/AvlTree_.cpp:227-272 | one turn of the upward loop of `removeItem` does what the step on values does, flag included |
| `AvlTree.ClimbAfterGrowth` | src/Cpl/Container/AvlTree_.cpp:118-172 | the second loop of `insert` leaves a balanced, linked tree with the same order of items; each `comparisons[depth]` it reads is one that was recorded |
| `AvlTree.ClimbAfterShrink` | src/Cpl/Container/AvlTree_.cpp:222-276 | the upward loop of `removeItem` leaves a balanced, linked tree with the same order of items |
| `AvlTree.AvlTree.constructor` | src/Cpl/Container/AvlTree_.cpp:25-28 | an empty, valid tree |
| `AvlTree.AvlTree.Descend` | src/Cpl/Container/AvlTree_.cpp:78-113 | the first loop of `insert`: stops at an equal key, or at the one place where the key belongs; each `comparisons[depth]` it writes is within the array |
| `AvlTree.AvlTree.Graft` | src/Cpl/Container/AvlTree_.cpp:116-176 | the new node is hung in, and the tree is balanced, linked and contains exactly one item more, at that place |
| `AvlTree.AvlTree.Insert` | src/Cpl/Container/AvlTree_.cpp:58-176 | with a record of 32 turns and fewer than 9,227,464 items no access to it is out of range; whole-tree validity is kept (key order, mutually inverse links, true balances); true exactly when the key was not there, and then exactly this item is added; otherwise no node is changed |
| `AvlTree.AvlTree.Remove` | src/Cpl/Container/AvlTree_.cpp:178-283 | whole-tree validity is kept; exactly this item is removed, all others keep their order, and it is left free; an item without the mark of the tree is left alone and nothing changes |
| `AvlTree.AvlTree.Find` | src/Cpl/Container/AvlTree_.cpp:36-56 | an item with the key, or null exactly when the traversal has none |
| `AvlTree.AvlTree.First` | src/Cpl/Container/AvlTree_.cpp:285-299 | the first item in key order |
| `AvlTree.AvlTree.Last` | src/Cpl/Container/AvlTree_.cpp:301-315 | the last item in key order |
| `AvlTree.AvlTree.Next` | src/Cpl/Container/AvlTree_.cpp:318-352 | the item at the next position in key order, null after the last |
| `AvlTree.AvlTree.Previous` | src/Cpl/Container/AvlTree_.cpp:354-384 | the item at the previous position, null before the first |
| `AvlTree.AvlTree.Walk` | src/Cpl/Container/AvlTree_.cpp:285-352 | `first` and `next` visit all items, once each, in increasing key order |
| `AvlTree.AvlTree.WalkBack` | src/Cpl/Container/AvlTree_.cpp:301-384 | `last` and `previous` visit the same items in reverse |
| `AvlTree.AvlTree.ThereAndBack` | src/Cpl/Container/AvlTree_.cpp:318-384 | `next` and `previous` undo each other, except at the ends |
| `SequenceNumbers.AdvanceCounts` | src/Cpl/Dm/ModelPointCommon_.cpp:347-355 | the first number is 1, each next one is one more, and 1 follows the largest of 16 bits |
| `SequenceNumbers.AdvancesCycle` | src/Cpl/Dm/ModelPointCommon_.cpp:347-355 | k advances never give 0 and come back to the start exactly when 65535 divides k |
| `SequenceNumbers.SameNumber` | src/Cpl/Dm/ModelPointCommon_.cpp:347-355 | two versions show the same number exactly when a multiple of 65535 changes lies between them |
| `ModelPoint.ModelPoint.constructor` | src/Cpl/Dm/ModelPointCommon_.cpp:33-54 | a fresh point has the first number, is unlocked, and is cleared when not valid |
| `ModelPoint.ModelPoint.TestAndUpdateLock` | src/Cpl/Dm/ModelPointCommon_.cpp:545-567 | an update goes ahead exactly on an unlocked point or with a lock request, and the lock afterwards is what was requested, or as before |
| `ModelPoint.ModelPoint.AdvanceSequenceNumber` | src/Cpl/Dm/ModelPointCommon_.cpp:347-355 | the new content gets the number of the next version |
| `ModelPoint.ModelPoint.WriteData` | src/Cpl/Dm/ModelPointCommon_.cpp:130-145 | data and validity change only with a new number, and only if permitted and different from what was there; as many bytes as the point has are compared and taken, for a smaller `srcSize` too |
| `ModelPoint.ModelPoint.SetInvalid` | src/Cpl/Dm/ModelPointCommon_.cpp:88-111 | a valid point is cleared and numbered anew; an invalid or locked one is left |
| `ModelPoint.ModelPoint.CopyDataAndStateFrom` | src/Cpl/Dm/ModelPointCommon_.cpp:147-159 | writes the other point's data, or invalidates without passing on the lock request |
| `ModelPoint.ModelPoint.Touch` | src/Cpl/Dm/ModelPointCommon_.cpp:161-168 | a new number for the same content |
| `ModelPoint.ModelPoint.SetLockState` | src/Cpl/Dm/ModelPointCommon_.cpp:219-233 | only the lock changes |
| `ModelPoint.ModelPoint.ReadData` | src/Cpl/Dm/ModelPointCommon_.cpp:113-128 | the data if valid, or as much of it as the destination holds, with the number of the version read |
| `ModelPoint.ModelPoint.ExportData` | src/Cpl/Dm/ModelPointCommon_.cpp:245-286 | the image of data, validity and lock with the number of the version exported, or nothing if the space is too small |
| `ModelPoint.ModelPoint.ImportData` | src/Cpl/Dm/ModelPointCommon_.cpp:288-330 | takes over data, validity and lock from an image under a new number, which it hands back, or changes nothing if the image is too short |
| `ModelPoint.EqualNumbersEqualContent` | src/Cpl/Dm/ModelPointCommon_.cpp:88-168 | over any run of updates with fewer than 65535 new numbers: equal numbers if and only if no change lies between, and then equal data and validity |
| `ModelPoint.WriteEffect` | src/Cpl/Dm/ModelPointCommon_.cpp:130-145 | a write on an unlocked point, or with any lock request, leaves the point valid with that data, under a new version exactly if that is news; on a locked point without request nothing changes; the lock is what was requested, or stays |
| `ModelPoint.InvalidateEffect` | src/Cpl/Dm/ModelPointCommon_.cpp:88-111 | the same for an invalidation, which clears what was valid |
| `ModelPoint.LockIsLastAsked` | src/Cpl/Dm/ModelPointCommon_.cpp:545-567 | over any run of updates: the point is locked exactly if the last write, invalidation, lock change or import that asked anything of the lock asked for that |
| `ModelPoint.ForcedValueStays` | src/Cpl/Dm/ModelPointCommon_.cpp:545-567 | a value written with a request to lock stays through any run of updates by others |
| `ModelPoint.ImageIs` | src/Cpl/Dm/ModelPointCommon_.cpp:262-273 | the image holds the data byte for byte, then validity and lock as 1 or 0 |
| `ModelPoint.ImportEffect` | src/Cpl/Dm/ModelPointCommon_.cpp:304-318 | an import takes every byte, the validity and the lock from the image, whatever the lock was, under a new version |
| `ModelPoint.LockedStays` | src/Cpl/Dm/ModelPointCommon_.cpp:545-567 | over any run of touches and of writes and invalidations without lock request, a locked point keeps its content and lock, and without touches nothing changes at all |
| `ModelPoint.LockedUpdateIff` | src/Cpl/Dm/ModelPointCommon_.cpp:545-567 | a write to a locked point that does not unlock it leaves it as it is if and only if there is no lock request, or the point is valid and has that data |
| `ModelPoint.LockedInvalidateIff` | src/Cpl/Dm/ModelPointCommon_.cpp:88-111 | an invalidation that does not unlock a locked point leaves it as it is if and only if there is no lock request, or the point is invalid already |
| `ModelPoint.LockDoesNotKeep` | src/Cpl/Dm/ModelPointCommon_.cpp:553-557 | a locked point that `eLOCK` changes, by a write and by an invalidation |
| `ModelPoint.WithinLengthIff` | src/Cpl/Dm/ModelPointCommon_.cpp:253-296 | an import or export stays within the given length if and only if not just the byte for the lock is missing |
| `ModelPoint.LockByteIsBeyond` | src/Cpl/Dm/ModelPointCommon_.cpp:296-313 | a length for which it does not |
| `ModelPoint.ImportUndoesExport` | src/Cpl/Dm/ModelPointCommon_.cpp:245-330 | importing an exported image into any point of the same size gives it the same content |
| `Notification.HeadIsIdle` | src/Cpl/Dm/ModelPointCommon_.cpp:357-369 | whatever a writer takes off a point's list is in the idle state and bound to that point |
| `Notification.NotifyFindsPending` | src/Cpl/Dm/ModelPointCommon_.cpp:537-541 | `eNOTIFYING` always finds the pending state, although the subscriber is enqueued before that state is set |
| `Notification.AttachKeeps` | src/Cpl/Dm/ModelPointCommon_.cpp:372-379 | attaching keeps the invariant, in all five states |
| `Notification.DetachKeeps` | src/Cpl/Dm/ModelPointCommon_.cpp:381-387 | detaching keeps the invariant, in all five states |
| `Notification.StartWriteKeeps` | src/Cpl/Dm/ModelPointCommon_.cpp:357-360 | taking the database lock and advancing the number keeps the invariant |
| `Notification.TakeNextKeeps` | src/Cpl/Dm/ModelPointCommon_.cpp:357-369 | dequeuing a subscriber and enqueuing it at its loop keeps the invariant |
| `Notification.MarkKeeps` | src/Cpl/Dm/ModelPointCommon_.cpp:537-541 | so does setting its state afterwards, even if the loop has dequeued it in between |
| `Notification.DequeueKeeps` | src/Cpl/Dm/EventLoop.cpp:50-55 | so does a loop taking its next subscriber, in the middle of any update |
| `Notification.BeginNotifyKeeps` | src/Cpl/Dm/EventLoop.cpp:57-66 | so does the start of a callback |
| `Notification.EndNotifyKeeps` | src/Cpl/Dm/EventLoop.cpp:68-73 | so does its end |
| `Notification.StepKeeps` | src/Cpl/Dm/ModelPointCommon_.cpp:401-541 | every step of every thread keeps the invariant |
| `NotificationRuns.ReachableIsSafe` | src/Cpl/Dm/ModelPointCommon_.cpp:401-541 | in every reachable state: no fatal error and no double insert, no list with a repeated entry, every subscriber in at most one list, and in the one its state says |
| `NotificationRuns.NotifyIsNeverIgnored` | src/Cpl/Dm/EventLoop.cpp:57-66 | in every reachable state `eNOTIFYING` starts the callback with the current number of the point |
| `NotificationRuns.UpToDate` | src/Cpl/Dm/ModelPointCommon_.cpp:475-493 | in every reachable state a bound subscriber with nothing pending, in hand or running is idle, listed and has the number of its point; the version it knows is the current one unless a multiple of 65535 changes was missed |
| `NotificationRuns.NoLostUpdate` | src/Cpl/Dm/ModelPointCommon_.cpp:475-541 | whenever everything is quiet, every attached subscriber is up to date |
| `NotificationRuns.RenotifiedIff` | src/Cpl/Dm/ModelPointCommon_.cpp:482-484 | at the end of a callback the subscriber is queued again exactly when the point changed since the version it knows, up to multiples of 65535 |
| `NotificationRuns.NotifiedOnAttachIff` | src/Cpl/Dm/ModelPointCommon_.h:93-99 | attaching with the number of an earlier read queues the subscriber exactly when the point changed since that read, up to multiples of 65535 |
| `NotificationRuns.InternalLess` | src/Cpl/Dm/EventLoop.cpp:50-74 | every step other than a new write, attach or detach lowers a measure over locks, lists and callbacks |
| `NotificationRuns.Progress` | src/Cpl/Dm/EventLoop.cpp:50-74 | as long as anything is unfinished, one of those steps can be taken |
| `NotificationRuns.SettlesInTime` | src/Cpl/Dm/EventLoop.cpp:50-74 | every run of those steps, in any order, is bounded by the measure |
| `NotificationRuns.EventuallyUpToDate` | src/Cpl/Dm/ModelPointCommon_.cpp:521-541 | from every reachable state, without further writes, such a run ends with every subscriber up to date |
| `NotificationRuns.StaysAhead` | src/Cpl/Dm/EventLoop.cpp:76-83 | no step of any thread moves a pending subscriber back in its queue, and each pass of its loop moves it forward |
| `NotificationRuns.ServedInTurn` | src/Cpl/Dm/EventLoop.cpp:50-83 | a pending subscriber is taken up within as many passes as its position plus one, whatever writers and other callbacks do |
| `NotificationRuns.TakeNextEffect` | src/Cpl/Dm/ModelPointCommon_.cpp:363-367 | a writer takes the first subscriber off the list of the point and appends it to the queue of its loop |
| `NotificationEffects.AttachEffect` | src/Cpl/Dm/ModelPointCommon_.cpp:372-379 | attaching with any number queues the subscriber exactly if that is not the number of the point, and else leaves it idle in the list of the point; in its own callback it goes on notifying with that number, also after a detach; nobody else is touched |
| `NotificationEffects.DefaultAttachQueues` | src/Cpl/Dm/ModelPoint.h:328-330 | attaching with the default number always queues, because no point ever has it |
| `NotificationEffects.DefaultAttachIsServed` | src/Cpl/Dm/ModelPoint.h:328-330 | and whatever else happens, the loop takes that subscriber up within as many passes as its place in the queue plus one |
| `NotificationEffects.DetachEffect` | src/Cpl/Dm/ModelPointCommon_.cpp:381-387 | after a detach the subscriber is bound to no point, in no list, and unsubscribed, or pending that while its callback runs; nobody else is touched |
| `NotificationEffects.DetachedIsLeftAlone` | src/Cpl/Dm/ModelPointCommon_.cpp:381-387 | in every run from there on without a new attach: it is in no list, no `eNOTIFYING` is for it, and once its callback is over it is unsubscribed |
| `NotificationEffects.BeginNotifyEffect` | src/Cpl/Dm/ModelPointCommon_.cpp:460-464 | the callback starts with the number and version the point has, and nothing else changes |
| `NotificationEffects.EndNotifyEffect` | src/Cpl/Dm/ModelPointCommon_.cpp:475-511 | after its callback the subscriber is unsubscribed if it was detached, idle if it has the number of the point, else queued |
| `NotificationEffects.DequeueEffect` | src/Cpl/Dm/EventLoop.cpp:50-55 | taking the head of a queue changes only where that subscriber is |
| `NotificationEffects.OthersUntouched` | src/Cpl/Dm/ModelPointCommon_.cpp:401-541 | no step changes anything about a subscriber it is not about |
| `NotificationEffects.OnlyWritesCount` | src/Cpl/Dm/ModelPointCommon_.cpp:347-360 | only the start of a write changes the version of a point, by one, and its number with it |
| `NotificationEffects.QuietAllows` | src/Cpl/Dm/ModelPointCommon_.cpp:357-387 | in a quiet state every thread can write to every point, and every subscriber can be attached and detached |
| `NotificationEffects.FirstNotification` | src/Cpl/Dm/ModelPointCommon_.cpp:372-541 | from any quiet state, attaching with the default number, one pass of the loop and the callback are a run that ends with the subscriber idle and knowing the current version |
| `NotificationCode.ModelBase.TransitionToNotifyPending` | src/Cpl/Dm/ModelPointCommon_.cpp:537-541 | the code does the transition of the protocol |
| `NotificationCode.ModelBase.TransitionToSubscribed` | src/Cpl/Dm/ModelPointCommon_.cpp:521-535 | the code does the transition of the protocol |
| `NotificationCode.ModelBase.ProcessSubscriptionEvent` | src/Cpl/Dm/ModelPointCommon_.cpp:401-519 | the nested switch is the event table of the protocol |
| `NotificationCode.ModelBase.AttachSubscriber` | src/Cpl/Dm/ModelPointCommon_.cpp:372-379 | one attach step of the protocol, whose outcome `AttachEffect` states |
| `NotificationCode.ModelBase.DetachSubscriber` | src/Cpl/Dm/ModelPointCommon_.cpp:381-387 | one detach step of the protocol, whose outcome `DetachEffect` states |
| `NotificationCode.ModelBase.ProcessChangeNotifications` | src/Cpl/Dm/ModelPointCommon_.cpp:357-369 | the draining loop is a run of the protocol: two steps per subscriber between lock and unlock, after which the point has no subscriber left in its list and is one version on |
| `NotificationCode.ModelBase.BeginNotification` | src/Cpl/Dm/EventLoop.cpp:50-66 | dequeuing and `eNOTIFYING` are a run of the protocol |
| `NotificationCode.ModelBase.CompleteNotification` | src/Cpl/Dm/EventLoop.cpp:71-73 | the end of a callback is a step of the protocol |
| `NotificationLists.Registry.Put` | src/Cpl/Container/DList.h:283-301 | `put` on the linked list of a point or loop is the change of list and place the protocol makes; on a subscriber marked as being in any list nothing changes in memory |
| `NotificationLists.Registry.Remove` | src/Cpl/Container/DList.h:309-344 | `remove` takes the subscriber out exactly when its mark names that list, as the protocol does by its place; every other list keeps its items |
| `NotificationLists.Registry.PutInPoint` | src/Cpl/Dm/ModelPointCommon_.cpp:526-530 | the linked lists go from holding a state to holding `PutPoint` of it |
| `NotificationLists.Registry.RemoveFromPoint` | src/Cpl/Dm/ModelPointCommon_.cpp:521-524 | the linked lists go from holding a state to holding `DropPoint` of it |
| `NotificationLists.Registry.PutInLoop` | src/Cpl/Dm/EventLoop.cpp:76-83 | the linked lists go from holding a state to holding `PutLoop` of it |
| `NotificationLists.Registry.RemoveFromLoop` | src/Cpl/Dm/EventLoop.cpp:85-91 | the linked lists go from holding a state to holding `DropLoop` of it |
| `NotificationLists.Registry.TakeNextInMemory` | src/Cpl/Dm/ModelPointCommon_.cpp:357-369 | a writer that takes the first node off the list of a point and puts it into that of its loop does the protocol step, in every state of the invariant |
| `NotificationLists.Registry.DequeueInMemory` | src/Cpl/Dm/EventLoop.cpp:50-55 | a loop that takes the first node off its list does the protocol step, and has the subscriber in hand the protocol says |
| `DList.DictItem.Insert` | src/Cpl/Container/Item.cpp:22-34 | the mark is set exactly on a free item |
| `DList.DList.Put` | src/Cpl/Container/DList.h:283-301 | appends a free item, leaves an owned one alone; links in both directions, marks and ends stay right |
| `DList.DList.PutFirst` | src/Cpl/Container/DList.h:263-281 | prepends a free item, leaves an owned one alone |
| `DList.DList.Remove` | src/Cpl/Container/DList.h:309-344 | takes out exactly the item, from any position, if it is marked as being here, and frees it; otherwise changes nothing |
| `DList.DList.Get` | src/Cpl/Container/DList.h:235-244 | takes out the first item |
| `DList.DList.InsertAfter` | src/Cpl/Container/DList.h:347-364 | inserts a free item at that place |
| `DList.DList.InsertBefore` | src/Cpl/Container/DList.h:366-383 | inserts a free item at that place |
| `HashTable.HashKey` | src/Cpl/Container/HashTable_.cpp:180-200 | the loop computes the byte-wise hash, reduced to a bucket number |
| `HashTable.HashIsLow` | src/Cpl/Container/HashTable_.cpp:191-198 | the hash value never has more than 28 bits |
| `HashNumbers.MixedIs` | src/Cpl/Container/HashTable_.cpp:191-197 | hashing one more byte: 16 times the value plus the byte, modulo 2^32, with what exceeds 28 bits folded into the second lowest hexadecimal digit |
| `HashNumbers.HashIsNumber` | src/Cpl/Container/HashTable_.cpp:188-199 | the hash value of a key is the number its bytes stand for to base 16, whenever that has at most 28 bits |
| `HashNumbers.ShortKeys` | src/Cpl/Container/HashTable_.cpp:188-199 | so it is for every key of at most six ASCII characters |
| `HashNumbers.BucketIsRemainder` | src/Cpl/Container/HashTable_.cpp:199-199 | the bucket is then the remainder of that number |
| `HashNumbers.KeyA` | src/Cpl/Container/HashTable_.cpp:188-199 | the key of the one byte 0x61 goes to bucket 7 of 10 |
| `HashTable.DefaultTable` | src/Cpl/Container/HashTable_.cpp:20-27 | a table that uses that hash: empty, and each key belongs in the bucket the loop computes |
| `HashTable.HashTable.constructor` | src/Cpl/Container/HashTable_.cpp:20-38 | an empty table over distinct empty lists |
| `HashTable.HashTable.Insert` | src/Cpl/Container/HashTable_.cpp:42-53 | a free item goes to the end of the bucket of its key and to no other; every stored item stays in the bucket of its key; the item remembers its bucket number |
| `HashTable.HashTable.RemoveItem` | src/Cpl/Container/HashTable_.cpp:78-89 | exactly this item is taken out and freed; an item that is not in the table is left alone, if the bucket number it remembers is one of this table |
| `HashTable.TakesCodeAlong` | src/Cpl/Container/HashTable_.cpp:78-89 | an item that went through a table keeps the bucket number of its key there; so its removal from another table stays in range if and only if that number is below the number of buckets of the other |
| `HashTable.RemovalOutOfRange` | src/Cpl/Container/HashTable_.cpp:78-82 | a free item and a table of one bucket for which it does not |
| `HashTable.HashTable.Find` | src/Cpl/Container/HashTable_.cpp:55-76 | finds an item with the key exactly when one is stored, and of several the one longest in the table |
| `HashTable.HashTable.OrderIsStored` | src/Cpl/Container/HashTable_.cpp:91-133 | bucket after bucket gives each stored item exactly once, and their number is `m_numItems` |
| `HashTable.HashTable.First` | src/Cpl/Container/HashTable_.cpp:91-110 | the first in that order |
| `HashTable.HashTable.Next` | src/Cpl/Container/HashTable_.cpp:112-133 | the one after it in that order, null after the last |
| `HashTable.HashTable.Walk` | src/Cpl/Container/HashTable_.cpp:91-133 | `first` and `next` enumerate each stored item exactly once |
| `DocoptTransform.ExpandMeaning` | xsrc/docopt-cpp/docopt_private.h:364-389 | expanding any branch of a group, wherever it stands, keeps the multiset of leaf bags the group stands for |
| `DocoptTransform.ExpandLighter` | xsrc/docopt-cpp/docopt_private.h:344-390 | every group an expansion produces is lighter, although repetition doubles its contents |
| `DocoptTransform.ExpandEffort` | xsrc/docopt-cpp/docopt_private.h:344-390 | the measure over the whole worklist falls, although choice multiplies the groups |
| `DocoptTransform.FirstBranch` | xsrc/docopt-cpp/docopt_private.h:349-352 | the first branch of a group |
| `DocoptTransform.Transform` | xsrc/docopt-cpp/docopt_private.h:337-393 | ends for every pattern, with groups of leaves only, which as a multiset of leaf bags are the recursive meaning of the pattern |
| `DocoptTransform.MostUrgent` | scripts/colony.core/docopt/docopt.py:80-103 | the first branch of the most urgent type in a group |
| `DocoptTransform.EitherOf` | scripts/colony.core/docopt/docopt.py:71-104 | the second expansion, by type priority, ends too and has the same meaning |
| `DocoptTransform.BothOrders` | xsrc/docopt-cpp/docopt_private.h:337-393 | both expansion orders give the same multiset of leaf bags for every pattern rooted at Required |
| `DocoptRepeats.GroupAlternatives` | xsrc/docopt-cpp/docopt_private.h:337-393 | the alternatives of a group are the sums of one alternative of each of its patterns |
| `DocoptRepeats.BranchAlternatives` | xsrc/docopt-cpp/docopt_private.h:364-389 | those of a choice are those of its patterns, those of a repetition any two of the group together, those of the other branches those of the group |
| `DocoptRepeats.MostIsPeak` | xsrc/docopt-cpp/docopt_private.h:337-393 | the largest number of times an element is in one alternative is the one counted over the pattern: added up in groups, the largest in choices, doubled in repetitions |
| `DocoptRepeats.Twice` | xsrc/docopt-cpp/docopt_private.h:399-403 | the leaves a group has more than once |
| `DocoptRepeats.RepeatingArguments` | xsrc/docopt-cpp/docopt_private.h:395-407 | the elements that are given a list or a counter are exactly those that may occur more than once |
| `DocoptMatch.ArgumentMatch` | xsrc/docopt-cpp/docopt_private.h:487-502 | the position of the first argument or command |
| `DocoptMatch.CommandMatch` | xsrc/docopt-cpp/docopt_private.h:504-520 | that position, if its value is the name of the command |
| `DocoptMatch.OptionMatch` | xsrc/docopt-cpp/docopt_private.h:579-589 | the position of the first leaf with the name of the option |
| `DocoptMatch.LeafMatch` | xsrc/docopt-cpp/docopt_private.h:438-445 | what a leaf pattern takes away |
| `DocoptMatch.RequiredMatch` | xsrc/docopt-cpp/docopt_private.h:591-605 | all children in turn, or nothing, as `RequiredIff` states it |
| `DocoptMatch.OptionalMatch` | xsrc/docopt-cpp/docopt_private.h:299-304 | all children in turn, whether they match or not |
| `DocoptMatch.OneOrMoreMatch` | xsrc/docopt-cpp/docopt_private.h:607-643 | as often as the child takes something away, and within two more passes than there are arguments |
| `DocoptMatch.EitherMatch` | xsrc/docopt-cpp/docopt_private.h:645-672 | the first of the shortest leftovers |
| `DocoptMatch.Match` | xsrc/docopt-cpp/docopt_private.h:579-672 | the matching methods together compute the meaning of the pattern |
| `DocoptMatch.MatchTakesAway` | xsrc/docopt-cpp/docopt_private.h:438-445 | for every pattern, what is left is a subsequence of what there was, and all of it when the match fails |
| `DocoptMatch.LeafTakesFirst` | xsrc/docopt-cpp/docopt_private.h:487-589 | a leaf matches exactly when there is an argument of its sort, the first of which must be its name for a command, and takes just that one away |
| `DocoptMatch.RequiredIff` | xsrc/docopt-cpp/docopt_private.h:591-605 | a required group matches exactly when its patterns match one after the other, each on what the one before leaves, and leaves what the last one leaves; otherwise everything |
| `DocoptMatch.OptionalIs` | xsrc/docopt-cpp/docopt_private.h:299-304 | an optional group always matches and leaves what its patterns leave one after the other, whether they match or not |
| `DocoptMatch.OneOrMoreIs` | xsrc/docopt-cpp/docopt_private.h:607-643 | a repetition matches exactly when its child does, and leaves what the child leaves, matched again until it fails or takes nothing away |
| `DocoptMatch.EitherIsBest` | xsrc/docopt-cpp/docopt_private.h:645-672 | an alternative matches exactly when one of its children does, with the outcome of the first of those that leave over least; otherwise everything is left |
| `Gf2Division.DivisionLaw` | src/Cpl/Checksum/Crc16CcittFast.h:25-30 | dividend equals quotient times generator plus remainder, over GF(2) |
| `Gf2Division.DivisionUnique` | src/Cpl/Checksum/Crc16CcittFast.h:25-30 | no other quotient and remainder of those lengths do |
| `Gf2Division.FeedDivides` | src/Cpl/Checksum/Crc16CcittFast.cpp:69-78 | the bit-by-bit shift register leaves the remainder of long division |
| `Gf2Division.BurstDetected` | src/Cpl/Checksum/Crc16CcittFast.cpp:69-78 | two bit strings that differ within the degree of the generator never leave the same register value |
| `CheckValue.CheckIsTheRemainder` | src/Cpl/Checksum/Crc16CcittFast.cpp:69-78 | the check value is the one remainder of the message, its first bits inverted and followed by zeros, modulo the generator |
| `CheckValue.CheckAppend` | src/Cpl/Checksum/Crc16CcittFast.cpp:69-78 | the check value of a message continues that of any beginning of it |
| `CheckValue.CheckNext` | src/Cpl/Checksum/Crc16CcittFast.cpp:74-77 | one byte at a time with a table of eight division steps is that continuation, for any generator of up to 32 bits |
| `CheckValue.BurstShows` | src/Cpl/Checksum/Crc16CcittFast.cpp:92-95 | a burst of wrong bits no longer than the check value always changes it |
| `CheckValue.WrongBytesShow` | src/Cpl/Checksum/Crc16CcittFast.cpp:92-95 | so do as many adjacent wrong bytes as the check value has |
| `CheckValue.ZeroIffCheckFollows` | src/Cpl/Checksum/Crc16CcittFast.cpp:80-95 | the check value of a string is zero exactly when it ends with the check value of what is before |
| `CheckValue.DamagedFrameShows` | src/Cpl/Checksum/Crc16CcittFast.cpp:80-95 | message and trailer together: if what arrives differs within such a burst, the check fails exactly when it differs at all |
| `CheckValue.OddErrorsShow` | src/Cpl/Checksum/Crc16CcittFast.h:25-30 | a generator with an even number of terms shows every odd number of wrong bits |
| `Crc16.GeneratorFits` | src/Cpl/Checksum/Crc16CcittFast.h:25-30 | the generator has a constant term and an even number of terms |
| `Crc16.GeneratorBits` | src/Cpl/Checksum/Crc16CcittFast.h:25-30 | its terms are x^16, x^12, x^5 and 1 |
| `Crc16.Table` | src/Cpl/Checksum/Crc16CcittFast.cpp:19-53 | each of the 256 entries is what eight division steps make of its index |
| `Crc16.BurstsShow` | src/Cpl/Checksum/Crc16CcittFast.cpp:69-78 | messages that differ only within 16 bits, or within 2 bytes, never share a CRC |
| `Crc16.OddErrors` | src/Cpl/Checksum/Crc16CcittFast.h:25-30 | messages that differ in an odd number of bits never share a CRC |
| `Crc16.DamagedFrames` | src/Cpl/Checksum/Crc16CcittFast.cpp:80-95 | a message with its two bytes of CRC, damaged within 16 bits, is accepted if and only if it is not damaged |
| `Crc16.Crc16CcittFast.Reset` | src/Cpl/Checksum/Crc16CcittFast.cpp:62-65 | the check value of the empty message |
| `Crc16.Crc16CcittFast.Accumulate` | src/Cpl/Checksum/Crc16CcittFast.cpp:69-78 | after any number of calls the word is the remainder of everything accumulated |
| `Crc16.Crc16CcittFast.Finalize` | src/Cpl/Checksum/Crc16CcittFast.cpp:80-90 | that value, and its two bytes where the receiver expects them |
| `Crc16.Crc16CcittFast.IsOkay` | src/Cpl/Checksum/Crc16CcittFast.cpp:92-95 | true exactly when the last two bytes are what `finalize` wrote for those before |
| `Crc32.GeneratorFits` | src/Cpl/Checksum/Crc32EthernetFast.cpp:18-52 | the generator has a constant term |
| `Crc32.GeneratorBits` | src/Cpl/Checksum/Crc32EthernetFast.cpp:18-52 | its fifteen terms |
| `Crc32.Table` | src/Cpl/Checksum/Crc32EthernetFast.cpp:18-52 | each of the 256 entries is what eight division steps make of its index |
| `Crc32.BurstsShow` | src/Cpl/Checksum/Crc32EthernetFast.cpp:89-99 | messages that differ only within 32 bits, or within 4 bytes, never share a CRC |
| `Crc32.DamagedFrames` | src/Cpl/Checksum/Crc32EthernetFast.cpp:101-118 | a message with its four bytes of CRC, damaged within 32 bits, is accepted if and only if it is not damaged |
| `Crc32.Crc32EthernetFast.Reset` | src/Cpl/Checksum/Crc32EthernetFast.cpp:82-85 | the check value of the empty message |
| `Crc32.Crc32EthernetFast.Accumulate` | src/Cpl/Checksum/Crc32EthernetFast.cpp:89-99 | after any number of calls the word is the remainder of everything accumulated |
| `Crc32.Crc32EthernetFast.Finalize` | src/Cpl/Checksum/Crc32EthernetFast.cpp:101-113 | that value, and its four bytes, most significant first |
| `Crc32.Crc32EthernetFast.IsOkay` | src/Cpl/Checksum/Crc32EthernetFast.cpp:115-118 | true exactly when the last four bytes are what `finalize` wrote for those before |
| `Md5.ZerosNeeded` | src/Cpl/Checksum/md5_aladdin_.c:375-376 | the least number of zeros that makes room for the length |
| `Md5.Padding` | src/Cpl/Checksum/md5_aladdin_.c:361-378 | padding that always completes a block |
| `Md5.PaddingIsOneBitZerosLength` | src/Cpl/Checksum/md5_aladdin_.c:363-378 | the padding is one bit, zeros, and the length in the last eight bytes |
| `Md5.PaddingIsUnambiguous` | src/Cpl/Checksum/md5_aladdin_.c:361-378 | no two messages of fewer than 2^61 bytes become the same by padding |
| `Md5.LengthBytesAre` | src/Cpl/Checksum/md5_aladdin_.c:373-374 | the length is the number of bits modulo 2^64, low byte first |
| `Md5.WordBytesAre` | src/Cpl/Checksum/md5_aladdin_.c:374-380 | a word is written low byte first |
| `Md5.OutputIs` | src/Cpl/Checksum/md5_aladdin_.c:379-380 | the digest holds the four registers in order, each low byte first |
| `Md5.InitialBytes` | src/Cpl/Checksum/md5_aladdin_.c:312-320 | the bytes the registers start with, in the order of RFC 1321 |
| `Md5.FoldOrder` | src/Cpl/Checksum/md5_aladdin_.c:348-350 | blocks are processed from the first to the last, and no block leaves the registers as they are |
| `Md5.CountAdd` | src/Cpl/Checksum/md5_aladdin_.c:333-337 | the carry from one count word to the other keeps the bit count modulo 2^64 |
| `Md5.CountOffset` | src/Cpl/Checksum/md5_aladdin_.c:327-327 | the offset in the buffer is the length of the message modulo 64 |
| `Md5.Md5State.constructor` | src/Cpl/Checksum/md5_aladdin_.c:312-320 | an empty message |
| `Md5.Md5State.Append` | src/Cpl/Checksum/md5_aladdin_.c:322-358 | the message grows by the given bytes; whole blocks are in the registers, the rest is in the buffer; nothing happens for a count of zero or less |
| `Md5.Md5State.TakeIn` | src/Cpl/Checksum/md5_aladdin_.c:339-357 | completing a partial block, whole blocks, and the remaining tail |
| `Md5.Md5State.Finish` | src/Cpl/Checksum/md5_aladdin_.c:360-381 | the digest of all that was appended, as RFC 1321 defines it for a whole message |
| `Md5.DigestOfPieces` | src/Cpl/Checksum/md5_aladdin_.c:312-381 | for every way of cutting a message into pieces the digest is the same |
| `Fletcher.SumAppend` | src/Cpl/Checksum/Fletcher16.cpp:32-41 | both sums of a message from those of its parts |
| `Fletcher.OkayIff` | src/Cpl/Checksum/Fletcher16.cpp:43-61 | two bytes behind a message are accepted if and only if they are its trailer modulo 255 |
| `Fletcher.TrailerCancels` | src/Cpl/Checksum/Fletcher16.cpp:43-61 | the trailer always drives both sums to zero |
| `Fletcher.OneByteShows` | src/Cpl/Checksum/Fletcher16.cpp:32-41 | two messages that differ in one byte are told apart if and only if those bytes differ modulo 255 |
| `Fletcher.ZeroIsLike255` | src/Cpl/Checksum/Fletcher16.cpp:32-61 | the messages 0 and 255 have the same sums, and one is accepted with the trailer of the other |
| `Fletcher.Fletcher16.Accumulate` | src/Cpl/Checksum/Fletcher16.cpp:32-41 | the sums are those of all bytes, plain and weighted with the distance from the end, modulo 255 |
| `Fletcher.Fletcher16.Finalize` | src/Cpl/Checksum/Fletcher16.cpp:43-56 | the trailer, returned and written |
| `Fletcher.Fletcher16.IsOkay` | src/Cpl/Checksum/Fletcher16.cpp:58-61 | true exactly when both sums vanish |
| `RingBuffer.Room` | src/Cpl/Container/RingBuffer.h:279-296 | the window to add to: the longest that lies in the memory and leaves one slot free; empty only when the buffer is full |
| `RingBuffer.Flat` | src/Cpl/Container/RingBuffer.h:250-266 | the window to remove from: the longest run of the oldest elements that lies in the memory; empty only when the buffer is |
| `RingBuffer.WriteOutside` | src/Cpl/Container/RingBuffer.h:279-296 | writing into the window does not change the queue |
| `RingBuffer.Committed` | src/Cpl/Container/RingBuffer.h:298-307 | advancing the tail appends what was written |
| `RingBuffer.Released` | src/Cpl/Container/RingBuffer.h:268-277 | advancing the head drops the oldest |
| `RingBuffer.RingBuffer.constructor` | src/Cpl/Container/RingBuffer.h:198-206 | an empty queue, over any memory |
| `RingBuffer.RingBuffer.ClearTheBuffer` | src/Cpl/Container/RingBuffer.h:209-213 | the queue is empty again |
| `RingBuffer.RingBuffer.Add` | src/Cpl/Container/RingBuffer.h:216-231 | appends, unless n - 1 elements are there |
| `RingBuffer.RingBuffer.Remove` | src/Cpl/Container/RingBuffer.h:233-247 | takes the oldest, unless there is none |
| `RingBuffer.RingBuffer.IsFull` | src/Cpl/Container/RingBuffer.h:344-353 | true exactly with n - 1 elements, and always without memory |
| `RingBuffer.RingBuffer.GetNumItems` | src/Cpl/Container/RingBuffer.h:355-365 | the length of the queue |
| `RingBuffer.RingBuffer.PeekNextAddItems` | src/Cpl/Container/RingBuffer.h:279-296 | the window to add to, null and zero when full |
| `RingBuffer.RingBuffer.AddElements` | src/Cpl/Container/RingBuffer.h:298-307 | appends the elements written into the window |
| `RingBuffer.RingBuffer.PeekNextRemoveItems` | src/Cpl/Container/RingBuffer.h:250-266 | a window with the front of the queue; when empty, null with the count of the caller left alone |
| `RingBuffer.RingBuffer.RemoveElements` | src/Cpl/Container/RingBuffer.h:268-277 | drops that many of the oldest |
| `RingBuffer.RingBuffer.FillWindow` | src/Cpl/Container/RingBuffer.h:279-307 | peek, write, commit: appends a prefix of the source, empty only if the buffer is full or there is nothing to add |
| `RingBuffer.RingBuffer.PeekHead` | src/Cpl/Container/RingBuffer.h:309-318 | the oldest element |
| `RingBuffer.RingBuffer.PeekTail` | src/Cpl/Container/RingBuffer.h:320-335 | the newest element |
| `RingBufferRuns.FullIsRightIff` | src/Cpl/Container/RingBuffer.h:344-353 | seen by the producer in any moment, `isFull` is right if and only if it is not asked while the head is past the end and the tail at the last slot |
| `RingBufferRuns.EmptyIsRightIff` | src/Cpl/Container/RingBuffer.h:338-342 | seen by the consumer in any moment, `isEmpty` is right if and only if it is not asked while the tail is past the end and the head at the first slot |
| `RingBufferRuns.RoomIsWhole` | src/Cpl/Container/RingBuffer.h:279-296 | the window a producer is given is always all the room in one piece |
| `RingBufferRuns.AvailIsWholeIff` | src/Cpl/Container/RingBuffer.h:250-266 | the window a consumer is given is all that lies in one piece, if and only if it does not ask while the tail is past the end and the head at the first slot |
| `RingBufferRuns.AddsAndWraps` | src/Cpl/Container/RingBuffer.h:216-231 | an add that sees room is a run that stores and appends its element |
| `RingBufferRuns.RemovesAndWraps` | src/Cpl/Container/RingBuffer.h:233-247 | a remove that sees an element is a run that takes the one at the head |
| `RingBufferRuns.StepKeeps` | src/Cpl/Container/RingBuffer.h:216-307 | every other step of producer and consumer, advancing and wrapping being two, keeps: removed plus buffered is what was added, and each window stays good while the other end moves |
| `RingBufferRuns.QueueInEveryRun` | src/Cpl/Container/RingBuffer.h:28-39 | in every interleaving of one producer and one consumer in which neither asks in that moment: no access out of bounds, elements come out in order, none lost or twice, never more than n - 1 buffered |
| `RingBufferRuns.AtOnceIsHonest` | src/Cpl/Container/RingBuffer.h:225-228 | that moment never comes when each side wraps its pointer before anybody takes another step |
| `RingBufferRuns.MisledProducerLoses` | src/Cpl/Container/RingBuffer.h:216-231 | whenever the producer does ask in that moment, its `add` succeeds and all n elements are lost |
| `RingBufferRuns.MisledConsumerInvents` | src/Cpl/Container/RingBuffer.h:233-247 | whenever the consumer does, its `remove` returns an element nobody added |
| `RingBufferRuns.ProducerIsMisled` | src/Cpl/Container/RingBuffer.h:242-245 | a buffer of two slots gets into that moment for the producer |
| `RingBufferRuns.ConsumerIsMisled` | src/Cpl/Container/RingBuffer.h:225-228 | and for the consumer |
| `Framer.Framer.Deframe` | projects/pico-display-simulator/simulator/Framer.cs:37-107 | one call: the frame found, if any, and all four fields afterwards |
| `Framer.ParseScans` | projects/pico-display-simulator/simulator/Framer.cs:43-101 | up to the first frame, the loop is a character-by-character scanner |
| `Framer.ReceivedAllScans` | projects/pico-display-simulator/simulator/Framer.cs:37-107 | over any pieces, asking until there is no frame gives the frames the scanner completes |
| `Framer.PiecesMatterIff` | projects/pico-display-simulator/simulator/Framer.cs:50-64 | for every stream: the frames are the same in whatever pieces it arrives if and only if no frame is completed after one that was given up half way |
| `Framer.SpoiledExample` | projects/pico-display-simulator/simulator/Framer.cs:60-64 | such streams exist as soon as some character is trapped |
| `Framer.OldContentShows` | projects/pico-display-simulator/simulator/Framer.cs:24-107 | a real stream, with the default characters: one frame in one piece, another in two |
| `Framer.UntrappedInAnyPieces` | projects/pico-display-simulator/simulator/Framer.cs:37-107 | every stream without trapped characters gives the same frames in whatever pieces |
| `Framer.AsciiInAnyPieces` | projects/pico-display-simulator/simulator/Framer.cs:60-64 | so does every stream of ASCII characters, whose numeric values are those of the digits at most |
| `Framer.CalmInAnyPieces` | projects/pico-display-simulator/simulator/Framer.cs:37-107 | so does every stream in which no character is trapped inside a frame |
| `Framer.NoiseDoesNotMatter` | projects/pico-display-simulator/simulator/Framer.cs:43-101 | whatever a sender escapes beyond what it must, whatever is on the line before, between and after the frames, and in whatever pieces it arrives, exactly the payloads come out |
| `Framer.TrapGivesUp` | projects/pico-display-simulator/simulator/Framer.cs:60-64 | a trapped character gives a frame up: what follows in the same piece is received as if it had not begun |
| `Framer.RoundTrip` | projects/pico-display-simulator/simulator/Framer.cs:5-11 | payloads escaped, framed, concatenated and cut up in any way come back |
| `Framer.RoundTripIff` | projects/pico-display-simulator/simulator/Framer.cs:5-11 | that holds for all payloads if and only if the end and escape characters differ; the start character does not matter |

## Left out

- JSON conversion of model points: it depends on a library that is not part of this model.
- Mutexes, threads, timers and semaphores themselves: the locks are taken to be mutually exclusive; what a callback does is any
  sequence of steps its thread may take.
- Attaching one subscriber to two model points, or rebinding it to another point inside its own callback.
- String keys: keys of the AVL tree are integers, compared as `KeyPlainType` does; keys of the hash table are any type with
  equality and a hash function in range.
- Two redundant link assignments after the inner rotations of `grewLeft` and `grewRight`, and the last test of
  `exchangeWithPrev`, which no tree can make true.
- NotificationCode.ModelBase.ProcessChangeNotifications: one call without interruption; loops that dequeue in its middle are
  covered by the transition system, whose steps are finer.
- NotificationCode.ModelBase.BeginNotification: one call during which no writer holds the lock of the point; dequeuing while
  one does, and `eNOTIFYING` after it, are steps of the transition system.
- The order in which one core sees the stores of another: steps of producer and consumer are interleaved one by one.
- The rounds of MD5: the block function is a parameter.
- `DList::move` and `clearTheList`, `getLast`, and the stack and queue views of a list: they only repeat `get` and `put`.
- Usage parsing, `collected` values, help and error messages of docopt.
- DocoptRepeats.RepeatingArguments: finds the elements; the list or counter each of them then gets as its value is left out.
- `RingBufferMT`, `RingBufferMP`, `Stack`, `SList`, `Dictionary`, `Map`, the streams and all user interfaces: wrappers, or
  easier versions of what is here.
- `tableStats` of the hash table, and metadata in exported images, which is empty by default.
