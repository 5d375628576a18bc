# Items, decay, spells, trades and streams of the game server

This project models the parts of the server that move items about and keep books on them, and proves
what they promise.  It is written in Dafny; `dafny verify dfyconfig.toml` checks all of it.

- **Item tree** (`ItemTree`, `Weights`, `Queries`, `Containers`, `Traversal`, `Iterators`): items as
  objects with parent pointers, item lists and cached weights.  A snapshot of all items is a value;
  methods say what they make of it.  Parent pointers and lists always mirror each other, no container
  is inside itself, cached weights are exact, and the iterator visits what is inside, each item once.
- **Moving, adding and money** (`Census`, `Moves`, `Adding`, `Carriers`, `GameItems`, `Coins`, `Purse`, `Money`):
  what every operation checks, what it changes, and that nothing is made or lost - except where the
  code does lose something, which is stated exactly.
- **Saving** (`Rows`, `SaveItems`; `Streams`, `AttrCodec`, `AttrTags`, `ItemStream`, `AttrStreams`): items as rows
  that name their containers, and items as bytes, both read back to the same trees.
- **File format** (`Otb`): a parser with an explicit stack, against a grammar.
- **Walk cache** (`WalkCache`) and **areas of spells** (`Areas`): matrices changed in place.
- **Decay** (`Decaying`, `DecayScheduler`), **trades** (`Trading`) and the **database task queue**
  (`TaskQueue`): state machines, with what holds over every run.
- **Base32** (`Base32`): a decoder with a small buffer, against a regrouping of bits.

`Arithmetic`, `Positions` and `Seals` hold what several of these share.

## What the code does not do

Where the code falls short of what it is for, the model follows the code, a lemma gives an input,
and another says exactly when all is well:

- `internalAddItem` drops the remainder of a merge when partial stacks take a part and the last free
  slot does not count (`Adding.AddOutcome`, `Adding.AddCanLose`).  It reports what the first remainder
  comes to, and not what is dropped further down (`Adding.ReportedIff`, `Adding.ReportCanMiss`).
  `addMoney` does not look at the report and loses gold this way if the cylinder is a container
  (`Coins.SettleLosesIff`, `Coins.AddMoneyLosesIff`, `Coins.AddMoneyCanLose`); the program calls it for
  players (src/luascript.cpp:9042), who pick the last slot by its number.
  `removeMoney`, which gives change with it, never loses any (`Purse.ChangeIsKept`, `Money.RemoveMoney`).
- `addMoney` mints a wrong amount from 4295000000 on, but for some far larger ones
  (`Coins.MintIsExact`, `Coins.MintIsExactBelow`, `Coins.MintExactAgain`, `Coins.MintLess`).
- A diagonal step to the south leaves two edges of the walk cache wrong, because a distance is used
  where a signed offset is expected (`WalkCache.StepIsRight`, `WalkCache.SouthEastGoesWrong`).
- Mirroring and flipping a matrix that is not a square displaces the area (`Areas.ReflectsIff`,
  `Areas.RowMirrorsWrong`).
- Charges on a stack overwrite its size when loaded, small action ids become 100 and long strings are
  lost (`AttrCodec.ChargesOverwriteCount`, `AttrCodec.SurvivesIff`).  A blank custom value would make
  loading fail (`AttrCodec.LoadsIff`); but the script function that sets custom attributes
  (src/luascript.cpp:6314-6331) stores numbers, strings and booleans only, and reading never stores a
  blank (`AttrCodec.NeverBlank`), so that no item has one.
- A file with a single node without properties is refused (`Otb.EncodedParses`).
- The decay state of an item can change while the item stays in its bucket (`Decaying.StateCanLag`).
  An item that waits to be processed by a check and is started again gets into a bucket it has no time
  stamp for, so that stopping it does not take it out (`Decaying.IndexKeptIff`,
  `Decaying.RelistedGoesWrong`, `Decaying.StopMissesEntry`).
- Shutdown's notification can be missed by the worker thread, which then waits until a wake-up that
  nobody asked for (`TaskQueue.LastNotifyDecides`, `TaskQueue.OvertakenCanMiss`, `TaskQueue.ShutdownCanBeMissed`).
- A trade tests both items as adds that may merge, and then moves them to the players without merging.
  A player who has no free place for an item, but room for it on stacks, passes the test and receives nothing:
  the pieces leave their container and vanish (`Carriers.MoveOutcomeIff`, `Carriers.TestedMoveCanVanish`).
  Without any room at all the test succeeds too, and the move is refused (`Carriers.TestedMoveCanFail`);
  the program does not look at what the second of the two moves returns (`Trading.TradeDesk.FinishTrade`).
- A player can accept a trade before the partner has offered anything; unless the player closes the
  trade in time, it is carried out with whatever the partner offers then (`Trading.AgreedToPairIff`,
  `Trading.AcceptedUnseen`).

## Model

| member | source | states |
|---|---|---|
| ItemTree.PushFrontForest | src/container.cpp:440-459 | adding an item that is nowhere to a container outside of it keeps parent pointers and item lists in step and free of cycles |
| ItemTree.AddKeepsForestIff | src/container.cpp:258-275 | and it does so exactly if the container is not inside the item, which is what the walk over the parents refuses |
| ItemTree.TakeOutForest | src/container.cpp:519-552 | so does taking an entry out |
| ItemTree.ExchangeForest | src/container.cpp:495-517 | and so does putting another item in its place |
| ItemTree.RemovedKeepsBounds | src/container.cpp:519-552 | removing part of a stack or a whole entry keeps the forest, stacks of 1 to 100 and the capacity of every container |
| ItemTree.RemovedIs | src/container.cpp:519-552 | a part of a stack leaves a stack that is smaller by so many pieces; otherwise the item loses its parent, and the other entries keep their order |
| ItemTree.ExchangeIs | src/container.cpp:495-517 | the new entry is at the index, the others are where they were, and only the two items have another parent |
| ItemTree.RestampIs | src/item.cpp:250-275 | what another type does to duration, state of decay, time stamp and corpse owner |
| Containers.Item.UpdateItemWeight | src/container.cpp:114-121 | the walk along the parents turns caches that are off by the same amount on one path into caches that all agree with their contents, changes nothing else, and ends |
| Containers.Item.InternalAddThing | src/container.cpp:635-645 | the item goes to the front, and every cached weight is right again |
| Containers.Item.AddThing | src/container.cpp:440-459 | the same, except that an index past the last slot makes the call do nothing |
| Containers.Item.UpdateThing | src/container.cpp:472-493 | an entry gets a new type and count in place, other things do nothing; all cached weights stay right |
| Containers.Item.ReplaceThing | src/container.cpp:495-517 | the entry at an index is replaced and left without parent; all cached weights stay right |
| Containers.Item.RemoveThing | src/container.cpp:519-552 | part of a stack or the whole entry goes; all cached weights stay right |
| Containers.Item.GetThingIndex | src/container.cpp:554-564 | the first position of an entry, or -1 exactly if it is none |
| Containers.WeightIsExact | src/container.cpp:123-126 | in every state these operations lead to, `getWeight` is the recursive sum over the whole tree below, modulo 2^32 |
| Weights.CacheIsTreeWeight | src/container.cpp:114-126 | caches that agree with their direct contents agree with the whole tree |
| Weights.BaseIs | src/item.h:840-845 | the weight of one piece is its own, if it has one, or that of the type |
| Weights.OwnIs | src/item.cpp:851-858 | an item weighs that for each of its pieces, and at least once |
| Containers.Item.QueryAdd | src/container.cpp:235-290 | the loops over the entries and over the parents give exactly the answer of the specification, which refuses every container inside the item itself |
| Containers.Item.QueryMaxCount | src/container.cpp:292-341 | the room found by the loop is the slack of all partial stacks plus the free slots |
| Containers.Item.QueryRemove | src/container.cpp:343-363 | what may be removed |
| Containers.Item.QueryDestination | src/container.cpp:365-433 | where an add really goes: up, down into a container, onto the first stack that fits, or here |
| Queries.AddRefusedIff | src/container.cpp:235-290 | each reason for refusing an add with its exact condition on the fields of the two items and the chain of parents, in the order in which they are looked for |
| Queries.MaxCountIsRoom | src/container.cpp:307-331 | the room for a stack is a hundred for each free slot and what the entries of its kind, or the one at the index, have space for; less than asked for is an error |
| Queries.MaxCountOfOthers | src/container.cpp:301-341 | for other things it is the number of free slots, and without limit what is asked for |
| Queries.RemoveRefusedIff | src/container.cpp:343-363 | each reason for refusing a removal with its exact condition |
| Queries.DestinationIs | src/container.cpp:365-433 | where an add goes, case by case: the container around, the one at the index, the first stack with space, or here |
| Traversal.VisitsDescendants | src/container.cpp:663-696 | the level order below a container holds exactly what is inside it |
| Traversal.VisitsOnce | src/container.cpp:663-696 | and holds nothing twice |
| Traversal.LevelOrderIsInside | src/container.cpp:168-185 | so its length is the number of descendants |
| Traversal.StepComes | src/container.cpp:678-696 | one `advance` of the queue of containers moves to the next item of the level order |
| Iterators.ContainerIterator.Advance | src/container.cpp:678-696 | the iterator object steps through the level order, and past the end to no item |
| Iterators.GetItemHoldingCount | src/container.cpp:168-175 | the loop ends and counts exactly the descendants |
| Iterators.IsHoldingItem | src/container.cpp:177-185 | true exactly if the item is a descendant |
| GameItems.Game.FindCylinder | src/game.cpp:1061-1074 | the redirection loop, at most sixteen layers, ends where the specification says |
| Moves.PlanIsGood | src/game.cpp:1076-1154 | a move that passes all checks takes at least one piece and no more than there are, never goes into the item itself, and names an index inside the capacity, so the silent drop of `addThing` is never reached |
| Moves.GoesIff | src/game.cpp:1076-1154 | a move goes ahead exactly if the destination accepts the item and has room for some of it, the source has it and lets so much go, and the destination is not inside the item it is traded for |
| Moves.SentOnOnce | src/game.cpp:1061-1074 | a move is sent on at most once, and loses its flags and its index on the way; otherwise it keeps both |
| Moves.MoveAmountIs | src/game.cpp:1119-1131 | a move of a stack that goes ahead takes the smaller of what was asked for and the room at the destination, and returns no error exactly if that is all that was asked for |
| Moves.MoveConserves | src/game.cpp:1058-1227 | no piece of any class of equal items, and no gold, is made or lost by a move |
| Moves.MoveKeepsBounds | src/game.cpp:1058-1227 | stacks stay within 1 and 100 and, without FLAG_NOLIMIT, containers within their capacity |
| Moves.MoveDelivers | src/game.cpp:1156-1211 | the source loses exactly the planned portion, the destination gains exactly that, no other container gains or loses |
| Moves.AskedArrives | src/game.cpp:1119-1216 | so the source loses, and the destination gains, the smaller of what was asked for and the room there, and no error is returned exactly if all of it has moved |
| Moves.LandsAs | src/game.cpp:1166-1192 | at the destination the stack there takes what it has space for, and the rest is a new entry in front of the others |
| Moves.LeavesAs | src/game.cpp:1156-1160 | at the source the stack is smaller by the amount, or the entry is gone |
| Moves.ClonedIs | src/item.cpp:182-189 | a copy has the attributes of the original, or without any those of a new item |
| GameItems.Game.InternalMoveItem | src/game.cpp:1058-1227 | either nothing at all changes and the reason is returned, or the plan is carried out to the letter, with the smaller of what was asked for and the room there, and no error exactly if that is all; totals of every kind stay the same either way |
| Adding.AddOutcome | src/game.cpp:1236-1311 | for every list of stacks: an add is accepted exactly if there is enough room, and loses pieces exactly if partial stacks take some but not all while the container counts as full |
| Adding.SafeWithTwoSlots | src/game.cpp:1236-1311 | with two free slots, or partial stacks for everything, nothing is lost |
| Adding.FillStep | src/game.cpp:1268-1286 | a stack that does not fit fills the first partial stack up, and what is left is added to the result by the same rules |
| Adding.AddToSimple | src/game.cpp:1268-1308 | a stack that nothing can be merged into goes to the front; one that fits is merged into the first partial stack, and nothing else changes |
| Adding.AddToOthers | src/game.cpp:1300-1308 | things that do not stack are accepted exactly if two slots are free, and go to the front |
| Adding.ReportedIff | src/game.cpp:1275-1286 | what `remainderCount` reports is what is lost, or nothing; it is what is lost exactly if nothing is, or if the first stack takes all that stacks can take, so that the first remainder fails |
| Adding.AddCanLose | src/game.cpp:1268-1286 | ten coins into eight slots with one left and a stack of 95: the add succeeds, five pieces are nowhere, and five are reported |
| Adding.ReportCanMiss | src/game.cpp:1275-1286 | twenty coins where two stacks of 95 are: the add succeeds, ten pieces are nowhere, and none is reported |
| Carriers.FindPlaceIff | src/player.cpp:2647-2670 | the search through the containers of a player, level by level, finds one with a free slot that accepts the item exactly if there is one at any depth |
| Carriers.PlaceIff | src/player.cpp:2597-2671 | an item moved to a player without merging has no place exactly if no empty slot takes it and no container that is searched has a free slot for it; otherwise the place is one of these |
| Carriers.BagTakesAll | src/game.cpp:1064-1138 | such a container takes the whole item, although the move may not merge, unless it is inside the partner's offer |
| Carriers.FindMergingIff | src/player.cpp:2647-2701 | the search of an add ends at a container with a stack to merge into, or with a place, exactly if there is one that can be reached without passing the item itself or the one on offer |
| Carriers.TestIff | src/game.cpp:1244-1266 | the test of a stack succeeds if a slot takes it; if the search ends at a container, exactly if that accepts it and the player has room for all of it; and otherwise whether there is room or not |
| Carriers.SlotRoomIs | src/player.cpp:2491-2538 | the room in a slot: a hundred pieces or one thing, what a stack has space for, or what a container and everything inside has |
| Carriers.MoveOutcomeIff | src/game.cpp:1058-1227 | moved to a player, an item arrives whole exactly if it has a place, which is not inside the partner's offer; without a place the move is refused exactly if the stacks and the containers have no room either, and otherwise the pieces that have room there leave and arrive nowhere (src/player.cpp:2435-2457 does not object, src/player.cpp:2722-2726 drops them) |
| Carriers.TestedMoveCanVanish | src/game.cpp:2579-2588 | five coins for a player whose only container is full with a stack of 95: the test of the trade succeeds, the move succeeds, and the coins are nowhere |
| Carriers.TestedMoveCanFail | src/game.cpp:2579-2588 | with a stack of 100 the test succeeds as well, and the move is refused |
| GameItems.Game.InternalAddItem | src/game.cpp:1236-1311 | the recursion ends; entries afterwards are what the list of stacks says, totals grow by the item less what is lost, `remainderCount` is what the list of stacks says is reported, a refusal or a test changes nothing, and a test gives the answer of the add |
| GameItems.Game.InternalRemoveItem | src/game.cpp:1313-1350 | exactly the asked pieces go, or nothing changes and the reason is returned; a test changes nothing |
| Coins.ChangeIsExact | src/game.cpp:1499-1555 | the stacks made of an amount are worth exactly the amount |
| Coins.ChangeIsCoins | src/game.cpp:1499-1555 | each is a stack of 1 to 100 coins of a kind worth no more than the amount |
| Coins.MintIsExact | src/game.cpp:1505-1554 | with the widths of the program, for every amount: what is minted is worth the amount exactly if the worth of the ingots overflows 32 bits ten thousand times as often as the count of crystal coins, and the small coins come through their narrow counts |
| Coins.MintIsExactBelow | src/game.cpp:1505-1554 | below 42949672960000 that is so exactly below 4295000000, where the stacks are those of the digits; otherwise more is minted |
| Coins.MintExactAgain | src/game.cpp:1505-1554 | 42949673000001 is minted exactly |
| Coins.MintLess | src/game.cpp:1505-1554 | of 2^63 only 2092916088517632 are minted |
| Coins.SettleIsSafe | src/game.cpp:1499-1555 | with more free slots than stacks to add, `addMoney` loses nothing |
| Coins.SettleLosesIff | src/game.cpp:1499-1555 | with a container as the cylinder, it loses gold exactly if, when the turn of some stack comes, the container counts as full and its stacks take a part of it but not all |
| Coins.AddMoneyLosesIff | src/game.cpp:1499-1555 | for up to 100999999 gold this is decided by what is in the container at the call: gold is lost exactly if the stacks of some kind take a part of the coins made of it but not all, and the kinds made before that are not taken whole are enough to use up the free slots but for the last one |
| Coins.AddMoneyCanLose | src/game.cpp:1547-1554 | `addMoney` of ten coins into a container of eight slots with one left and a stack of 95 loses five |
| Coins.SettleUnmatched | src/game.cpp:1499-1555 | stacks of different kinds that find no stack to be merged into lose nothing, however little room there is |
| Purse.ChangeIsKept | src/game.cpp:1479-1490 | when the least valuable stack left is worth more than what is still to be paid, the container has no stack any more that the change could be merged into: all of it arrives |
| Coins.BreakStack | src/game.cpp:1484-1490 | the coins taken from a stack cover the amount, and the change is less than one coin of it |
| Census.WorthIs | src/item.cpp:1588-1605 | gold, platinum and crystal coins and ingots are worth 1, 100, 10000 and 1000000, other things nothing |
| Coins.MintedCoinIs | src/game.cpp:1505-1554 | what is made of an amount: so many pieces of the type, with a duration only if the type decays |
| Coins.WorklistDone | src/game.cpp:1458-1473 | the worklist of containers sees everything inside, each item once |
| Money.AddMoney | src/game.cpp:1499-1555 | gold in the world grows by what the minted stacks are worth, less what accepted adds lose; the container's stacks are what adding one minted stack after the other gives; nothing worth more than the amount is touched |
| Money.CountCoins | src/game.cpp:1505-1547 | the arithmetic of the program, for every amount; below 4295000000 it gives the decimal digits of the amount |
| Money.Gather | src/game.cpp:1429-1473 | the coins found are exactly those inside, all of them, ordered by worth, and their worth is all the gold inside |
| Money.BreakCoin | src/game.cpp:1484-1490 | breaking a stack costs exactly the amount |
| Money.GiveChange | src/game.cpp:1488-1488 | the change arrives in full, and the stack to be broken is left alone |
| Money.Pay | src/game.cpp:1479-1495 | stacks are taken until the amount is reached; gold in the world falls by exactly the amount |
| Money.RemoveMoney | src/game.cpp:1419-1497 | fails, changing nothing, exactly if there is less gold inside than asked; otherwise gold in the world falls by exactly the amount, whatever room there is for change |
| SaveItems.SaveItems | src/iologindata.cpp:647-717 | one row per item under the slots, ids 101, 102, ..., each naming a slot or the earlier row of its container, entries in order |
| Rows.SaveDone | src/iologindata.cpp:647-717 | when the worklist is exhausted every item reachable from the slots has exactly one row |
| Rows.SavedIsLoadable | src/iologindata.cpp:647-717 | ids are above 100 and ascend, and a parent's id is below its entries' ids |
| Rows.RowsAre | src/iologindata.cpp:647-717 | rows are numbered from 101 on without gaps and hold what the items are; roots name their slots, other rows the row of their container |
| SaveItems.LoadItems | src/iologindata.cpp:1090-1114 | a new item per row, found by its id |
| Rows.LoadInto | src/iologindata.cpp:460-477 | putting the next row at the front of its container keeps the forest, and keeps every list in the order of the rows |
| SaveItems.PlaceRow | src/iologindata.cpp:461-476 | slot, container, or nowhere: missing parents, parents that are no containers and slots that are taken |
| SaveItems.Rebuild | src/iologindata.cpp:460-477 | the loop over the ids in descending order puts every row in its place and leaves all cached weights right |
| Rows.RebuiltIs | src/iologindata.cpp:460-477 | in the end every row is an item as it describes it, in its slot unless a later row names the same one, in the container with the id it names, or nowhere if there is none |
| Rows.SameTree | src/iologindata.cpp:460-477 | every item, loaded again, has exactly the tree it had |
| Rows.TreeBelow | src/iologindata.cpp:685-715 | every item of a forest has a tree, whatever its depth |
| SaveItems.SaveAndLoad | src/iologindata.cpp:452-717 | saving and loading: the same slots, each with the same tree, children in the same order, weights right |
| Streams.UnLe | src/fileloader.h:96-159 | a number that fits its width comes back from its bytes |
| Streams.StringReads | src/fileloader.h:107-170 | a string comes back, one of more than 65535 bytes as the empty one; exactly its bytes are consumed |
| Streams.PropWriteStream.Write | src/fileloader.h:155-159 | appends the bytes of the number, lowest first |
| Streams.PropWriteStream.WriteString | src/fileloader.h:161-170 | appends length and bytes, or a zero length |
| Streams.PropStream.Read | src/fileloader.h:96-105 | reads a number and moves on, or fails and stays |
| Streams.PropStream.ReadString | src/fileloader.h:107-121 | reads a string, or fails |
| Streams.PropStream.Skip | src/fileloader.h:123-130 | skips, or fails and stays |
| AttrCodec.SerializedReads | src/item.cpp:700-829 | for attributes of any kind: what reading makes of the bytes that writing produces, up to what follows them; it fails if a custom value is blank |
| AttrCodec.LoadsIff | src/item.cpp:681-829 | what has been written can be read exactly if no custom value is blank |
| AttrCodec.CustomsBackIff | src/item.cpp:648-671 | custom attributes read into an item without any are what they were exactly if each of them fits: no blank, no key or string of more than 65535 bytes, keys in lower case |
| AttrCodec.NeverBlank | src/item.h:297-345 | whatever bytes are read, successfully or not, an item without blank values has none afterwards |
| AttrCodec.SurvivesIff | src/item.cpp:376-679 | an attribute that is written comes back as it was exactly if it is storable: within its width, an action id from 100 on, a date of 31 bits, a string of at most 65535 bytes |
| AttrCodec.AllSurviveIff | src/item.cpp:700-829 | read into an item that has none of them, all simple attributes come back, and nothing else changes, exactly if each of them is storable |
| AttrCodec.CountsSurvive | src/item.cpp:700-712 | stack size, fluid and charges come back |
| AttrCodec.ChargesOverwriteCount | src/item.cpp:450-458 | charges on a stack overwrite its size |
| AttrCodec.RoundTrip | src/item.cpp:681-829 | attributes and a zero byte are read back exactly, whatever follows is left unread |
| AttrCodec.BackIsSame | src/item.cpp:700-829 | what comes back is what was there, but that a decaying item is one that is to decay, with the time it has left |
| AttrTags.LeIs4 | src/fileloader.h:96-105 | four bytes are the number in base 256, the lowest digit first |
| AttrTags.FourByteTags | src/item.cpp:512-560 | the tags 27 to 31 set weight, attack, defence, extra defence and armour, the attributes of bits 9 to 13, from four bytes, all but the first with a sign |
| AttrTags.DurationTag | src/item.cpp:460-468 | the tag 16 sets the duration, bit 17, never below zero |
| AttrTags.DateTag | src/item.cpp:420-428 | the tag 18 sets the date, bit 4 |
| AttrTags.OneByteTags | src/item.cpp:470-600 | the tags 32, 33 and 37 set hit chance, range and the open flag, bits 14, 15 and 25; the tag 17 makes an item one that is to decay, bit 18, unless its byte is 0 |
| AttrTags.IdTags | src/item.cpp:390-408 | the tag 4 sets the action id, bit 0, to 100 at least; the tag 5 the unique id, bit 1, of an item that has none |
| AttrTags.StringTags | src/item.cpp:410-590 | the tags 6, 7, 19, 24, 25 and 26 set text, description, writer, name, article and plural name, bits 3, 2, 5, 6, 7 and 8, unless the string is empty; the string of the tag 35 is read and dropped |
| AttrTags.CountTags | src/item.cpp:362-458 | the tags 15 and 12, with one byte, and 22, with two, set the fluid, the size of a stack, or the charges |
| AttrTags.ContentsTag | src/item.cpp:646-648 | the tag 23 announces the entries of a container with their number in four bytes, and is an error for anything else |
| AttrTags.SkippedTags | src/item.cpp:602-643 | the tags 10, 14, 20, 21 and 8 skip two, one, four, four and five bytes |
| AttrTags.OtherTags | src/item.cpp:672-679 | every other tag is an error |
| AttrTags.ShortFails | src/item.cpp:376-600 | too few bytes for a number or for the length of a string are an error |
| AttrTags.CustomTag | src/item.cpp:650-671 | the tag 34 announces custom attributes with their number in eight bytes |
| AttrTags.CustomKinds | src/item.h:297-345 | a key and the bytes 1 or 4 store a string or a truth value under the key in lower case |
| AttrTags.CustomNumbers | src/item.h:297-345 | the bytes 2 and 3 a whole number with a sign, or the bits of a number with a point |
| AttrTags.OtherKinds | src/item.h:338-343 | any other kind of value is an error |
| AttrTags.FourBytesWritten | src/item.cpp:772-795 | weight, attack, defence, extra defence and armour are written under the tags 27 to 31 with their four lowest bytes, if they are there |
| AttrTags.OneByteWritten | src/item.cpp:797-815 | hit chance, range and the open flag under the tags 32, 33 and 37 with the lowest byte |
| AttrTags.StringsWritten | src/item.cpp:722-810 | the seven kinds of strings under the tags 6, 7, 19, 24, 25, 26 and 35, as the empty one if they are too long |
| AttrTags.ActionWritten | src/item.cpp:714-720 | the action id of what can be moved, under the tag 4; unique ids are not written |
| AttrTags.DateWritten | src/item.cpp:728-732 | the date under the tag 18, unless it is zero |
| AttrTags.LeftIs | src/item.h:770-777 | what is left of the time of an item that decays is what is missing to its time stamp; of others, the duration |
| AttrTags.DurationWritten | src/item.cpp:746-749 | what is left of the time, under the tag 16 |
| AttrTags.DecayWritten | src/item.cpp:751-755 | the state of decay under the tag 17, if the item decays or is to decay |
| AttrTags.CountWritten | src/item.cpp:702-706 | the fluid or the size of a stack under the tag 15 |
| AttrTags.ChargesWritten | src/item.cpp:708-712 | charges under the tag 22, if there are any |
| AttrTags.OrderWritten | src/item.cpp:700-829 | the order in which all of these are written |
| AttrTags.CustomsWritten | src/item.cpp:816-829 | custom attributes under the tag 34 with their number in eight bytes, if there are any |
| AttrTags.EntryWritten | src/item.h:286-295 | each as its key, the byte for its kind and its value: strings and truth values |
| AttrTags.NumberEntryWritten | src/item.h:286-295 | and numbers, with eight bytes |
| AttrTags.AttackIs | src/item.cpp:522-530 | an attack of 40 is the bytes 28, 40, 0, 0, 0, which give back an attack of 40 |
| AttrStreams.SerializeAttr | src/item.cpp:700-829 | appends exactly the specified bytes |
| AttrStreams.ReadAttr | src/item.cpp:376-679 | reads one attribute as specified, errors and containers included |
| AttrStreams.UnserializeAttr | src/item.cpp:681-693 | the loop over tags ends and does what the specification says |
| ItemStream.ItemBack | src/iomapserialize.cpp:116-235 | `loadItem` on the bytes of `saveItem`, whatever follows: the same tree in the same order, and exactly what follows is left |
| ItemStream.SameAgainIff | src/iomapserialize.cpp:116-235 | what is loaded is the item that was saved, with all that is in it, up to its state of decay, exactly if every attribute is one that is saved or no different in a new item |
| ItemStream.AlikeIff | src/item.cpp:681-829 | the same for the attributes of one item |
| ItemStream.KidsBack | src/iomapserialize.cpp:116-235 | written from the last to the first and each put to the front, entries are in their old order |
| ItemStream.BackKidsAt | src/iomapserialize.cpp:229-231 | each entry is where it was |
| ItemStream.NewIs | src/item.cpp:150-172 | a new item: one piece, an empty fluid container, the charges and the duration of the type |
| ItemStream.PlainItemBytes | src/iomapserialize.cpp:217-235 | an item is its id in two bytes, its attributes and a zero |
| ItemStream.ContainerBytes | src/iomapserialize.cpp:222-232 | a container has the tag 23, the number of its entries in four bytes and the entries in front of the zero |
| AttrStreams.SaveItem | src/iomapserialize.cpp:217-235 | appends exactly the specified bytes |
| AttrStreams.LoadItem | src/iomapserialize.cpp:134-165 | the recursion ends and reads as specified, failures included |
| AttrStreams.LoadContainer | src/iomapserialize.cpp:116-132 | as many items as were counted, each to the front, and a zero byte |
| Otb.FileParses | src/fileloader.cpp:53-105 | every well-bracketed file is parsed to the tree it describes |
| Otb.FileSound | src/fileloader.cpp:53-105 | every accepted file is well bracketed outside escapes, and the tree is the one it describes |
| Otb.AcceptsIff | src/fileloader.cpp:30-105 | the loader accepts a file exactly if its identifier fits, it is well bracketed, and it has more than seven bytes |
| Otb.TreeReads | src/fileloader.cpp:107-124 | types, unescaped properties and children of every node |
| Otb.EncodedParses | src/fileloader.cpp:53-124 | encoding and loading a tree gives the tree, for every tree but a single node without properties, which is refused |
| Otb.SmallestFile | src/fileloader.cpp:53-105 | the bytes of the smallest file there is, with 254 and 255 as brackets, and the tree they give |
| Otb.EscapedByte | src/fileloader.cpp:107-124 | a byte behind 253 stands for itself, brackets included |
| Otb.ParseTree | src/fileloader.cpp:53-105 | the loop with its stack computes the specified parse |
| Otb.GetProps | src/fileloader.cpp:107-124 | the copying loop unescapes; no properties are a failure |
| WalkCache.Creature.UpdateMapCache | src/creature.cpp:302-316 | all cells say what the ground says |
| WalkCache.Creature.StepRows | src/creature.cpp:503-525 | rows are shifted in place and the new one is asked |
| WalkCache.Creature.StepColumns | src/creature.cpp:527-573 | columns likewise, but for the first row of a diagonal step |
| WalkCache.Creature.OnCreatureMove | src/creature.cpp:497-577 | the cache is right after every step but a diagonal one to the south, and after a teleport whatever it was before; after a diagonal step to the south exactly if the ground is even along two edges |
| WalkCache.StepIsRight | src/creature.cpp:501-576 | the same about the cells before and after |
| WalkCache.SouthEastGoesWrong | src/creature.cpp:514-549 | a right cache, a step to the south-east beside a wall, and a cell that is wrong afterwards |
| WalkCache.Creature.GetWalkCache | src/creature.cpp:335-364 | the answer is the cell, one for the own tile, two out of range |
| Areas.CopyArea | src/combat.cpp:1166-1246 | for every operation: an offset from the centre is covered by the output exactly if the one it comes from is covered by the input; every cell written is inside |
| Areas.Rotate | src/combat.cpp:1197-1245 | rotations never write out of bounds, never collide, and turn exactly the covered offsets |
| Areas.CoversTurned | src/combat.cpp:1228-1242 | the output covers the turned offsets, all of them and no others |
| Areas.TurnsCompose | src/combat.cpp:1221-1237 | quarter turns compose and undo each other |
| Areas.ReflectsIff | src/combat.cpp:1179-1196 | mirrored and flipped areas cover the reflected offsets exactly if the matrix is a square or covers nothing |
| Areas.RowMirrorsWrong | src/combat.cpp:1179-1187 | a row of three with its centre on the left, mirrored, covers the tile in the east as before, and not the one in the west |
| Areas.CreateArea | src/combat.cpp:1248-1279 | cells are those of the list, row by row; the centre is the cell of the last 2 or 3, and the first cell if there is none; so an offset is covered exactly if the list has a 1 or a 3 so far from there |
| Areas.AreaCombat.SetupArea | src/combat.cpp:1281-1304 | the areas for the four directions are the area of the list, around its marked centre, and its images under the rotations |
| Areas.AreaCombat.SetupExtArea | src/combat.cpp:1376-1404 | the diagonal areas are the area of the list, around its marked centre, and its reflections; an empty list changes nothing |
| Areas.FourAreGiven | src/combat.cpp:1281-1304 | the four areas in terms of the list: north covers an offset exactly if there is a 1 or a 3 so far from the last 2 or 3, and what is in front of the caster there is in front in the other directions |
| Areas.CornersAreGiven | src/combat.cpp:1376-1404 | the same for the four diagonal areas, as the program displaces them |
| Areas.CrossIs | src/combat.cpp:1248-1279 | the list of a cross with a 3 in the middle covers the tile of the caster and its four neighbours |
| Areas.SouthEastIs | src/combat.cpp:1395-1403 | for a square matrix south-east is north-west turned by half a turn; for others it is displaced |
| Areas.GetList | src/combat.cpp:1135-1164 | exactly the covered tiles in sight around the target, each once, row by row |
| Decaying.OverEveryRun | src/decay.cpp:29-123 | over every run: an item is in a bucket exactly if that is its time stamp, once, with one reference held exactly then; no bucket is empty; a check is pending no later than the first bucket is due or fifty milliseconds after it was asked for |
| Decaying.AppliedKeeps | src/decay.cpp:29-87 | starting, stopping and changing the type of an item keep all of this, also during a check and for items that wait to be processed, unless a waiting item is put into a bucket or the bucket the loop holds is erased |
| Decaying.CheckedKeeps | src/decay.cpp:89-123 | a check keeps it, whatever operations but those two the decaying items set off |
| Decaying.IndexKeptIff | src/decay.cpp:108-118 | during a check an operation keeps the index exactly if it does not put a waiting item into a bucket |
| Decaying.RelistedGoesWrong | src/decay.cpp:108-118 | an item that waits is given another type and started: it ends up in a bucket without a time stamp, and whenever it is stopped, the check of that bucket processes it all the same |
| Decaying.StopMissesEntry | src/game.cpp:4452-4462 | stopping an item without time stamp touches neither its bucket nor its reference; the next check that is late enough takes the item |
| Decaying.LateCheckReleases | src/decay.cpp:89-118 | that check gives the reference back |
| Decaying.DueTakenIs | src/decay.cpp:96-106 | a check processes exactly the items whose time has come |
| Decaying.ProcessedKeeps | src/decay.cpp:108-118 | while items wait to be processed the others stay indexed and every reference is given back once |
| Decaying.StateCanLag | src/item.cpp:250-264 | the decay state alone does not tell: an item can be in a bucket in another state |
| Decaying.StopLeaves | src/decay.cpp:51-87 | a listed item that decays or is being stopped has left what was missing to its time stamp when it is stopped, and nothing if that had passed; without a duration it has none; it loses state and time stamp, is in no bucket any more and gives one reference back |
| Decaying.StopMovesLast | src/decay.cpp:71-84 | in its bucket the last entry takes its place, and a bucket it was alone in is gone |
| Decaying.StopUnlisted | src/game.cpp:4452-4462 | an item that is not listed only loses its state |
| Decaying.StartEnters | src/decay.cpp:29-49 | an item that may decay goes to the end of the bucket of the time its duration is over, which stays as it is, and one reference is held for it |
| Decaying.StartOtherwise | src/game.cpp:4428-4450 | when an item that is started is stopped instead, and when nothing happens |
| Decaying.StartThenStop | src/decay.cpp:29-87 | started and stopped later, an item has left its duration less the time between, and nothing if that is more |
| Decaying.CheckLeaves | src/decay.cpp:108-118 | an item a check takes that cannot decay any more has left what was missing to its time stamp; one that can keeps its duration; neither decays any more |
| Decaying.StartAsks | src/decay.cpp:35-43 | a new check is asked for exactly if the item is due before all others, after its duration but fifty milliseconds at least, and replaces the one asked for before |
| Decaying.CheckAsks | src/decay.cpp:120-122 | a check that leaves buckets asks for the next when the first of them is due, in fifty milliseconds at least |
| Decaying.DueInOrder | src/decay.cpp:96-106 | the items that are due are taken in the order of their times |
| Decaying.OneProcessed | src/decay.cpp:108-118 | an item that is due decays with what it sets off, if it can, and its reference is given back |
| Decaying.AllAppliedConcat | src/decay.cpp:113-114 | what decay sets off happens one after the other |
| DecayScheduler.Decay.StartDecay | src/decay.cpp:29-49 | computes the new state |
| DecayScheduler.Decay.StopDecay | src/decay.cpp:51-87 | the search with swap and pop computes the new state |
| DecayScheduler.Decay.CheckDecay | src/decay.cpp:89-123 | its loops compute the new state and keep the invariant |
| DecayScheduler.Decay.GameStartDecay | src/game.cpp:4428-4450 | which items start, stop or stay, keeping the invariant |
| DecayScheduler.Decay.GameStopDecay | src/game.cpp:4452-4462 | time stamp and bucket go together, keeping the invariant |
| Trading.OverEveryRun | src/game.cpp:2497-2772 | over every interleaving: partners are mutual, idle players have neither partner nor item, the list holds exactly the items on offer outside of a transfer, with one reference each |
| Trading.ItemsMoveFairly | src/game.cpp:2530-2621 | items move only from a player to the partner, each having an item on the table, and each having accepted and been in the trade ever since |
| Trading.AgreedToPairIff | src/game.cpp:2537-2553 | as long as a player who has accepted is in the trade, both items on the table are those the player agreed to exactly if the partner's was there at that time |
| Trading.AcceptedUnseen | src/game.cpp:2537-2553 | a player accepts before the partner has made an offer, and the items are exchanged |
| Trading.StartedKeepsIff | src/game.cpp:2497-2528 | an accepted offer keeps the books exactly if the item was not on offer already |
| Trading.ClosedKeeps | src/game.cpp:2720-2762 | closing keeps the books right |
| Trading.ClosedIs | src/game.cpp:2720-2762 | outside of a transfer, closing leaves the player and the partner without state, partner and item, takes both items off the list with no reference held for them, and changes nothing else; during a transfer nothing happens |
| Trading.StartedIs | src/game.cpp:2497-2528 | exactly when an offer is accepted, and what it does to the two players, the list and the references; everything else is as before |
| Trading.AgreedIs | src/game.cpp:2530-2575 | an acceptance marks the player; as the second one it closes the trade if the script objects, and otherwise puts both into the transfer with their items off the list; everything else is as before |
| Trading.FinishedIs | src/game.cpp:2577-2620 | after a transfer both are idle, and which items have changed hands for which answers |
| Trading.TransferKeeps | src/game.cpp:2562-2575 | entering a transfer takes both offers off the list, each reference given back once |
| Trading.TradeDesk.InternalStartTrade | src/game.cpp:2497-2528 | computes the new state, keeping the invariant |
| Trading.TradeDesk.PlayerAcceptTrade | src/game.cpp:2530-2575 | computes the new state up to the transfer, keeping the invariant |
| Trading.TradeDesk.FinishTrade | src/game.cpp:2577-2620 | computes the outcome from what the item engine answers and ends the trade, keeping the invariant |
| Trading.TradeDesk.InternalCloseTrade | src/game.cpp:2720-2762 | computes the new state, keeping the invariant; outside of a transfer the player is idle and what was on the table is off the list |
| TaskQueue.FirstInFirstOut | src/databasetasks.cpp:34-105 | under every interleaving tasks leave the queue in the order in which they were accepted, exactly once; while the worker waits with tasks in the queue a notification is on its way |
| TaskQueue.NothingAfterTheEnd | src/databasetasks.cpp:54-105 | nothing is accepted after the end, and the queue is empty for good once shutdown's flush is over |
| TaskQueue.StopRefuses | src/thread_holder_base.h:37-39 | after `stop` nothing more is accepted, but the queue stays and the worker goes on |
| TaskQueue.LastNotifyDecides | src/databasetasks.cpp:34-52 | at shutdown's notification the worker is sure to end exactly if it is not just between looking at the state and taking the lock; if it is, it is lost exactly if no other notification is still to be sent |
| TaskQueue.OvertakenCanMiss | src/databasetasks.cpp:34-67 | notifications still to be sent can all come too early, and the worker is lost |
| TaskQueue.OvertakenCanEnd | src/databasetasks.cpp:34-67 | or one of them comes in time, and the worker ends |
| TaskQueue.ShutdownCanBeMissed | src/databasetasks.cpp:98-105 | a run in which the worker misses shutdown and waits for ever, wake-ups that nobody asked for apart |
| TaskQueue.EndingEnds | src/databasetasks.cpp:34-52 | otherwise the worker always has a step towards its end |
| TaskQueue.EndingForEver | src/databasetasks.cpp:34-52 | a worker that is sure to end stays so, whatever else happens |
| TaskQueue.DatabaseTasks.Add | src/databasetasks.cpp:54-67 | accepts only while running, and asks for a notification exactly if the queue was empty; it is the step of the interleavings |
| TaskQueue.DatabaseTasks.TakeFirst | src/databasetasks.cpp:38-50 | takes the next task in the order of acceptance |
| TaskQueue.DatabaseTasks.Flush | src/databasetasks.cpp:86-96 | empties the queue in order |
| TaskQueue.DatabaseTasks.ShutDown | src/databasetasks.cpp:98-105 | with nobody interfering, all that was ever accepted has left in the order of acceptance, and nothing is accepted any more |
| Base32.DecodeEncoded | src/iologindata.cpp:56-83 | decoding undoes the unpadded encoding of section 6 of RFC 4648, for every byte string |
| Base32.AlphabetIs | src/iologindata.cpp:62-76 | the digits are those of the table in section 6 of RFC 4648, and no other character is one |
| Base32.TwoDigits | src/iologindata.cpp:62-80 | two digits give the byte of their upper eight bits |
| Base32.DecodeSecret | src/iologindata.cpp:56-83 | the loop with its 32-bit buffer regroups the bits; a character outside the alphabet gives the empty string |
| Base32.Shifted | src/iologindata.cpp:62-80 | the bits that fall out of the buffer are none of those still needed |

## Left out

- Players and tiles as holders of items, but for what `Carriers` says of moves to a player: an item in a
  slot, on a tile or in a depot has the parent `Outside`; what a carrier answers about weight is the
  parameter `carrier`, and for `internalAddItem` every weight is accepted.
- GameItems.Game.InternalAddItem: an index other than "wherever", the reward container and FLAG_NOLIMIT.
- GameItems.Game.InternalMoveItem: destinations that are players or tiles, and the exchange of two items,
  which only a player's slots ask for.
- GameItems.Game.InternalRemoveItem: items whose holder is a player or a tile.
- Decay started and stopped by moves and adds: decay and corpse attributes do not count when items are
  compared for conservation.
- Containers.Item.UpdateThing: charges and fluids, which `setSubType` would set; in the item engine a stack is
  a type, a count and its attributes.
- The contents of custom attributes in the item engine, where only their presence matters; the byte
  codec has them in full.
- The original item that was merged completely or in part, which the program may leak: only what is in
  the world is counted.
- Money.AddMoney: amounts of which a platinum or gold stack of no coins or of more than a hundred is made, all
  of them from 4295000000 on; what they are worth is in `Coins.MintedWorth`, but the item engine is modelled
  for stacks of one to a hundred.
- Money.RemoveMoney: the quotient rounded up is computed with integers, where the program uses a double.
- Money.RemoveMoney: items with the ids of coins are assumed to be stackable, as they are in the item table.
- The overflow tile of `addMoney` and `removeMoney` takes everything, with the parent `Outside`.
- Running ids and sums of gold are unbounded; the program's are 32 and 64 bits wide.
- `resetAutoOpen` and `setAutoOpen` during a save, and SQL, escaping and the order of the query.
- SaveItems.LoadItems: rows whose item cannot be created, and rows whose ids do not ascend.
- SaveItems.Rebuild: rows that name themselves or a later row as their container, which no save writes
  (`Rows.SavedIsLoadable`); by `ItemTree.AddKeepsForestIff` the program then builds containers inside themselves.
- SaveItems.PlaceRow: the same.
- SaveItems.SaveAndLoad: attributes are values in a row; that their bytes are read back is `AttrCodec.RoundTrip`.
- The depot, inbox and store lists, which use the same rows with other slot numbers.
- Reading a unique id always succeeds if the item has none; the table of unique ids is not modelled.
- An empty table of custom attributes is not written; the program writes its size, zero.
- Custom doubles are their 64 bits; items in `ItemStream` are values, not objects.
- AttrStreams.LoadItem: stationary items on a tile, ids of no item, beds, doors, depots and teleports, and the
  remapping of old ids.
- Nodes in `Otb` are attached to their parent when they end, not when they start; on an error all is
  discarded in either case.
- Areas.CreateArea: lists whose length is not a multiple of the number of rows, which tables with rows of
  different lengths lead to; covered entries behind the last full row are then written outside of the matrix.
- Areas.AreaCombat.SetupArea: the same lists.
- Areas.AreaCombat.SetupExtArea: the same lists.
- `setupArea` for lengths and radii, which only make the lists; negative centres stand for what the
  program's unsigned ones wrap around to.
- Steps of other creatures in `onCreatureMove`, which ask again about the tiles they leave and enter.
- Creating missing tiles in `getList`; the map is the parameter `sight`, and walkability is a parameter too.
- Decaying.CheckedKeeps: operations set off by a decaying item that put an item into a bucket which waits in the
  same check, or that erase the bucket the loop holds, are left out of the script.
- Decaying.Started: an item without duration decays at once; what that does are further operations.
- Timer events are a map of due times; the clock is a parameter, and durations do not overflow.
- Trading.TradeDesk.FinishTrade: what the item engine answers during a transfer is a parameter; `Carriers` says
  what it answers for the first of the two moves.
- Carriers.MoveOutcomeIff: what slots and weights allow are the parameters `takes` and `carries`, and containers have
  fewer than 254 entries, numbers from which on an index means something else; what a slot does with the
  item it takes is not modelled.
- Trading: messages, distances and the checks of a request but that the item is not on offer.
- TaskQueue: running a task and its callback; the thread is started once, and `stop` does not follow `shutdown`.
- Scripts, client notifications, weights of carriers, house and guild data.
