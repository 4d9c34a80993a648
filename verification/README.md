# Verification of the prefix index

taboo keeps items under string keys and answers prefix queries.  This project models its two layers
and proves what they are for.

**The double-array trie** (`libs/cedar/cedar.h`, configured as `src/Trie.hpp` compiles it: fast load, unordered
children, `MAX_TRIAL` 1, no reduced trie, no node tracking).  `DoubleArrays.DoubleArray` has the fields of `da` and its
operations step by step, in place.  Three abstractions are kept beside the fields:

- `rings`: per block, the cycle of empty slots threaded through negated `base_` and `check`;
- `lists`: the circular lists of full, closed and open blocks, from their heads on;
- `layout`: which tree place every used slot holds, and the child chain of every inner place.  A place is the
  path of labels from the root; the place of a stored value is the path of its key followed by label 0;
- `dict`: the finite map from keys to values that the array stands for.

`AllocOk` ties the allocator's fields to `rings` and `lists`; `Valid` adds that the used slots spell out `layout`
(`TreeOk`), that its terminals hold exactly `dict` (`Represents`) and that every place but the root leads to a key
(`Fruitful`).  Each operation is proved against these: `Update` and `Erase` by the map they leave, lookups and walks by
the map they find.  A collision moves a family of siblings one child at a time; `Relocation.Midway` is the invariant
between two such moves, and the theorems show that no stored value is lost whichever family moves, even when the moved
child is the node the insertion stands on.

**The index** (`src/Trie.hpp`, `Farm.hpp`, `Keeper.hpp`, `Filter.hpp`, `Seeker.hpp`).  Keys have ids in the trie, ids have funnels
of item ids, ids have items.  `Keepers.Keeper` keeps a relation `pairs` between keys and item ids, and a map `firsts` from ids to
the first items attached with them; the index equals them after every run of attaches.  A search is proved to return items with different ids that pass the filters and are attached
under a key extending the prefix, and exactly as many as the bounds allow.

Files: `Slots` (bytes and the xor arithmetic), `Cells` (records), `Rings`, `Lists`, `Allocator`, `Layout` (the tree in the
array), `Relocation` (moving families), `Growth` (following and adding edges), `Dictionary`, `Enumeration`, `Lookups`,
`Walking`, `Pruning` and `Erasure` (removing keys), `DoubleArray` (the class); `Items`, `Indexes`, `Farms`, `Tries`, `Keepers`,
`Conditions`, `Filters`, `Collecting`, `Searching`, `Seekers`.

## What the proofs brought to light

- Erasing is not always safe.  When all 255 possible first bytes are in use, block 0 has no empty slot and its `ehead`
  is stale; freeing a slot of block 0 then writes through it and makes the root's base negative (`cedar.h:550-553`), after
  which lookups leave the array.  `Erase` keeps the array valid if and only if `Erasable` holds: the key is absent, or some
  byte starts no key, or another key starts with the same byte.  `EraseFromFullRoot` reaches the failure from an empty
  trie with 255 one-byte keys.
- `update` keeps the smaller of the old and the new value; it does not overwrite.
- Attaching without upsert can report failure although it attached.  It reports success exactly when some key was new,
  the item was new under the last key and the last key does not occur earlier in the list (`Keepers.Keeper.Attach`,
  `Indexes.LastGainsWhen`).  The commonest cause of an unreported attach is that no key is new: a second item under a
  known key (`Indexes.UnreportedUnderKnownKey`).  Otherwise only the last key counts
  (`Indexes.UnreportedUnderRepeatedKey`).
- A filter chain rebuilt for a condition object keeps its old head, or all of it if no member is accepted.  It accepts an
  item exactly if the condition holds and the tests it kept accept the item too (`Conditions.ReusedChain`), so a reused
  pair of chains decides as the query asks exactly if the tests left over do no harm (`Conditions.ReusedPairSelects`);
  `Conditions.StaleHead` is an item on which it does not.  No caller meets this: every request is given a new predicter
  and with it a new chain (`src/Router.cpp:65-69`, `src/BaseHandler.hpp:219-228`).
- A zero byte is label 0, the edge to a value.  A lookup goes astray only behind a stored key: it moves on to the slot
  of the value and reads a slot the value determines, inside the array exactly if the value is
  (`Lookups.BehindTerminal`).  Updating with any non-empty, zero-free text that is not stored, followed by a zero byte,
  makes the value the base of the root (`DoubleArrays.DoubleArray.UpdateBehindZero`).  `src/manager/AttachHandler.hpp:83`
  takes keys at their full length, so a zero byte in a JSON key gets there.
- A search whose prefix is itself a key visits that key's funnel twice, and both visits count against the iteration
  bound (`Searching.VisitCount`).

Assumptions: keys to be stored are not empty (the code ends the process on an empty one), contain no zero byte (the code
does not check) and get values in 1..0x7ffffffc, below the two marks.  Texts to be looked up or erased are only assumed
`Readable`: a zero byte in them does not come right after a stored key.

## Model

| member | source | states |
|---|---|---|
| Slots.XorCancels | libs/cedar/cedar.h:412 | xor with a label undoes itself, so parent base and child slot determine each other |
| Slots.XorBlock | libs/cedar/cedar.h:518-519 | xor acts on the block number and the place in the block separately, for all naturals |
| Slots.LabelOfChild | libs/cedar/cedar.h:142-150 | the label recovered from a base and a child's slot is the one that led there |
| Slots.ChildInjective | libs/cedar/cedar.h:412 | different labels lead from one base to different slots |
| Rings.PopKeepsRing | libs/cedar/cedar.h:524-530 | pointing the neighbours of an empty slot past it and filling it leaves one doubly linked cycle through exactly the remaining empty slots of the block |
| Rings.PushKeepsRing | libs/cedar/cedar.h:549-557 | linking a slot behind the head gives one cycle through exactly the old empty slots and that slot |
| Rings.PushFirstKeepsRing | libs/cedar/cedar.h:545-547 | a slot linked to itself is the ring of a block that was full |
| Rings.RotatedKeepsRing | libs/cedar/cedar.h:606-607 | moving `ehead` along the ring keeps the ring |
| Rings.RunIsRing | libs/cedar/cedar.h:399-402 | consecutive slots initialised with their neighbours form a ring of the block |
| Rings.RingSize | libs/cedar/cedar.h:60-68 | a block has at most 256 empty slots, block 0 at most 255 |
| Lists.UnlinkedIsCircular | libs/cedar/cedar.h:470-479 | taking any block out of a circular list leaves a circular list of the others in order |
| Lists.FrontedIsCircular | libs/cedar/cedar.h:480-490 | linking a block before the head gives a circular list with it in front |
| Allocator.FiledOnce | libs/cedar/cedar.h:512-560 | every block is in exactly the list its counters call for, block 0 always in the full one; a head is 0 exactly when its list is empty |
| Allocator.MovedIsFiled | libs/cedar/cedar.h:512-515 | after a transfer every block is in one list, and the moved one in its new list |
| Allocator.AfterPop | libs/cedar/cedar.h:520-530 | taking an empty slot keeps all rings and counters, frees nothing else and keeps the contents of all slots in use |
| Allocator.AfterPush | libs/cedar/cedar.h:542-560 | emptying a slot keeps all rings and counters, and exactly that slot becomes empty |
| Allocator.CountedDown | libs/cedar/cedar.h:522-530 | a block that loses a slot is due to move exactly from Closed to Full or from Open to Closed, or stays |
| Allocator.CountedUp | libs/cedar/cedar.h:545-556 | a block that gains a slot is due to move exactly from Full to Closed or from Closed to Open, or stays |
| Allocator.NewBlockFits | libs/cedar/cedar.h:617 | every family of labels fits a new block from its first slot on |
| DoubleArrays.DoubleArray.constructor | libs/cedar/cedar.h:391-405 | a new double array is valid and stores nothing |
| DoubleArrays.DoubleArray.PopBlock | libs/cedar/cedar.h:470-479 | the list without the block, and its new head |
| DoubleArrays.DoubleArray.PushBlock | libs/cedar/cedar.h:480-490 | the list with the block in front, and its new head |
| DoubleArrays.DoubleArray.TransferBlock | libs/cedar/cedar.h:511-515 | the block leaves one list and heads another, the third is untouched, both heads follow |
| DoubleArrays.DoubleArray.AddBlock | libs/cedar/cedar.h:491-510 | a ring of 256 empty slots is appended, starting at its first slot, and the block is filed at the head of the open list; all old slots and links survive |
| DoubleArrays.DoubleArray.PopENode | libs/cedar/cedar.h:516-541 | takes exactly one empty slot: the one the base determines if there is a base, else the one `FindPlace` names, which then fixes the parent's base; the array grows only in its last case; the allocator's invariant holds again |
| DoubleArrays.DoubleArray.PushENode | libs/cedar/cedar.h:541-560 | empties exactly one slot and resets its links, raises the block's reject bound to the recorded one, the allocator's invariant holds again; if block 0 is full it overwrites the root's base instead |
| DoubleArrays.DoubleArray.FindPlace | libs/cedar/cedar.h:591-595 | the slot that heads the ring of the first closed block, or else of the first open block; only when there is neither does the array grow, and then it is the first slot of the new block; empty and outside block 0 in every case |
| DoubleArrays.DoubleArray.Scan | libs/cedar/cedar.h:602-608 | goes round the ring of a block once: finds an empty slot where the whole family fits, or shows that none of the block's empty slots will do |
| DoubleArrays.DoubleArray.Explore | libs/cedar/cedar.h:602-608 | the first slot on the ring where the family fits becomes the head of the ring, or nothing changes and none fits |
| DoubleArrays.DoubleArray.TryBlock | libs/cedar/cedar.h:602-608 | a place in the block, or nothing changed and the block is too small, given up on smaller families, or without a fitting slot |
| DoubleArrays.DoubleArray.SearchOpen | libs/cedar/cedar.h:596-616 | the open list splits into the blocks tried, each once, in order and in vain, and the rest, whose head offers the place found; without one nothing is left |
| DoubleArrays.DoubleArray.GiveUp | libs/cedar/cedar.h:609-614 | the head of the open list is closed, its reject bound set and the one recorded for its count lowered; the next block heads the list |
| DoubleArrays.DoubleArray.FindPlaceForFamily | libs/cedar/cedar.h:596-618 | a slot outside block 0 such that the base it determines puts every label on an empty slot; a new block is added only if every open block was skipped or scanned in vain |
| DoubleArrays.DoubleArray.PlaceFamily | libs/cedar/cedar.h:633-634 | the base that puts a single label where `FindPlace` says, and several where `FindPlaceForFamily` says; every label finds an empty slot |
| DoubleArrays.DoubleArray.Consult | libs/cedar/cedar.h:574-579 | true exactly if the second family has more children than the first |
| DoubleArrays.DoubleArray.SetChild | libs/cedar/cedar.h:580-589 | the labels of a family in chain order, the newcomer behind the terminal and before the rest |
| Layouts.SiblingPushed | libs/cedar/cedar.h:561-567 | linking a child writes exactly the links that put its label behind the terminal of the chain, or at its head, and no link of any other chain |
| DoubleArrays.DoubleArray.PopSibling | libs/cedar/cedar.h:568-573 | the chain links after one label is cut out of a chain |
| Layouts.GraftedTree | libs/cedar/cedar.h:412-415 | adding a leaf keeps the tree, whatever the chain of its parent |
| Layouts.GraftedParent | libs/cedar/cedar.h:561-567 | the chain of the parent lists exactly the old children and the new one, terminal first |
| Layouts.RenamedTree | libs/cedar/cedar.h:645-661 | moving the cell of a child and telling its own children keeps the tree |
| Relocation.ChildSlots | libs/cedar/cedar.h:562-573 | for every inner place, the root included, the slots whose `check` is its slot are exactly those its child chain lists |
| Relocation.Conflict | libs/cedar/cedar.h:622-626 | a contested slot is a child of another inner place; neither place is the root |
| Relocation.ChildMoved | libs/cedar/cedar.h:642-672 | moving the next child keeps the invariant of the relocation, all places and all values |
| Relocation.ContestedTaken | libs/cedar/cedar.h:662-670 | the new edge takes over the slot the moved family has just left; the invariant holds and exactly that edge is new |
| Relocation.NewcomerAdded | libs/cedar/cedar.h:642-645 | the new edge joins the family that moves; the invariant holds and exactly that edge is new |
| Relocation.SlotFreed | libs/cedar/cedar.h:671-672 | emptying the slot that was left keeps the invariant |
| Relocation.MoveFinished | libs/cedar/cedar.h:679-680 | after the last label the whole array holds the tree again |
| DoubleArrays.DoubleArray.MoveCell | libs/cedar/cedar.h:642-661 | one child moves: its cell, its children's `check` and nothing else |
| DoubleArrays.DoubleArray.Resolve | libs/cedar/cedar.h:619-681 | keeps every value under its key, adds exactly one edge, returns its slot, and reports where the node the caller stands on is now; the family of the other parent moves unless it is the larger one, to the base `PlaceFamily` chooses for it, and no other place moves |
| DoubleArrays.DoubleArray.NewEdge | libs/cedar/cedar.h:412-415 | adds the edge on the slot below the base, or, for a first child, on the slot `FindPlace` names, which fixes the base |
| Growth.EdgeCases | libs/cedar/cedar.h:409-418 | what base and `check` say about an edge: it exists exactly if `check` is the parent |
| DoubleArrays.DoubleArray.Follow | libs/cedar/cedar.h:407-419 | an existing edge changes nothing; a missing one is added and everything else is carried over |
| DoubleArrays.DoubleArray.Update | libs/cedar/cedar.h:166-191 | the map with the key bound to the value if it was absent and to the smaller of the two values otherwise; valid again |
| DoubleArrays.DoubleArray.Build | libs/cedar/cedar.h:219-223 | the map after the whole run of updates; valid again |
| Dictionary.RunKeepsLeast | libs/cedar/cedar.h:187-190 | a run of updates leaves under every key the least of the values supplied for it, and stores no other key |
| Lookups.LookupAfterUpdate | libs/cedar/cedar.h:166-191 | every other text looks up as before, except that prefixes of the new key that led nowhere now lead somewhere |
| Lookups.LookupAfterErase | libs/cedar/cedar.h:194-218 | every other text looks up as before, except that prefixes no other key extends lead nowhere any more |
| DoubleArrays.DoubleArray.UpdateBehindZero | libs/cedar/cedar.h:166-191 | updating with any non-empty, zero-free text that is not stored, followed by a zero byte, overwrites the root's `check` and makes the value its base |
| Lookups.BehindTerminal | libs/cedar/cedar.h:420-438 | where a lookup goes on a zero byte behind a stored key, and when the slot it reads next lies in the array |
| Erasure.BlockZeroOwners | libs/cedar/cedar.h:408-418 | block 0 holds only the root and its children, each at the slot of its label |
| Dictionary.PathOfText | libs/cedar/cedar.h:142-150 | paths and texts correspond one to one |
| Lookups.PlacesArePrefixes | libs/cedar/cedar.h:420-438 | the inner places are exactly the prefixes of the keys |
| DoubleArrays.DoubleArray.Find | libs/cedar/cedar.h:419-439 | the value of the text, no value for a proper prefix of a key, else no path, and how far the text could be followed |
| DoubleArrays.DoubleArray.ExactMatchSearch | libs/cedar/cedar.h:101-109 | the value the map has, or no value |
| DoubleArrays.DoubleArray.Traverse | libs/cedar/cedar.h:153-157 | the same, with the slot and the length of the longest part of the text that has a place |
| Enumeration.FlatMembers | libs/cedar/cedar.h:322-353 | the walk order below a place contains exactly the places with a value that lie below it |
| Enumeration.FlatDistinct | libs/cedar/cedar.h:322-353 | and none of them twice |
| DoubleArrays.DoubleArray.Begin | libs/cedar/cedar.h:321-338 | goes to the first entry of the walk, or says there is none; `len` grows by the depth gone down |
| DoubleArrays.DoubleArray.Next | libs/cedar/cedar.h:339-353 | goes to the next entry of the walk below a root, skipping none, or ends it; `len` follows the depth |
| Walking.WalkIsExact | libs/cedar/cedar.h:131-141 | a full walk below a text meets exactly the keys that extend it, each once |
| DoubleArrays.DoubleArray.CommonPrefixPredict | libs/cedar/cedar.h:131-141 | counts the keys that extend the text and describes as many as fit, in the order of the child chains, by value, remaining length and slot, no two the same |
| DoubleArrays.DoubleArray.Suffix | libs/cedar/cedar.h:142-150 | the last bytes of the text of the place a slot holds |
| Walking.SuffixCompletes | libs/cedar/cedar.h:131-150 | text and suffix of a prediction make up the stored key with that value |
| DoubleArrays.DoubleArray.NumKeys | libs/cedar/cedar.h:86-95 | the slot scan counts the entries of the map |
| Lookups.SlotCases | libs/cedar/cedar.h:92 | a used slot equals its parent's base exactly if it holds a value |
| DoubleArrays.DoubleArray.Dump | libs/cedar/cedar.h:224-233 | a walk from the root describes every entry once, in the order of the child chains, as many as `NumKeys` counts, unless the buffer is too short |
| DoubleArrays.DoubleArray.CommonPrefixSearch | libs/cedar/cedar.h:114-125 | counts the keys that are prefixes of the text and lists the first ones |
| Lookups.HitsExact | libs/cedar/cedar.h:114-125 | the list holds exactly the non-empty prefixes that are keys, with value and length |
| Lookups.HitsIncrease | libs/cedar/cedar.h:114-125 | in increasing length, so none twice |
| Pruning.CutTree | libs/cedar/cedar.h:568-573 | cutting a leaf out of a chain of several keeps the tree |
| Pruning.OnlyChildTree | libs/cedar/cedar.h:208-216 | taking off an only child leaves its parent as the next leaf to go |
| Erasure.LeafTakenOff | libs/cedar/cedar.h:208-216 | one step of the erasure: finished, or the emptied parent is next; all other entries stay |
| Erasure.RootFull | libs/cedar/cedar.h:398-402 | block 0 is full exactly if every byte but 0 starts some key |
| Erasure.ReachedRoot | libs/cedar/cedar.h:208-217 | the erasure climbs to a child of the root exactly if no other key starts with the same byte |
| DoubleArrays.DoubleArray.TakeOff | libs/cedar/cedar.h:210-215 | one step of the loop, including the case that spoils the root |
| DoubleArrays.DoubleArray.Erase | libs/cedar/cedar.h:194-218 | the map without the key and a valid array if and only if the key is `Erasable`; otherwise a negative root base; an absent key changes nothing |
| Erasure.SinglesFillRoot | libs/cedar/cedar.h:194-218 | with all 255 one-byte keys stored none can be erased |
| DoubleArrays.EraseFromFullRoot | libs/cedar/cedar.h:194-218 | a run from the empty trie that ends with a negative root base |
| Farms.Farm.Attach | src/Farm.hpp:23-42 | the funnel gains the id; the item itself is stored if it was attached and no item has its id yet; the result says whether the id was new or replaced |
| Farms.AttachCallback.Call | src/Keeper.hpp:87-90 | attaches under one funnel and remembers the last outcome |
| Indexes.NewNumber | src/Trie.hpp:102-105 | a new key gets the next number, so keys and numbers stay in one-to-one correspondence |
| Indexes.AttachAllRelates | src/Trie.hpp:38-55 | attaching under a list of keys adds exactly those pairs to the relation, with or without upsert, and keeps every funnel entry sound |
| Indexes.AttachAllKeeps | src/Trie.hpp:38-55 | ids and items once assigned never change; the keys stored are the old and the new ones |
| Indexes.AttachAllItems | src/Farm.hpp:38-40 | attaching under any key stores the very item unless one with its id is stored; under no key it stores nothing |
| Tries.Trie.AttachKey | src/Trie.hpp:41-52 | one key: found or given the next id, and the callback called with it |
| Tries.Trie.Attach | src/Trie.hpp:37-55 | the whole list in order; true exactly if some key was new; ids stay a bijection with 1..cursor |
| Tries.Trie.IdOf | src/Trie.hpp:95-99 | the id of a key, 0 exactly if it has none |
| Tries.Trie.Traverse | src/Trie.hpp:73-93 | calls back with the exact match first and then with every key below the prefix once, in the order of the child chains, until told to stop |
| Keepers.Keeper.Attach | src/Keeper.hpp:38-43 | the relation grows by exactly the given pairs, the item dictionary is the map from each id to the first item attached with it, nothing assigned changes, and when the result is true |
| Keepers.Keeper.UpdateItem | src/Keeper.hpp:45-57 | succeeds exactly for a known key, then adds one pair and stores the item unless one with its id is stored |
| Indexes.UnreportedUnderKnownKey | src/Keeper.hpp:38-43 | a second item attached under a known key, reported as failure |
| Indexes.UnreportedUnderRepeatedKey | src/Keeper.hpp:38-43 | an item attached under a key named twice, reported as failure |
| Indexes.LastGainsWhen | src/Keeper.hpp:38-43 | when the last callback counts as attached |
| Conditions.TestsOfMeans | src/Filter.hpp:296-314 | the tests built from a condition object are the conjunction of its accepted members |
| Conditions.FreshChainSelects | src/Filter.hpp:268-294 | a fresh pair of chains lets through exactly what the query selects |
| Conditions.IdCondition | src/Filter.hpp:289-290 | any unsigned 32-bit number asks for, or rules out, exactly the items with that id |
| Conditions.IdListCondition | src/Filter.hpp:287-288 | an array asks for, or rules out, exactly the items with a listed id |
| Conditions.MemberCondition | src/Filter.hpp:296-314 | what one member of a condition object asks for or rules out, by the kind of its value |
| Conditions.UnusedCondition | src/Filter.hpp:283-294 | any other value restricts nothing and leaves a chain as it is |
| Conditions.ReusedChain | src/Filter.hpp:283-325 | a rebuilt chain accepts an item exactly if the condition holds and the tests kept from before accept it; for a condition object it is the fresh chain exactly if it was empty |
| Conditions.ReusedPairSelects | src/Filter.hpp:268-294 | reused chains decide about an item as the query asks exactly if the tests left over do no harm |
| Conditions.StaleHead | src/Filter.hpp:283-325 | an item the second query selects and the reused chain rejects |
| Filters.Filter.Apply | src/Filter.hpp:29-38 | the linked filters accept an item exactly if each one does |
| Filters.FillValues | src/Filter.hpp:163-173 | the values without nulls, and whether there was a null |
| Filters.AttachFilter | src/Filter.hpp:316-325 | the chain cut behind the cursor with the new filter linked there |
| Filters.ByCond | src/Filter.hpp:297-314 | the chain built through the moving cursor carries the tests of the members in order |
| Filters.FilterChain.Rebuild | src/Filter.hpp:275-294 | both chains carry the tests their conditions stand for |
| Filters.FilterChain.Apply | src/Filter.hpp:269-273 | not everything excluded and everything demanded |
| Collecting.ItemCallback.Call | src/Seeker.hpp:63-67 | looks at a funnel unless the iteration bound is reached; items found stay found and in order; goes on exactly if it looked and there is room |
| Collecting.ItemCallback.Pump | src/Seeker.hpp:70-94 | puts the matching items of a funnel behind those found before, each id once, up to the bound, whatever the order of the funnel |
| Collecting.CollectedCount | src/Seeker.hpp:70-94 | the number collected is the number of matching ids, or the bound if that is smaller |
| Collecting.OneMoreInOrder | src/Seeker.hpp:70-94 | earlier funnels take precedence: what the first funnels offer fills the list from the front |
| Searching.VisitSees | src/Trie.hpp:74-93 | the funnels visited hold exactly the ids attached under keys that extend the prefix |
| Searching.SearchAnswered | src/Seeker.hpp:33-49 | different ids, passing, offered, at most `num`, and exactly the smaller of `num` and the number of answers if the visits fit the iteration bound |
| Searching.SearchInReach | src/Seeker.hpp:33-49 | the same count for a search that is cut off, relative to the funnels in reach, and for every number of funnels their items come first |
| Searching.FreshAnswers | src/Seeker.hpp:33-49 | with fresh chains the answers are the offered items the query selects |
| Searching.OfferedPairs | src/Seeker.hpp:33-49 | an id is offered exactly if it was attached under a key that extends the prefix |
| Searching.FreshSearch | src/Seeker.hpp:33-49 | with fresh chains a search returns different items attached under keys that extend the prefix and selected by the query, and as many of them as `num` allows if the visits fit the iteration bound |
| Seekers.Seeker.Seek | src/Seeker.hpp:33-49 | the items found answer the query in both senses and come in the order of the visit, exact match first and then along the child chains; the index is unchanged |

## Left out

- Growing the buffers: arrays, side table and blocks are sequences that grow by one block; capacity doubling and
  allocation failure are not modelled, and slots and block numbers are unbounded integers.
- The 256-byte child buffer of `_resolve` is a sequence of labels; the pointers `first` and `last` are its ends.
- The reject bounds are a heuristic: each step's update is stated, but no bound is claimed on what they skip.
- `DoubleArrays.DoubleArray.FindPlaceForFamily`: a block skipped for its reject bound may have had a place; which of the fitting slots of a block is taken is stated by `Explore` only.
- `DoubleArrays.DoubleArray.Dump`: a buffer that is too short ends the program in the code; here it gives false.
- `DoubleArrays.DoubleArray.Update`: the empty key ends the program in the code and is excluded, as are values outside 1..0x7ffffffc and keys with a zero byte; what the code makes of those is stated only for a zero byte behind a key that is not stored.
- `Tries.Trie.AttachKey`: excludes the same keys; so does what is built on it.
- `Tries.Trie.Attach`: excludes keys that are empty or contain a zero byte.
- `Keepers.Keeper.Attach`: excludes keys that are empty or contain a zero byte.
- `DoubleArrays.DoubleArray.Find`: texts with a zero byte right after a stored key are excluded, as are the lookups, walks and erasures that start with it; see `Lookups.BehindTerminal`.
- `DoubleArrays.DoubleArray.Build`: keys as for updates, and the values are always supplied; the default of numbering the keys from 0 would store a value outside 1..0x7ffffffc.
- The callback `cf` of `update`, node tracking, ordered children, the reduced trie, and `libs/cedar/cedarpp.h`.
- `save`, `open`, `set_array`, `clear` and the rebuilding of side tables: input and output only.
- What lookups and updates do after a failed erasure: the array is no longer valid and the code reads outside it.
- `Farm::detach`, `Keeper::detach` and `Trie::erase`: the trie's part is a stub, so they have no effect.
- `RangeFilter`, `AttrFilter` and `UnequalFilter`: no chain is ever built from them.
- JSON parsing, rapidjson's numbers other than integers, hashing: values are a datatype with equality.
- `Query`: parsing and the visible fields; a query is given as prefix, conditions and count.
- Locks: an attach runs under the write lock and a search under the read lock, so each is one step.
- Configuration, sessions, signatures, servers and replies.
