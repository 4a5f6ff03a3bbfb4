# miaouchat, modelled and verified in Dafny

miaouchat is a peer-to-peer chat in C. Peers flood messages to their neighbours over UDP: a peer that receives a Data TLV
acknowledges it, stores and shows it if it is new, and owes it to each of its current neighbours until they acknowledge
it; a worker sends what is owed again and again, ever more slowly, and gives a neighbour up after five tries. This project
models that protocol and the layers it stands on, and proves what they promise.

The layers, bottom up:

| files | module | models |
|---|---|---|
| `bits`, `sequences`, `wrappers` | `Bits`, `Sequences`, `Wrappers` | powers of two and bitwise operators on unbounded integers, sequences without repetition, `Option` |
| `map_layout`, `hashmap`, `map_iter`, `map_history` | `MapLayout`, `HashMap`, `MapIteration`, `MapHistory` | `src/map.c`: chained buckets relinked in place, with allocation failure, the resumable iterator, and growth over whole histories |
| `table`, `key_text` | `Tables`, `KeyText` | the hash map with keys of any type that are written as text, and the loops over it |
| `dllist` | `DoublyLinkedList` | `src/dllist.c`, as a refinement of a sequence |
| `wire`, `runs`, `codec`, `sbuff` | `Wire`, `Runs`, `Codec`, `Sbuff` | `src/serialization.c` and the constructors and buffer of `src/types.c`: byte order, TLVs, messages, cursor |
| `queue`, `worker`, `data_key` | `PendingQueue`, `Worker`, `DataKey` | what a neighbour is owed: removal, the worker's pass, batching, timing; the keys of the store |
| `peer`, `effects`, `peer_history` | `PeerModel`, `Effects`, `PeerHistory` | `src/connect.c`, `src/msg_list.c`, `src/neighbour_map.c`, `src/worker.c`: one peer on values, what each of its steps brings about and sends, and its whole histories, purging included |
| `msg_store`, `neighbours`, `chat_peer` | `MsgStore`, `NeighbourMaps`, `ChatPeer` | the same as objects that update themselves in place: the messages, a map of neighbours, and the peer |
| `flood`, `net_effects`, `deadlines` | `Flood`, `NetEffects`, `Deadlines` | any number of peers and a network that loses, duplicates and reorders datagrams, what each step brings about there, and how soon flooding is done |

How they fit together: a `ChatPeer` holds two `NbrMap`s, for the current and the potential neighbours, and a `MsgStore`. A
`NbrMap` is a `HashMap` of entries with one `DList` each for what the neighbour is owed, which moves along when the entry
changes maps; a `MsgStore` is a `DList` of keys and a `HashMap` of bodies. Messages are printed and parsed with `Sbuff`. Each
method of `ChatPeer` is proved to compute what `PeerModel` says on values, and `Effects` says what that means: what is stored,
owed, acknowledged, linked and sent afterwards, told apart by what comes back when the bytes are parsed. `Flood` takes those same functions as its steps,
one TLV or one neighbour at a time, and sends the very bytes that `Codec` prints; `DatagramInSteps` and `WorkerInSteps` show
that a whole datagram and a whole pass of the worker are just such steps, one for each TLV or neighbour in its turn;
`NetEffects.OutboxIsPackets` that what a `ChatPeer` hands to the socket are the network's packets; `NothingInvented` and
`WorkerNeverOverflows` that every state of a run meets what the methods ask of datagrams and of pending lists. So what is
proved of every run of `Flood` holds of peers that run the methods of `ChatPeer`, as long as memory suffices.

The main theorem is `Flood.FloodingIsComplete`: in every run, once a message is pending nowhere, every peer that a path of
links leads to has stored it, if each link has been there since the message was stored at its start.
`Flood.LateNeighbourMissesIt` shows that the links must have been there, and `Flood.OwedOnlyOnOldLinks` that this is so in all
runs: nothing is owed on any other link. `Deadlines.FloodedByThen` puts a time on it: when the links stay current and the
workers come by in every stretch of more than `g` seconds, the peer at distance `d` has stored the message within
d * (120 + 6g) seconds.

## Model

| member | source | states |
|---|---|---|
| MapLayout.ComputeHash | src/map.c:21-27 | the loop over the characters computes the 32-bit hash that files a key |
| MapLayout.StepOfMinusOne | src/map.c:24 | the character -1 turns the hash into the complement of 33 times it, modulo 2^32: characters are signed |
| MapLayout.HashOfMinusOne | src/map.c:21-27 | the hashes of the empty string and of the one character -1 |
| MapLayout.BucketIdxIsMod | src/map.c:44-48 | with a power-of-two bucket count the AND is the remainder, and so a valid bucket |
| HashMap.HashMap.constructor | src/map.h:34-35 | a zeroed map is valid and empty |
| HashMap.HashMap.AddNode | src/map.c:51-55 | files exactly one more node, in the bucket its hash selects, and keeps every other |
| HashMap.HashMap.GetRef | src/map.c:95-108 | finds the one node of the key, and the link to it, if and only if the key is there |
| HashMap.HashMap.Get | src/map.c:127-130 | answers as the finite map does |
| HashMap.HashMap.Set | src/map.c:133-156 | 0 and the updated map, or -1 and the map unchanged; -1 exactly if the key is new and an allocation that is needed fails; all nodes are filed again exactly if the bucket count changes |
| HashMap.HashMap.Insert | src/map.c:145-155 | grows a full table first; on failure every node is filed as before |
| HashMap.HashMap.Overwrite | src/map.c:138-141 | changes the value of one key and nothing else |
| HashMap.HashMap.Remove | src/map.c:159-168 | removes the key from the finite map, and has no effect if it is not there |
| HashMap.HashMap.Unlink | src/map.c:163-166 | takes exactly one node out of its chain |
| HashMap.HashMap.Unchain | src/map.c:62-73 | puts every node of the table on one list, each once |
| HashMap.PushAll | src/map.c:66-72 | moves the nodes of one bucket onto that list, in order, through `next` alone |
| HashMap.HashMap.Relink | src/map.c:80-89 | files every node of the list again, none lost, doubled or altered |
| HashMap.HashMap.Resize | src/map.c:58-92 | same contents and nodes whether `realloc` succeeds or not, after all chains were taken apart |
| MapLayout.FiledAfterAdd | src/map.c:51-55 | pushing a node keeps: every node in its bucket, no key twice, all chains null-ended and disjoint |
| MapLayout.FiledAfterRemove | src/map.c:163-166 | unlinking a node keeps the same |
| MapLayout.AllNodesChained | src/map.c:62-73 | the nodes of all buckets are all the nodes of the table |
| MapIteration.OrderIsExact | src/map.c:179-193 | the buckets in order hold every key exactly once and no other |
| MapIteration.SizeIsKeyCount | src/map.c:145-151 | the total chain length, which `nnodes` is, is the number of keys |
| MapIteration.MapIter.constructor | src/map.c:171-176 | an iterator that starts at the unsigned value of -1 has every key still to come |
| MapIteration.MapIter.Next | src/map.c:179-193 | yields the next key still to come, and NULL exactly when there is none |
| MapIteration.MapIter.NextBucket | src/map.c:184-190 | finds the next bucket that is not empty, across the wrap to 0 |
| MapIteration.Iterate | doc/map/README.md:94-97 | terminates, with every key exactly once |
| MapHistory.Perform | src/map.c:133-168 | one call of either kind succeeds exactly if the key is there, or a node and, for a full table, a larger one can be had, or it is a removal; it updates the finite map or leaves it, and the bucket count is the least power of two for the highest number of keys so far |
| MapHistory.Replay | src/map.c:145-151 | over any history of calls and allocation failures each call succeeds exactly when the map, the buckets and the allocator before it say so, the table is the finite map the successful calls make, the bucket count after each call is the least power of two not below the highest number of keys until then, and all growth together has filed one node less than that again |
| Tables.Table.Set | src/map.h:45-47 | with keys that are written as text, and enough memory, the table is the map from keys to values |
| Tables.Rows | src/map.c:179-193 | the loop over `map_next` with `map_get` of each key meets every row exactly once |
| DoublyLinkedList.DList.constructor | src/types.c:359-366 | a new list is empty |
| DoublyLinkedList.DList.PushBack | src/dllist.c:3-19 | appends; refuses data of another type and null |
| DoublyLinkedList.DList.PushFront | src/dllist.c:20-36 | prepends; refuses data of another type and null |
| DoublyLinkedList.DList.FirstNode | src/dllist.c:181-190 | puts the node in exactly if the list is empty |
| DoublyLinkedList.DList.PopBack | src/dllist.c:38-58 | removes and answers the last element, null for an empty list |
| DoublyLinkedList.DList.PopFront | src/dllist.c:60-80 | removes and answers the first element, null for an empty list |
| DoublyLinkedList.DList.Insert | src/dllist.c:82-120 | `s[..i] + [x] + s[i..]`, at the end for an index beyond it |
| DoublyLinkedList.DList.Remove | src/dllist.c:122-154 | answers `s[i]` and leaves `s[..i] + s[i+1..]`, null beyond the end |
| DoublyLinkedList.DList.Get | src/dllist.c:156-179 | what the code answers, index by index |
| DoublyLinkedList.GetIsIndexing | src/dllist.c:162-165 | that is the element at the index exactly unless the first of several elements, other than the last, is asked for |
| DoublyLinkedList.GetMissesFirst | src/dllist.c:164-165 | a list for which index 0 gives the last element |
| DoublyLinkedList.DList.Empty | src/dllist.c:196-207 | leaves an empty list |
| DoublyLinkedList.LinkedAfterInsert | src/dllist.c:96-102 | splicing a node in keeps forward and backward links mirrored and the ends null |
| DoublyLinkedList.LinkedAfterRemove | src/dllist.c:144-145 | splicing a node out keeps the same |
| Wire.HtonsImage | src/serialization.c:19-25 | stored little-endian, `htons` of a value is its two bytes in network order |
| Wire.HtonlImage | src/serialization.c:27-33 | the same for `htonl` and four bytes |
| Wire.HtonllImage | src/serialization.c:3-6 | the same for the macro `htonll` and all 64-bit values |
| Wire.NtohllInverts | src/serialization.c:7-10 | `ntohll` undoes `htonll` |
| Wire.NtohllReads | src/serialization.c:156-162 | `ntohll` of the eight bytes copied from the cursor is the value they are the network order of |
| Wire.NtohReads | src/serialization.c:140-154 | the same for two and four bytes |
| Runs.RunRoundTrip | src/serialization.c:183-184 | encodings that are each read back under any suffix are read back as a run, if there is room |
| Runs.RunReprinted | src/serialization.c:55-56 | if each piece is reprinted exactly when canonical, then so is the run |
| Codec.TlvLayout | src/serialization.c:59-91 | where each kind of TLV has its type number, length byte and fields, numbers in network order |
| Codec.MsgLayout | src/serialization.c:51-57 | magic number, version, length in network order, and then the TLVs in order |
| Codec.BodyIsRead | src/serialization.c:239-294 | the bytes that the parser reads of a body are the bytes the printer wrote, and give the same TLV |
| Codec.TlvRoundTrip | src/serialization.c:191-237 | an encoding followed by any bytes parses to the TLV and those bytes exactly if the length byte fits the body |
| Codec.MsgRoundTrip | src/serialization.c:174-189 | parsing undoes printing exactly for messages of at most 64 TLVs whose length bytes fit |
| Codec.BodyIsReprinted | src/serialization.c:93-129 | a body that was parsed prints as the same bytes exactly unless it is a PadN with a byte other than 0 |
| Codec.TlvReprinted | src/serialization.c:59-91 | the same of a TLV with the bytes after it |
| Codec.MsgReprinted | src/serialization.c:51-57 | printing undoes parsing exactly for datagrams whose PadN bodies are zero-filled; the size is the same in any case |
| Codec.NewMsg | src/types.c:158-170 | the loop adds the header's 16-bit length up, modulo 2^16 |
| Codec.ConstructorsWellFormed | src/types.c:80-156 | which constructed TLVs have a length byte that fits, each with its exact condition |
| Codec.MsgSize | src/types.c:158-170 | the serialised size is 4 + `length` exactly if no Neighbour and no GoAway message is in it and the sum does not wrap |
| Codec.GoAwayMessageIsLost | src/types.c:142-148 | a GoAway with a message comes back without it, and the message is left to be read as TLVs |
| Sbuff.Sbuff.constructor | src/types.c:259-268 | an empty log with a capacity of 64 |
| Sbuff.Sbuff.ReserveSpace | src/types.c:283-288 | terminates, keeps the bytes, and ends with room at a capacity of 64 times a power of two that is as small as doubling allows |
| Sbuff.Sbuff.Append | src/serialization.c:43-48 | appends to the log, keeping `next` equal to `real_size` and the capacity below twice the size |
| Sbuff.Sbuff.SerialChar | src/serialization.c:12-17 | appends the byte |
| Sbuff.Sbuff.SerialShort | src/serialization.c:19-25 | appends two bytes in network order |
| Sbuff.Sbuff.SerialInt | src/serialization.c:27-33 | appends four bytes in network order |
| Sbuff.Sbuff.SerialLong | src/serialization.c:35-41 | appends eight bytes in network order |
| Sbuff.Sbuff.SerialTlv | src/serialization.c:59-91 | appends the encoding of the TLV |
| Sbuff.Sbuff.SerialMsg | src/serialization.c:51-57 | appends the encoding of the message |
| Sbuff.Sbuff.FromData | src/types.c:270-281 | all bytes of the datagram are unread |
| Sbuff.Sbuff.DserialShort | src/serialization.c:140-146 | reads the value whose network order is next, and no further |
| Sbuff.Sbuff.DserialInt | src/serialization.c:148-154 | reads the value whose network order is next, and no further |
| Sbuff.Sbuff.DserialLong | src/serialization.c:156-162 | reads the value whose network order is next, and no further |
| Sbuff.Sbuff.DserialStr | src/serialization.c:164-172 | reads that many bytes, and no further |
| Sbuff.Sbuff.DserialTlv | src/serialization.c:191-237 | reads the first TLV and leaves the bytes after it; never past `real_size` |
| Sbuff.Sbuff.DserialMsg | src/serialization.c:174-189 | reads the message that the bytes encode, with at most 64 TLVs, and ends with the cursor at `real_size` |
| PendingQueue.SetTimeSend | src/types.c:301-307 | a time from 2^tries up to 2^(tries+1) seconds from now |
| PendingQueue.OnlyOneSecond | src/types.c:309-316 | for a new entry that is one second from now, whatever `random()` says |
| PendingQueue.WaitsAddUp | src/worker.c:72-96 | the waits before the first n sends take 2^k + 1 seconds each at least |
| PendingQueue.GivenUpLate | src/worker.c:86-89 | an entry that is given up was queued 69 seconds ago or more |
| PendingQueue.RmKeyExact | src/msg_list.c:92-113 | with distinct keys, the entry of the message goes and no other |
| PendingQueue.StopIsFirst | src/worker.c:86-89 | the pass stops at the first due entry that was tried five times |
| PendingQueue.BatchesAreDue | src/worker.c:70-108 | the batches, one after the other, are exactly the due entries before the stop in list order, and the status is -1 exactly if there is a stop |
| PendingQueue.EmptyMessages | src/worker.c:100-102 | a pass over a list sends something in any case, and nothing but empty messages exactly if nothing was due before the stop |
| PendingQueue.PassKeepsKeys | src/worker.c:70-98 | a pass changes no body and no order |
| PendingQueue.PassKeepsTiming | src/worker.c:72-96 | a pass keeps every entry to five tries and to its waits |
| PendingQueue.BatchesAreGreedy | src/worker.c:73-93 | a body goes into the batch of the one before it exactly if the guard lets it fit |
| PendingQueue.GuardKeepsBounds | src/worker.c:74-93 | a body that the guard lets in finds a free slot of the 64, and `size` counts its bytes |
| PendingQueue.BatchesBounded | src/worker.c:63-98 | with bodies of 1 to 242 bytes every batch fits the table and takes 11 bytes more than the PMTU at most |
| PendingQueue.BatchDatagram | src/worker.c:100-101 | its datagram takes PMTU + 15 bytes at most, its 16-bit length does not wrap, and it parses back |
| PendingQueue.TableHoldsBatches | src/worker.c:63-74 | the table of 64 holds every batch of every queue exactly if bodies must not be empty |
| PendingQueue.EmptyDataOverflows | src/worker.c:63-74 | 65 due bodies without data make a batch of 65 |
| DataKey.KeysOfOneSender | src/types.c:439-443 | the coded keys tell all messages of one sender apart exactly if its id, as a signed number, lies between -10^7 and 10^8 |
| DataKey.ShortIdsShareKeys | src/types.c:439-443 | two senders whose ids take eight characters at most share a key exactly if the one id's text is the other's with a number without leading zeros after it |
| DataKey.KeysOfTwoSenders | src/types.c:439-443 | the coded keys tell all messages of two senders, of whatever ids, apart exactly if both ids take eight characters at most and neither text extends the other so |
| Worker.RmNbrMsg | src/msg_list.c:92-113 | on the linked list: removes the first entry of the message, and says whether there was one |
| Worker.PassOver | src/worker.c:70-98 | on the linked list: counts tries and sends batches as the pass over the sequence does, within the 64 slots |
| Worker.WorkerIterMsg | src/worker.c:53-109 | the whole pass: the list, the messages and the status are those of the pass over the sequence |
| PeerModel.FirstPadN | src/connect.c:129-135 | the TLVs before it are those that get handled |
| PeerModel.AddMsgConsistent | src/msg_list.c:21-52 | adding a message keeps list, map and pending lists consistent, and the message is stored after it |
| PeerModel.HandlerConsistent | src/connect.c:130-154 | every handler keeps: distinct keys in the list, each in the map with its body, pending keys distinct and stored, potential neighbours owed nothing, entries under their own address |
| PeerModel.WorkerConsistent | src/worker.c:37-48 | the worker's pass and eviction keep the same |
| PeerModel.PurgeConsistent | src/msg_list.c:62-90 | purging keeps the same, and the purged message is pending nowhere |
| PeerModel.PurgeForgets | src/msg_list.c:62-67 | a purged message that comes in again is shown again |
| PeerModel.AnswerIsSwapped | src/connect.c:220-222 | the answer to a short Hello has the asking peer's id as its source and its own as the destination, which is right exactly if the two are equal |
| PeerModel.LongHelloIdsUnread | src/connect.c:211-252 | what a long Hello makes a peer do does not depend on the ids in it |
| PeerModel.EmptyMessageHasNoEffect | src/worker.c:100-102 | the empty message takes four bytes, comes back as it was sent, and leaves its receiver as it is and silent |
| PeerModel.TransferKeepsUnion | src/neighbour_map.c:56-63 | a transfer keeps the union of the two maps exactly, even when the destination holds the key, whose entry stays then and is the one moved otherwise |
| PeerModel.AddingKeepsKnown | src/neighbour_map.c:122-139 | adding forgets nobody, and every address that was looked up is known after it |
| PeerModel.HandlerKeepsKnown | src/connect.c:130-154 | no handler forgets a peer |
| PeerModel.WorkerKeepsKnown | src/worker.c:37-48 | the worker keeps the known peers exactly |
| PeerModel.AfterVisitsSoFar | src/worker.c:37-48 | visiting some neighbours leaves the lists of the others as they were |
| Effects.DataIsAcknowledged | src/connect.c:264-267 | a Data TLV, new or not, makes the peer send one message, to its sender, that parses to the Ack of it |
| Effects.DataIsStored | src/connect.c:269-270 | a known message changes nothing; a new one is stored and shown, and a fresh entry comes first in every current neighbour's list, which goes on as it was |
| Effects.AckSettles | src/connect.c:285-297 | an Ack of a current neighbour takes exactly the entries of its message off that neighbour's list, in which the others keep their order, and does nothing else; of anybody else it does nothing |
| Effects.RmKeyIsWithout | src/msg_list.c:92-113 | with distinct keys, removing the first entry of a message leaves exactly the other entries, in order |
| Effects.LookedUpIsKnown | src/neighbour_map.c:122-139 | after a look-up an address is current exactly if it was or a Hello could be sent to it, and potential exactly if it was or one could not |
| Effects.NeighbourGreets | src/connect.c:254-262 | new entries are owed nothing and old ones stay; each address is sent one short Hello with the peer's id |
| Effects.HelloIsAnswered | src/connect.c:220-222 | a short Hello is answered with one long Hello to its sender, a long one is not, and a known sender draws nothing else |
| Effects.UnknownSenderGreets | src/connect.c:233-239 | what a Hello of an unknown sender sends besides are short Hellos to the addresses looked up, which are added |
| Effects.KnownSenderIsPromoted | src/connect.c:229-242 | a potential sender of a Hello becomes current and leaves the potential ones, a current one stays as it is, and nobody else is touched |
| Effects.KnownSenderIsCurrent | src/connect.c:229-242 | a known sender of a Hello is current afterwards, and still potential exactly if it was in both maps |
| Effects.PotentialForGood | src/neighbour_map.c:123-139 | a look-up that yields an address twice can put it in both maps, and a Hello from it leaves it there |
| Effects.GoAwayLeaves | src/connect.c:299-316 | a GoAway makes a current sender potential and owes it nothing; of anybody else it does nothing |
| Effects.OthersHaveNoEffect | src/connect.c:131-153 | Pad1, PadN, Warning and unknown TLVs change nothing and send nothing |
| Effects.ForeignMessageIgnored | src/connect.c:125-126 | any magic number but 93 or version but 2 makes the whole datagram without effect |
| Effects.DatagramDataStored | src/connect.c:129-155 | every Data TLV of a datagram before the first PadN is stored and acknowledged |
| Effects.VisitSends | src/worker.c:70-108 | a visit sends, to that neighbour, the due bodies before the first that is given up, in order, and a GoAway at the end exactly if one is given up |
| Effects.VisitEffects | src/worker.c:37-48 | a visit evicts exactly if an entry is due that was tried five times: the neighbour is potential then and owed nothing; else it stays, and its list has gone through the pass |
| Effects.PurgedForgets | src/msg_list.c:54-90 | a purge forgets exactly the n oldest messages, or all there are, on the list and on every pending list, where the other entries stay in order |
| PeerHistory.AlwaysConsistent | src/msg_list.c:21-90 | store and pending lists are consistent in every state of every history of handlers, originations, visits of the worker and purges |
| PeerHistory.NothingPendingUnstored | src/msg_list.c:80-83 | in every such state a message that is not in the list, as after its purge, is pending nowhere |
| PeerHistory.ShownExactlyIfNew | src/msg_list.c:21-45 | in every such history a message that comes in is shown exactly if, whenever it came in before, it has been purged since |
| MsgStore.MsgStore.Has | src/msg_list.c:4-19 | walking the list answers true exactly if the key is in it |
| MsgStore.MsgStore.Store | src/msg_list.c:25-31 | in place: the body goes into the hash map, and the key to the front of the list |
| MsgStore.MsgStore.PopOldest | src/msg_list.c:65-72 | in place: the last key leaves the list, and its body is looked up |
| NeighbourMaps.NbrMap.Push | src/msg_list.c:41-42 | on the list of a neighbour: queues the entry first, changing no other list |
| NeighbourMaps.NbrMap.PushAll | src/msg_list.c:36-43 | the loop over the hash map queues the message once for every neighbour, in whatever order it meets them |
| NeighbourMaps.NbrMap.RmAll | src/msg_list.c:76-83 | the loop over the hash map takes the message off every neighbour's list |
| NeighbourMaps.NbrMap.PassFor | src/worker.c:53-109 | the worker's pass over one neighbour's list leaves every other list alone |
| NeighbourMaps.NbrMap.Pop | src/neighbour_map.c:40-45 | the entry leaves the hash map, and hands its list over with what it holds |
| NeighbourMaps.NbrMap.Add | src/neighbour_map.c:18-38 | takes an entry over with its list, unless the address is there already |
| NeighbourMaps.TransferNeighbour | src/neighbour_map.c:56-63 | the entry and its list change maps; an entry that is there already stays |
| ChatPeer.ChatPeer.AddMsg | src/msg_list.c:21-52 | in place: a fresh message is stored, queued for every current neighbour and shown, a known one changes nothing |
| ChatPeer.ChatPeer.RmMsg | src/msg_list.c:62-90 | in place: the oldest message leaves the list and every pending list |
| ChatPeer.ChatPeer.RmNMsg | src/msg_list.c:54-59 | purges the n oldest messages, or all there are, and the peer stays consistent |
| ChatPeer.ChatPeer.AddEntryFor | src/neighbour_map.c:18-38 | a new entry, with an empty list of its own, goes into the one map or the other unless the address is there |
| ChatPeer.ChatPeer.AddNewNeighbour | src/neighbour_map.c:101-142 | every address that the look-up yields is greeted, and added as current or potential by whether that worked |
| ChatPeer.ChatPeer.SendMsg | src/connect.c:162-167 | the datagram is the encoding of the message |
| ChatPeer.ChatPeer.ProcessHello | src/connect.c:211-252 | answers a short Hello; promotes a potential sender, and for an unknown one adds the addresses that the look-up yields, of which it need not be one |
| ChatPeer.ChatPeer.ProcessData | src/connect.c:264-278 | acknowledges in any case, and adds the message |
| ChatPeer.ChatPeer.ProcessAck | src/connect.c:285-297 | the acknowledged entry leaves that neighbour's list, and nothing else changes |
| ChatPeer.ChatPeer.ProcessGoAway | src/connect.c:299-316 | the sender is owed nothing and becomes potential |
| ChatPeer.ChatPeer.ProcessTlvs | src/connect.c:129-155 | the loop handles the TLVs in order up to the first PadN |
| ChatPeer.ChatPeer.ProcessDatagram | src/connect.c:115-160 | the bytes of a datagram take the peer to the state, and make it send the messages, that the parsed message says |
| ChatPeer.ChatPeer.VisitNeighbour | src/worker.c:38-47 | one neighbour's pass, and its eviction with a GoAway exactly if the pass says so |
| ChatPeer.ChatPeer.WorkerIterNbr | src/worker.c:29-51 | every neighbour that is current at the start is visited exactly once, each on its list as it was at the start |
| Flood.HandlerOk | src/connect.c:130-154 | a handler keeps a sound peer sound, forgets no stored message, and sends only what parses, fits and is justified |
| Flood.HandlerOwes | src/connect.c:285-297 | what is owed to a neighbour that stays current stays owed, but for that neighbour's Ack of it |
| Flood.WorkerOk | src/worker.c:37-48 | the worker keeps the same, and drops nothing it owes to a neighbour that stays current |
| Flood.StepKeepsInv | src/connect.c:115-160 | every step of the network keeps the invariant: sound peers, genuine bodies, an Ack in flight only from a peer that has stored the message |
| Flood.RunKeepsInv | src/connect.c:115-160 | the invariant holds in every state of every run |
| Flood.StepServesLink | src/msg_list.c:39-43 | on a link that has been there since the message was stored, it is still pending or the neighbour has stored it |
| Flood.LinkServed | src/msg_list.c:39-43 | the same in every state of every run |
| Flood.FloodingIsComplete | rapport.md.html:45-55 | once a message is pending nowhere, every peer along a path of links that stayed current has stored it, whatever was lost, duplicated or reordered |
| Flood.LateNeighbourMissesIt | src/msg_list.c:39-43 | a run in which a neighbour that became current too late never gets the message |
| Flood.OwedOnlyOnOldLinks | src/msg_list.c:39-43 | in every run a message is owed to a neighbour only if that was current when the message was stored, and has been ever since |
| Flood.ShownAtMostOnce | src/msg_list.c:21-45 | in every run each peer has shown exactly the messages it has stored, each once, with the body that was originated |
| Flood.NothingInvented | src/connect.c:162-209 | in every run every datagram parses, fits 4096 bytes, and carries only originated bodies and justified Acks |
| Flood.WorkerNeverOverflows | src/worker.c:63-93 | in every run the worker's table of 64 holds every batch of every neighbour's list, at any time |
| Flood.RetriesBackOff | src/worker.c:86-96 | in every run an entry is sent five times at most, the (k+1)-th time 2^k + 1 seconds or more after the k-th |
| Flood.EvictedLate | src/worker.c:86-89 | in every run a visit has a negative status only for a message that was sent five times and queued 69 seconds ago |
| NetEffects.LostOnlyIfLate | src/worker.c:37-48 | in every run a peer ceases to be a current neighbour only by its own GoAway, or by a visit with an entry for it that was sent five times and queued 69 seconds ago |
| NetEffects.VisitGivesUpExactly | src/worker.c:37-48 | a visit with a due entry that was sent five times makes the neighbour potential, owes it nothing, and sends it a GoAway with code 2; any other leaves it current and sends no GoAway |
| NetEffects.DueIsSent | src/worker.c:70-102 | a visit puts a packet to the neighbour on the way with each body that is due, unless one before it in the list is given up |
| NetEffects.DataComesToAck | src/connect.c:264-270 | once a Data TLV is handled, the message is stored, and a packet with just its Ack is on the way back |
| NetEffects.AckSettlesDebt | src/connect.c:285-297 | once an Ack is handled, its message is not pending for its sender, and whatever else was pending anywhere still is |
| NetEffects.HelloLinks | src/connect.c:229-242 | once a Hello of a known peer is handled, it is linked |
| NetEffects.OutboxIsPackets | src/connect.c:82-109 | what a peer hands to the socket are the packets that its step adds to the network |
| Deadlines.NeverLate | src/worker.c:70-98 | if the worker visits a neighbour in every stretch of more than g seconds, no entry for it is ever more than g seconds past its send time |
| Deadlines.DebtsAreSettled | src/worker.c:70-98 | and an entry that is still pending was queued 120 + 6g seconds ago at most: after that it has been acknowledged, or given up with the neighbour |
| Deadlines.QuiescentByThen | src/worker.c:29-51 | if every worker keeps going round so, a message is pending nowhere once nobody has stored it anew for more than 120 + 6g seconds |
| Deadlines.FloodedByThen | rapport.md.html:45-55 | along a path of links that stay current and are visited so, the peer at distance d has stored the message within d * (120 + 6g) seconds, whatever was lost, duplicated or reordered |
| Flood.NeverForgotten | src/neighbour_map.c:56-63 | in every run a peer that is known stays known |
| Flood.DatagramInSteps | src/connect.c:115-160 | handling a whole datagram is the network's steps that handle its TLVs, each once and in order, up to the first PadN |
| Flood.WorkerInSteps | src/worker.c:29-51 | a whole pass of the worker is the network's steps that visit its neighbours, each once and in order |

## Where the model departs from the code

The code cannot do what it is for in some places. There the model follows the evident intent:

- `src/serialization.c:45` copies from `&s`; the bytes of the string are meant. Lines 124 and 128 take `strlen`; the model takes the lengths that the bodies carry.
- `src/msg_list.c:42` pushes with type `DLL_INT` onto a `DLL_MSG` list, so that the push is refused (`DList.PushFront` shows it); queueing is meant, with the type of the list.
- `src/worker.c:70-98` never moves on to the next entry, line 93 reads `tab[count]` after the increment, and line 96 drops the send time it has drawn.
- The loops over a neighbour map (`src/msg_list.c:39-43`, `src/msg_list.c:80-83`) collect its rows first in the model, and then go through them; nothing changes the map meanwhile.
- `src/worker.c:42-47` moves every neighbour, whatever the pass returned, and removes the entry under the live iterator. The model moves those with a negative status, and walks over the neighbours that were current at the start.
- `src/dllist.c:196-207` frees the nodes and keeps the pointers; the list is empty afterwards in the model. `src/types.c:368-373` leaves the links of a new node unset; they are null in the model.
- `src/connect.c:290` and `src/connect.c:306` take it that the peer is current; an unknown peer has no effect in the model.
- `src/types.c:439-443` and `src/types.c:410-421` write keys without a separator, cut short, and with two byte orders of the port. The model files messages under the pair of sender id and nonce, which `src/types.h:216-217` calls globally unique, and neighbours under the pair of address and port; `KeyText` writes every byte of the pair, so that no two pairs share a key. `DataKey` says how far the written keys would do.

Kept as coded, with lemmas on what follows: index 0 of `dllist_get` (`GetIsIndexing`), the length byte 10 of a Neighbour
(`MsgSize`), the length byte 1 of a GoAway (`GoAwayMessageIsLost`), the ids of a long Hello in the wrong order
(`AnswerIsSwapped`, `LongHelloIdsUnread`), the address in both maps (`PotentialForGood`), the PadN that ends a datagram (`FirstPadN`), the final message of a pass that is
sent even if it is empty (`EmptyMessages`, `EmptyMessageHasNoEffect`), and the type check of the pushes (`PushFront`).

## Left out

- Sockets, `select`, address resolution and text forms of addresses: what a look-up yields, and whether a send succeeds, is an argument.
- `src/gui.c`, `src/interface.c`, `src/main.c`, `src/msg.c`, `src/test.c`: user interface and printing. Originating a message is a step of the network; `print_message` appends to a log of what was shown.
- The console output of `src/connect.c:277`, which repeats the text of duplicates, is not part of what is shown.
- Threads and mutexes: a handler, and the worker's visit to a neighbour, is atomic.
- `malloc`, `realloc` and `free`, but for the two allocations whose failure `map_set_` reports. `map_deinit_` has nothing to do then.
- A bucket count beyond 2^30: doubling it overflows the C `int`; the model takes it for a failed `realloc`.
- `rm_msg` in the network, since nothing calls it; it is covered for one peer.
- `new_nonce`, `new_client_id` and the clock: an originated message has a fresh key and 1 to 242 bytes of data, `random()` is any number, and time is an integer that does not run backwards.
- Sbuff.Sbuff.DserialMsg: asks for a datagram that can be parsed, because the code checks nothing and would read beyond the end of another, or write beyond its 64 entries.
- Tables.Table.Set: asks for fewer than 2^30 rows, and takes it that allocations succeed, because `src/neighbour_map.c:30` and `src/msg_list.c:28` do not look at what `map_set` answers; `HashMap.HashMap.Set` covers failure.
- NeighbourMaps.NbrMap.Add: asks for the same, and so do the methods of `ChatPeer` that add to a map (`RoomFor`).
- ChatPeer.ChatPeer.ProcessDatagram: asks for a datagram that can be parsed, which every datagram of a run is (`Flood.NothingInvented`), and for that room.
- Worker.WorkerIterMsg: asks that no batch is larger than the table of 64, which the code does not check (`PendingQueue.TableHoldsBatches`); so it is in every run (`Flood.WorkerNeverOverflows`).
- ChatPeer.ChatPeer.WorkerIterNbr: asks for the same of every current neighbour.
- The times of the last Hello in a neighbour's entry, which nothing reads.
- Iteration over a hash map that is modified meanwhile.
- Whether a message that is owed is ever acknowledged: the network may lose everything. It is acknowledged or given up in time if the worker keeps coming by (`Deadlines.DebtsAreSettled`), which is an assumption about the run: the worker's sleep of half a second is not modelled.
