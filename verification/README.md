# lua-llsocket: a verified model

This project models the parts of lua-llsocket that hold logic of their own and
proves what they promise.

**The control-message buffer** (`src/cmsghdrs.c`, `src/cmsghdr.c`,
`lls_cmsghdr_alloc`). `CmsgLayout` has the alignment arithmetic of sections 5 and
20.3 of RFC 3542 and the header fields as bytes; the width of `cmsg_len`, the
alignment and the two socket constants are parameters. `CmsgStream` says which
records a run of bytes holds and models `CMSG_FIRSTHDR` and `CMSG_NXTHDR` on it.
`Cmsghdrs` is the buffer object: `push` and `shift` write, copy and move a real
byte array. `CmsgRuns` is about whole runs of one buffer, `Rights` about descriptor
lists. `Ancillary` says what every operation on any number of header objects and
buffers does to their contents and when their registry references are conserved;
`AncillaryPool` has the same objects on the heap, finalizers included.

**Close hooks and socket lifecycle** (`src/gcfn.c`, `src/socket.c`).
`SocketMachine` says on values what every operation does. A hook's function is a
finite script of further operations, so callbacks may add and delete hooks (their
own, those of other sockets, those another drain has still to call), open, close,
unwrap and collect sockets, use finalized ones, and raise errors, to any depth.
`SocketInvariants`, `SocketSteps` and `SocketRuns` prove what each operation keeps,
`SocketTheorems` states the laws of whole runs, and `SocketEffects` what each single
operation adds to the trace and to the objects. `SocketObjects` and
`SocketHeap` hold the C objects: linked `Gcfn` nodes, `Socket` objects, the
`GCFN_DONE` sentinel, the Lua registry and the kernel's descriptor table, all
mutable. Each method there is proved to take objects that show a machine state to
objects that show the state the machine computes, so the laws hold of the objects.
A `next` field always leads to an older node of the same socket and skips only
hooks that are over. This holds of released nodes, too. A socket being drained also
has the two pointers the drain keeps during a call, the node it calls and the next
one; a pointer dangles when its node has no reference left in the registry, and
while none dangles every node the C code reads is proved to be anchored.
`GcfnClosure` is the capture of a hook's arguments on a Lua stack.

**One registry** (`Anchors`, `LuaRegistry`, `SharedRegistry`). Sockets, headers and
buffers share the Lua registry. Each side knows what the registry holds for others;
`SharedRegistry` proves that no side touches the other's references and counts them
over any interleaving of calls.

**The template expander** (`codegen.lua`): `Codegen` builds the declaration
bodies, `Template` proves that the order of `pairs` does not matter, and `Generate`
joins them. `TextOrder` is the order `table.sort` uses.

**Interface grouping** (`src/device.c`): `Device` is the grouping as a value and
what it means; `DeviceTables` is the loop on Lua tables by stack index
(`LuaTables`).

**Retries** (`src/socket.c`): `Retry` has the result triple of `send`, `write` and
`sendfile` and the caller that resends the rest.

## What was found false, and when it holds

* Each descriptor is closed once by its owner: false in two ways. A hook closes or
  unwraps the very socket whose `close` is calling it, because `close_lua` reads the
  descriptor before it drains the hooks (src/socket.c:955-964). Or a socket is used
  after the collector finalized it, say by the hook of another socket finalized
  later: `gc_lua` closes the descriptor but leaves its number and the metatable in
  place (src/socket.c:1942-1952). `SocketTheorems.CloseInsideOwnClose` and
  `SocketTheorems.CloseAfterCollection` are runs with two closes of one open;
  `SocketTheorems.DescriptorLaw` shows that there is no third way, and
  `SocketTheorems.ReuseGuard` gives the two tests a caller can make before the call.
* Deleting a hook through another socket leaves no pointer on its node: false in two
  ways. The hook heads the list of another open socket, whose head pointer stays on
  it (src/socket.c:1994-1998). Or its own socket is being drained, and it is the hook
  that runs, whose node `lls_gcfn_call` reads again (src/gcfn.c:40-47), or the hook to
  call next, which `call_gcfn` keeps in `next` (src/socket.c:910-914).
  `SocketHeap.World.DelGcfn` proves that a pointer dangles after the call if and only
  if one of these holds (`SocketMachine.LeftBehind`). `SocketHeap.DeleteForeignHead`
  and `SocketHeap.DeleteUnderDrain` are such runs. Every other deletion, also of a
  hook that another drain has still to call later, is safe
  (`SocketTheorems.DrainLaw`, `SocketHeap.World.CallGcfn`).
* The registry holds exactly one reference for each uncollected header and each
  uncollected buffer that was pushed to: false when a finalized buffer is pushed to
  and has to grow, since its reference was given back by its finalizer and nobody
  will release the new one (src/cmsghdrs.c:72-83 and 102-111).
  `AncillaryPool.GrowCollected` is such a run, and `AncillaryPool.Pool.Push` and
  `AncillaryPool.Pool.Run` prove that it is the only way.
* Hooks take any number of arguments and headers any number of descriptors: the C
  code pushes one value for each without asking for stack room, and Lua guarantees 20
  slots. The contracts of `GcfnClosure.Register`, `Rights.New` and `Rights.Read` give
  the slots used; the guaranteed room is exceeded by more than 18 hook arguments, more
  than 20 descriptors to pack and more than 19 to read.
* `again` means "fewer bytes than asked" in `send` and `write`: exactly for lengths
  below 2^32, because the difference is narrowed to an int
  (`Retry.AgainMeansPartial`, `Retry.LosesTheRest`); `sendfile` compares before
  narrowing and is right for every length.
* The expander's result is independent of the order of `pairs`: it is for templates
  whose markers occupy whole lines. In others an empty body can join the text around
  its marker into another marker; `Template.SpliceDecides` proves for one such place
  that the order shows if and only if it does, and `Template.OrderMatters` that any
  two keys have such a template.

## Reading guide

The documentation of `lls_gcfn_new` says that a nil error function makes the
message of a failing hook be ignored (src/llsocket.h:110-125); the code prints the
message of every failing hook and never calls the error function. The model
follows the code: the error function only decides how many results the closure asks
for.

System calls are parameters: an operation that asks the kernel for a descriptor
carries the number it would get, and a number that is negative or still open stands
for a failed call. `ok` arguments say whether the flag and query calls that follow
succeeded.

## Model

| member | source | states |
|---|---|---|
| CmsgLayout.AlignBounds | src/cmsghdrs.c:70 | CMSG_ALIGN gives a multiple of the alignment, not below the size and less than one alignment above it |
| CmsgLayout.AlignIsUnique | src/cmsghdrs.c:70 | there is no other such multiple |
| CmsgLayout.AlignOfLenIsSpace | src/cmsghdrs.c:44-51 | aligning the stored cmsg_len gives exactly CMSG_SPACE, which is what lets CMSG_NXTHDR find the next record; spaces are multiples of the alignment and hold header and payload |
| CmsgLayout.DecodeEncode | src/cmsghdrs.c:86-89 | a size written into k bytes is read back when it fits |
| CmsgLayout.EncodeAt | src/cmsghdrs.c:86-89 | byte i of a size in memory is its i-th digit to the base 256, the lowest first |
| CmsgLayout.Int32IsLittleEndian | src/cmsghdr.c:128-129 | the four bytes of an int32 are those of its two's complement, the lowest first |
| CmsgLayout.NarrowedKeepsLowBits | src/llsocket.h:207 | the conversion of a length to int keeps the low 32 bits |
| CmsgLayout.DecodeEncodeInt32 | src/cmsghdrs.c:86-89 | level and type survive their four bytes, negative values included |
| CmsgLayout.EncodeDecodeInt32 | src/cmsghdr.c:55-59 | four bytes read as an int32 and written again are the same bytes |
| CmsgStream.WrittenStarts | src/cmsghdrs.c:85-90 | a block with the header and payload in place reads back as the record, whatever its padding bytes hold |
| CmsgStream.WrittenHolds | src/cmsghdrs.c:85-91 | writing one record at the end leaves the packed form of the old records followed by the new one |
| CmsgStream.HoldsUnique | src/cmsghdrs.c:31-63 | the bytes determine the records: no second reading exists |
| CmsgStream.HoldsSize | src/cmsghdrs.c:50-54 | the length is the sum of the spaces of the records, and aligned |
| CmsgStream.HoldsDrop | src/cmsghdrs.c:50-54 | cutting the first n spaces leaves the packed form of the remaining records, at an aligned offset |
| CmsgStream.FirstHdrFinds | src/cmsghdrs.c:41-43 | CMSG_FIRSTHDR finds a header exactly when a record is pending, and it is the first one |
| CmsgStream.NextHdrSteps | src/socket.c:1251-1254 | CMSG_NXTHDR leads from each record to the next and stops exactly after the last |
| CmsgStream.WireFormat | src/cmsghdrs.c:85-90 | byte by byte: each pending record has cmsg_len over aligned header and payload, then the level, then the type, little-endian, and its payload behind the aligned header |
| CmsgStream.WalkHeaders | src/socket.c:1251-1254 | the receiver's walk meets every record once, in order, at aligned offsets, and ends exactly at the length |
| LuaRegistry.Registry.Ref | src/gcfn.c:101-104 | the value is anchored under a reference not in use before |
| LuaRegistry.Registry.Unref | src/gcfn.c:58-60 | the reference is released; one not in use changes nothing; LUA_NOREF comes back |
| Cmsghdrs.Alloc | src/llsocket.h:196-212 | the header object has the given level, type and bytes, takes one fresh reference, and its int length equals the payload's exactly up to INT_MAX |
| Cmsghdrs.CollectHeader | src/cmsghdr.c:99-108 | collection releases the payload's reference, if there is one, and no other |
| Cmsghdrs.Memmove | src/cmsghdrs.c:52-54 | overlapping source and target: the target gets the bytes the source had before |
| Cmsghdrs.WriteRecord | src/cmsghdrs.c:85-90 | header and payload land in the space at the offset; everything before and behind that space is untouched |
| Cmsghdrs.Cmsghdrs.constructor | src/cmsghdrs.c:113-124 | an empty buffer that anchors nothing |
| Cmsghdrs.Cmsghdrs.Reserve | src/cmsghdrs.c:72-83 | growth keeps the pending records, swaps exactly one reference for the block and makes the capacity the larger of old and new |
| Cmsghdrs.Cmsghdrs.Push | src/cmsghdrs.c:65-94 | the record joins the end of the queue, and its header and payload are in memory from the old length on; length grows by its space, capacity becomes the maximum; the block and its reference change exactly when the length passes the old capacity, and else no byte behind the new length changes |
| Cmsghdrs.Cmsghdrs.Shift | src/cmsghdrs.c:31-63 | nil exactly when nothing is pending; else the first record with level, type and payload intact, the rest pending in order, one new reference |
| Cmsghdrs.Cmsghdrs.Walk | src/socket.c:1251-1254 | walking the buffer as msg_control sees exactly the pending records and removes nothing |
| Cmsghdrs.Cmsghdrs.Collect | src/cmsghdrs.c:102-111 | collection releases the block's reference, if there is one, and no other |
| CmsgRuns.FirstInFirstOut | src/cmsghdrs.c:31-94 | over any run: what was pending and was pushed equals what was shifted followed by what is pending |
| CmsgRuns.Perform | src/cmsghdrs.c:31-94 | one operation on the real buffer is one operation on the queue, with capacity the maximum of old capacity and new length and references conserved |
| CmsgRuns.Run | src/cmsghdrs.c:31-94 | any run of one buffer on real bytes behaves as the queue; capacity is the highest length ever reached; references grow by one a shifted record and one for a buffer that has been pushed to |
| CmsgRuns.ShiftAll | src/cmsghdrs.c:31-63 | shifting until nil returns exactly the pending records, in the order a walk meets them, and ends at length 0 |
| Ancillary.HeadJoins | src/llsocket.h:196-212 | if references are conserved, they are with one more header and its new reference |
| Ancillary.HeadGoes | src/cmsghdr.c:99-108 | and with one header finalized and its reference released |
| Ancillary.BlockGoes | src/cmsghdrs.c:102-111 | and with one buffer finalized, pushed to before or not |
| Ancillary.BlockGrows | src/cmsghdrs.c:72-83 | and with a new block for an uncollected buffer, whose old reference is swapped for a new one or which takes its first |
| Ancillary.LeakBreaks | src/cmsghdrs.c:72-83 | but never with a new block for a collected buffer, whoever holds its old reference by then |
| Ancillary.RefsStay | src/cmsghdrs.c:31-94 | pushes in place and shifts out of a buffer change no one's references |
| AncillaryPool.Pool.Create | src/cmsghdr.c:111-119 | one more header with the given level, type and bytes; references stay conserved |
| AncillaryPool.Pool.CreateRights | src/cmsghdr.c:121-142 | nothing for no descriptors, else one more header over them; references stay conserved |
| AncillaryPool.Pool.CreateBuffer | src/cmsghdrs.c:113-124 | one more empty buffer that shares no block; references stay conserved |
| AncillaryPool.Pool.Push | src/cmsghdrs.c:65-94 | that buffer alone gains the header's record; references stay conserved if and only if the buffer is not a collected one that had to grow |
| AncillaryPool.Pool.Shift | src/cmsghdrs.c:31-63 | that buffer alone loses its first record, which becomes a header with its own reference; references stay conserved |
| AncillaryPool.Pool.DropHeader | src/cmsghdr.c:99-108 | the header's finalizer runs once; references stay conserved |
| AncillaryPool.Pool.DropBuffer | src/cmsghdrs.c:102-111 | the buffer's finalizer runs once; references stay conserved |
| AncillaryPool.Pool.Run | src/cmsghdrs.c:31-124 | over any run on any number of headers and buffers, up to a first push that grows a collected one: the registry holds exactly one reference for each uncollected header and each uncollected buffer pushed to, each for its own text or block, if and only if there is no such push |
| AncillaryPool.GrowCollected | src/cmsghdrs.c:72-83 | a run that finalizes a buffer and then pushes to it loses the balance |
| Ancillary.StepContents | src/cmsghdrs.c:31-124 | what each call makes, puts into a buffer, takes out of it and finalizes; it changes no other object |
| Ancillary.HeadersStay | src/cmsghdr.c:111-142 | over any run every header object keeps the level, type and bytes it was made with: the caller's, the caller's descriptors, or those of the record shifted |
| Ancillary.EachBufferIsAQueue | src/cmsghdrs.c:31-94 | over any run and any interleaving each buffer is first-in first-out |
| LuaRegistry.OthersMove | src/gcfn.c:58-60 | two parties that split the registry between them and leave each other's references alone still split it after either moves |
| SharedRegistry.CallSockets | src/socket.c:905-2125 | a socket call leaves headers, buffers and their references alone |
| SharedRegistry.CallMessages | src/cmsghdrs.c:31-124 | a header or buffer call leaves sockets, hooks and their references alone, and both sides stay consistent if and only if the call does not grow a collected buffer |
| SharedRegistry.SharedLaw | src/gcfn.c:58-60 | the one registry holds two references for each hook that waits or runs, one for each uncollected header and one for each uncollected buffer pushed to |
| SharedRegistry.Session | src/cmsghdrs.c:31-124 | for any interleaving of socket and message calls on fresh objects: each side is where its own calls lead, up to the first push that grows a collected buffer or exceeds the sizes of `int` and `size_t` |
| Rights.DecodeEncodeFds | src/cmsghdr.c:121-137 | a descriptor list survives its bytes |
| Rights.EncodeDecodeFds | src/cmsghdr.c:46-60 | every payload of a length that is a multiple of 4 is the encoding of the list it reads as |
| Rights.EncodePacks | src/cmsghdr.c:126-131 | the i-th descriptor takes bytes 4i to 4i+3 of the payload, little-endian |
| Rights.New | src/cmsghdr.c:121-142 | nil exactly for no descriptors; else one SCM_RIGHTS header whose payload has them all in order, four little-endian bytes each, with as many values on the stack beside the arguments |
| Rights.Read | src/cmsghdr.c:31-64 | for SCM_RIGHTS: nil exactly for an empty payload, a protocol violation exactly for a length that is no multiple of 4, else the list, with one value more than that on the stack; other headers give their bytes |
| Rights.SendThrough | src/cmsghdr.c:121-137 | rights, push behind any pending records, shift down to it and data give back exactly the list |
| SocketMachine.Step | src/socket.c:951-2125 | no operation, drains and callbacks included, raises the measure by more than its own size, and no object disappears |
| SocketSteps.AddKeeps | src/socket.c:2014-2020 | addgcfn prepends: lists stay duplicate-free and of registered hooks, and the history gains the hook at its head |
| SocketSteps.WithoutIsCut | src/gcfn.c:51-57 | removing the hook at any place joins exactly what came before it with what came after |
| SocketSteps.DeleteKeeps | src/socket.c:1983-2000 | delgcfn of a hook of any socket, listed or waiting in a drain, removes that hook from its list, keeps the order of the rest and keeps the invariant |
| SocketSteps.JoinKeeps | src/socket.c:2025-2125 | a new socket with an opened or wrapped descriptor keeps the invariant, its descriptor held by it alone where nobody held it |
| SocketSteps.PassingKeeps | src/socket.c:983-1006 | a descriptor opened and at once closed or handed out keeps the invariant |
| SocketSteps.SimpleKeeps | src/socket.c:1983-2125 | every operation without callbacks keeps the invariant and leaves drains in progress alone |
| SocketRuns.DrainKeeps | src/socket.c:905-915 | the drain loop, for any hooks at any nesting: it calls exactly the hooks of the list that nobody deletes before their turn, in order, each once, and leaves the list empty |
| SocketRuns.CallGcfnKeeps | src/socket.c:905-915 | call_gcfn keeps the invariant, closes the socket to new hooks and drains the list; on a drained socket it calls nothing |
| SocketRuns.CloseKeeps | src/socket.c:951-965 | close keeps the invariant: the release is by the holder exactly when the socket was neither disabled meanwhile nor finalized before |
| SocketRuns.UnwrapKeeps | src/socket.c:2025-2040 | unwrap keeps the invariant and disturbs no drain in progress |
| SocketRuns.GcKeeps | src/socket.c:1942-1952 | collection keeps the invariant and closes what the socket still holds |
| SocketRuns.StepKeeps | src/socket.c:905-2125 | every operation keeps the invariant and disturbs no drain that is in progress |
| SocketRuns.RunKeeps | src/gcfn.c:33-39 | so does every callback script, whether it ends or raises |
| SocketRuns.RunAllKeeps | src/socket.c:905-2125 | so does every program |
| SocketTheorems.ReachableKeeps | src/socket.c:905-2125 | the invariant holds in every reachable state, and no native call is left in progress |
| SocketEffects.CloseEffect | src/socket.c:951-965 | beyond what the hooks do, close of a socket with a descriptor closes the number read before they are called, once, hands out nothing and leaves the object a socket; of one without, it does nothing |
| SocketEffects.UnwrapEffect | src/socket.c:2025-2040 | beyond what the hooks do, unwrap hands out the number then in the field, once, closes nothing, and the object is no socket any more |
| SocketEffects.GcEffect | src/socket.c:1942-1952 | beyond what the hooks do, collection closes the number then in the field, once, leaves it in the field, and does not happen again |
| SocketEffects.OpenEffect | src/socket.c:1954-2125 | new, dup and accept: one more open socket without hooks around what the kernel gave; or the descriptor closed and no socket when its flags cannot be set; or nothing |
| SocketEffects.IdleEffect | src/socket.c:983-1057 | on a socket without a descriptor accept and acceptfd, like dup, do nothing and raise nothing |
| SocketEffects.AcceptFdEffect | src/socket.c:983-1028 | acceptfd hands the number out open, or closes it; no socket in either case |
| SocketEffects.WrapEffect | src/socket.c:2042-2085 | wrap makes one socket around the caller's number exactly when every query accepts it, and opens and closes nothing |
| SocketEffects.AddEffect | src/socket.c:2002-2023 | addgcfn on an open socket makes one registered hook with the caller's function, first in the list; on a drained one nothing |
| SocketEffects.DelEffect | src/socket.c:1983-2000 | delgcfn takes one listed or running hook out of its owner's list and changes no other hook; else nothing |
| SocketEffects.RaisesExactly | src/socket.c:951-2125 | an operation raises exactly when its object is no socket any more or the hook does not exist, and then does nothing; the collector never raises |
| SocketEffects.ScriptLaw | src/gcfn.c:33-39 | a callback performs its operations in order up to the first that raises, and nothing after it |
| SocketTheorems.HookLaw | src/socket.c:951-2023 | an open socket has called nothing and lists its surviving registrations, those not deleted before their call; a closed, unwrapped or collected one has called exactly the survivors, most recent first, each once |
| SocketTheorems.HookEnds | src/gcfn.c:26-62 | a hook is called or deleted or still registered, never two of these, and none is left registered on a drained socket |
| SocketTheorems.DrainLaw | src/socket.c:905-915 | close, unwrap or collection of an open socket calls exactly the hooks registered when it begins that nobody deletes before their turn, most recent first, whatever the functions do; none is left waiting |
| SocketTheorems.PendingDrainKept | src/socket.c:905-915 | nothing a callback does adds a call to a drain in progress or reorders it: of the hooks still waiting exactly those deleted meanwhile, through whichever socket, are gone |
| SocketTheorems.ClosedForGood | src/socket.c:1988-1992 | once closed, no program calls a further hook of the socket, and every later add and delete through it changes nothing |
| SocketTheorems.DescriptorLaw | src/socket.c:951-965 | with wraps of unheld descriptors: every close and hand-out is by the holder if and only if no close or unwrap disabled a socket inside its own close and none took the descriptor of a finalized socket |
| SocketTheorems.OwnershipLaw | src/socket.c:917-2125 | then live sockets own pairwise distinct open descriptors, and these are all the module still holds |
| SocketTheorems.Conservation | src/socket.c:917-2125 | each descriptor was acquired as often as it was released, plus one while it is held |
| SocketTheorems.EachDescriptorClosedOnce | src/socket.c:917-2125 | over any program: acquired exactly as often as closed or handed out, plus one exactly while a live socket has it |
| SocketTheorems.ReuseGuard | src/socket.c:951-965 | close or unwrap adds a fault to those of the calls its hooks make exactly when the socket still has a descriptor and either its own close is running or it was finalized; in both cases its drain has begun |
| SocketTheorems.CloseInsideOwnClose | src/socket.c:955-964 | a hook that closes its own socket makes close_lua close a descriptor twice |
| SocketTheorems.CloseAfterCollection | src/socket.c:1942-1952 | a hook that closes a socket finalized before makes close_lua close a descriptor twice, with no close inside its own close |
| SocketTheorems.DeleteNextHook | src/socket.c:905-915 | a hook that deletes, through another socket, the hook its own drain is to call next leaves a pointer behind, though no descriptor is misused |
| SocketObjects.AddAgrees | src/socket.c:2014-2020 | if the objects stand for a state, then the objects after the relinking of addgcfn stand for the state with the hook prepended |
| SocketObjects.DeleteAgrees | src/socket.c:1994-1999 | if the objects stand for a state, then the objects after the relinking of delgcfn stand for the state without the hook: of any socket, at any place of its list, waiting in a drain or not |
| SocketObjects.EndAgrees | src/gcfn.c:40-62 | likewise after the deletion of a node whose function has returned |
| SocketObjects.LinksAreNeighbours | src/gcfn.c:51-57 | while nothing dangles, prev and next of every linked node are its neighbours in its own socket's list |
| SocketObjects.NeverDangles | src/socket.c:905-915 | objects that stand for a state in which no hook was deleted under such a pointer have no head pointer, no node being called and no saved next without a reference |
| SocketObjects.ForeignHeadDangles | src/socket.c:1994-1998 | deleting the head of another open socket leaves a dangling head pointer |
| SocketObjects.HeldHookDangles | src/gcfn.c:40-47 | deleting the hook a drain is calling, or the one it calls next, leaves a dangling pointer in that drain |
| SocketObjects.HooksKeep | src/gcfn.c:101-104 | references taken and released by others leave the objects standing for the same state |
| SocketHeap.World.constructor | src/socket.c:903 | fresh objects show the empty state |
| SocketHeap.World.Detach | src/gcfn.c:51-57 | the neighbours are joined and nothing else changes |
| SocketHeap.World.GcfnDel | src/gcfn.c:44-62 | 0 and no change exactly when already deleted; else the node is detached, both references released and the marker set |
| SocketHeap.World.GcfnNew | src/gcfn.c:98-107 | a node linked to nothing with two fresh references, one to itself and one to its closure |
| SocketHeap.World.NodeAt | src/llsocket.h:97-102 | while nothing dangles, each linked node's prev and next are its neighbours in the list, NULL at the ends, and it still has ref_self |
| SocketHeap.World.SocketTells | src/socket.c:903-909 | gcfunc is the sentinel exactly when the drain has begun, else NULL or a node of the module |
| SocketHeap.World.HeadAt | src/socket.c:2014-2020 | while nothing dangles, gcfunc of an open socket is NULL exactly when its list is empty, else its first node |
| SocketHeap.World.AddGcfn | src/socket.c:2002-2023 | EBADF exactly on a drained socket, with no change; else the objects show the state with the new hook first |
| SocketHeap.World.DelGcfn | src/socket.c:1983-2000 | true exactly for a hook neither deleted nor called to its end, through a socket not drained, whosever hook it is; the objects show the deletion; if nothing dangled before, a pointer dangles afterwards if and only if the hook headed another open list or was the running or the next hook of a drain |
| SocketHeap.DeleteForeignHead | src/socket.c:1994-1998 | a run of four calls that ends with a dangling head pointer |
| SocketHeap.DeleteUnderDrain | src/socket.c:905-915 | a run of four calls, a close and a deletion by its first hook, that releases the node the drain keeps in next |
| SocketHeap.World.Callable | src/gcfn.c:31-34 | the function found is the one anchored under ref_fn; without one the protected call only fails |
| SocketHeap.World.GcfnCall | src/gcfn.c:26-42 | one call runs the function, swallows its error and deletes the node; on the sentinel nothing is called; the node called must be anchored unless something dangles |
| SocketHeap.World.CallGcfn | src/socket.c:905-915 | the pointer loop over saved next fields does to the objects exactly what the drain of the list says, re-entry included; as long as nothing dangles each node it goes on to is anchored when it is read |
| SocketHeap.World.CloseLua | src/socket.c:951-965 | refinement of close; the last number given to close(2) is the one read before the drain |
| SocketHeap.World.UnwrapLua | src/socket.c:2025-2040 | refinement of unwrap; the number returned is the field after the drain, and close(2) was called for nothing but what the hooks closed |
| SocketHeap.World.GcLua | src/socket.c:1942-1952 | refinement of collection; close(2) is called for the field after the drain |
| SocketHeap.World.AcquireSocket | src/socket.c:2087-2125 | a socket object around what the kernel gives, or no object and close(2) called for it |
| SocketHeap.World.AcquireDescriptor | src/socket.c:983-1028 | acceptfd returns exactly what the kernel gave, not closed, or closes it and gives -1 |
| SocketHeap.World.WrapLua | src/socket.c:2042-2085 | an object around the descriptor exactly when every query accepts it; nothing is closed |
| SocketHeap.World.Perform | src/socket.c:951-2125 | every operation on the objects is the machine's step, errors raised included |
| SocketHeap.World.RunScript | src/gcfn.c:33-39 | every callback script on the objects is the machine's run |
| SocketHeap.RunProgram | src/socket.c:905-2125 | any program on fresh objects ends with objects that show the machine's run, so every law above holds of them |
| SocketHeap.RegistryLaw | src/gcfn.c:58-60 | beside what it holds for others, untouched, the registry holds exactly two references for each hook that waits or runs, and none when every socket has been drained |
| GcfnClosure.Stack.Capture | src/gcfn.c:79-96 | an argument error exactly for a wrong error function or hook function, with the stack unchanged; else everything from argidx on and its count are in one closure |
| GcfnClosure.Stack.RunClosure | src/gcfn.c:64-77 | the closure calls the third upvalue with the rest as arguments, in order, asks for a result only with an error function, and needs one stack slot less than it has upvalues |
| GcfnClosure.Register | src/gcfn.c:64-96 | a hook registered with any arguments that fit the upvalue limit is called with exactly these, in order, its closure using two stack slots more than there are arguments |
| TextOrder.LessIsTotal | codegen.lua:67 | two different identifiers are ordered one way and not the other |
| TextOrder.LessMeans | codegen.lua:67 | one string is before another exactly when they agree up to a place where it ends or has the smaller character |
| TextOrder.IncreasingIsUnique | codegen.lua:63-67 | a set of identifiers has one strictly increasing listing |
| Codegen.LoadDecls | codegen.lua:53-72 | an error exactly when some line is no identifier, naming the first; else each identifier once, in strictly increasing order, and their declarations in that order |
| Codegen.WordChars | codegen.lua:54 | the characters of identifiers are the ASCII letters, digits and the underscore |
| Codegen.DeclarationLines | codegen.lua:41-46 | a declaration is a guard line, the call line with the name as text and as value, the end of the guard and an empty line |
| Codegen.BodyHolds | codegen.lua:69-72 | the body is the declarations one after another in the order of the identifiers |
| Codegen.BodyIsCanonical | codegen.lua:53-72 | the body depends on the set of identifiers, not on line order, repetition or the order of pairs |
| Codegen.DeclarationIsBody | codegen.lua:41-46 | a declaration has no '%' for gsub to interpret and no '#' that could start a marker |
| Codegen.BodiesAreBodies | codegen.lua:69-72 | nor has any body, and it is empty exactly for an empty list |
| Template.MarkersDiffer | codegen.lua:85 | at one place of a text there is a marker of at most one key |
| Template.OneMoreKey | codegen.lua:84-86 | one more global substitution turns the simultaneous replacement of some keys into that of those and the new one |
| Template.ExpandIsReplace | codegen.lua:84-86 | substituting the remaining keys in any order reaches the simultaneous replacement of all |
| Template.Confluence | codegen.lua:84-86 | any two orders of pairs give the same text, the simultaneous replacement |
| Template.NoMarkerLeft | codegen.lua:84-86 | no marker of any key is left anywhere in the result |
| Template.SpliceDecides | codegen.lua:84-86 | around one marker with an empty body, the two orders of two keys differ if and only if the text before it joined to the text behind it holds the other key's marker |
| Template.ReplaceIsLineByLine | codegen.lua:84-86 | where markers occupy whole lines, the replacement puts the body for every marker line and keeps every other line, the last one even if unterminated |
| Template.GeneratedText | codegen.lua:80-90 | for whole-line markers, any order of pairs gives exactly that text |
| Template.GsubChanges | codegen.lua:85 | where a marker occurs, substituting a body for it changes the text |
| Template.ExpandTemplate | codegen.lua:80-90 | the loop performs one substitution a key in some order of all keys, and its result is the simultaneous replacement where empty bodies stand at line starts |
| Template.OrderMatters | codegen.lua:84-86 | for any two keys, one with an empty body, some template gives different texts in the two orders |
| Generate.KeysAreKeys | codegen.lua:74 | the key of a variable file holds word characters only, so it means itself in the pattern |
| Generate.KeysDiffer | codegen.lua:74 | different files have different keys |
| Generate.KeyNames | tmpl/llsocket_tmpl.c:76-97 | the keys of the eight variable files are those of the template's markers |
| Generate.OwnFiles | codegen.lua:48-78 | exactly these eight keys are filled, each from its own file, and the line `#define` with the key stands for that file's body |
| Generate.LoadAll | codegen.lua:48-78 | an error exactly when a file is missing or has a bad line, naming the first missing file or the first bad line of the first bad file; else one canonical body a file under the file's key |
| Generate.DeclsAreCanonical | codegen.lua:48-78 | files that list the same identifiers give the same declarations |
| Generate.GeneratedFileIsDeterministic | codegen.lua:48-90 | the generated file is the same for any order or repetition of the lines and any orders of pairs, and is the template with its marker lines replaced |
| Generate.GenerateFile | codegen.lua:48-92 | the main chunk writes such an expansion, with each of the template's eight keys filled from its own file, exactly when every variable file is readable and valid, the template is readable and the output can be opened; the first failure in this order is reported |
| Device.AppearsWhenSeen | src/device.c:184-194 | an interface is in the result exactly when some entry with an address names it |
| Device.GroupsByNameAndFamily | src/device.c:196-257 | its inet and inet6 lists are exactly the name's entries of that family, in list order, and a list exists exactly when it is not empty |
| Device.FirstEntryGivesFlags | src/device.c:189-194 | besides ether the attributes are exactly what the first entry of the name with an address tells: a true field for each known flag that is set, the index unless it is 0, the mtu if there is an answer |
| Device.FirstTells | src/device.c:48-167 | key by key, what a new interface table gets |
| Device.AddressTells | src/device.c:234-254 | key by key, what an address table holds: host and mask where the kernel named them, broadcast and peer address where a flag announces them, too, and nothing else |
| Device.ListTells | src/device.c:196-257 | the i-th IPv4 or IPv6 entry of a name is told by the table in its place of the list under inet or inet6 |
| Device.LastLinkGivesEther | src/device.c:207-217 | the hardware address is the last one reported for the name |
| Device.NothingLost | src/device.c:184-258 | over all interfaces the lists of a family hold as many addresses as the kernel listed |
| LuaTables.LuaState.RawGet | src/device.c:34-35 | the key on top is replaced by its value in the table at the index |
| LuaTables.LuaState.RawSet | src/device.c:38-40 | two values are popped and that one field of that one table changes |
| LuaTables.LuaState.SetField | src/device.c:150 | that one field of the table on top changes and the stack does not |
| DeviceTables.AttrsAdded | src/device.c:190-193 | writing fields into an interface table changes that interface's attributes in the result and nothing else |
| DeviceTables.AddressAppended | src/device.c:255 | appending an address table extends that one list of that one interface |
| DeviceTables.GetTable | src/device.c:32-46 | one table is pushed: the one under the name, or a new empty one put there; 1 exactly when it is new |
| DeviceTables.AddFlags | src/device.c:48-143 | exactly the known flags that are set become true fields |
| DeviceTables.EnterIface | src/device.c:188-194 | the entry's interface table is on top, made with the entry's own flags if the name is new |
| DeviceTables.EnterList | src/device.c:196-205 | with the absolute index above the result, the family's list of the current interface is found or made |
| DeviceTables.AddEntry | src/device.c:184-258 | on every path of a round the stack is as before and the result gained exactly the entry |
| DeviceTables.GetIfAddrs | src/device.c:169-262 | nil and the error when the listing fails; else one new table that shows the grouping of the whole list without sharing, older tables untouched |
| DeviceTables.ResultTells | src/device.c:234-257 | in the result, the address table in an entry's place of its list tells that entry |
| DeviceTables.ResultTellsInterface | src/device.c:188-194 | in the result, besides ether and the lists, an interface table tells its first entry |
| Retry.AgainMeansPartial | src/socket.c:1118-1121 | `again` tells a partial send for every count the kernel takes if and only if the length is below 2^32 |
| Retry.LosesTheRest | src/socket.c:1118-1121 | for every longer message a kernel can take all but 2^32 bytes and the caller is told to stop |
| Retry.Connection.Send | src/socket.c:1085-1123 | EINVAL for an empty message; else EAGAIN is `again` with nothing sent and no error, an errno is the error, and a count is the prefix delivered; `again` after a count exactly when the rest is no multiple of 2^32 |
| Retry.Connection.SendFile | src/socket.c:1295-1330 | EINVAL for no length; else the kernel's answer decides as in send; the counted bytes of the file from the offset are delivered, and `again` holds exactly when fewer than asked were |
| Retry.Connection.SendAll | src/socket.c:1707-1743 | the caller's loop delivers a prefix, once and in order; if it stops without error below 2^32 bytes it is the whole message; it stops with an error only at the kernel's first error or when the connection is gone |
| Retry.Connection.SendWholeFile | test/socket/send_recv_test.lua:112-127 | the sendfile loop that stops without error has delivered exactly the requested part of the file; it stops with an error only at the kernel's first one or when the connection is gone |

## Left out

- Cmsghdrs.Cmsghdrs.Push: does not model payloads above INT_MAX, whose int length no longer is the payload's, nor totals at or above the range of size_t; both are preconditions.
- SocketTheorems.DescriptorLaw: the kernel's numbers are those the module has opened or wrapped; descriptors the Lua program opened otherwise are seen only when wrapped.
- Template.Confluence: the condition on empty bodies is sufficient for any template; that it decides is proved for one splice and two keys only.
- SharedRegistry.Session: hook functions call socket operations only, so header and buffer calls are interleaved with whole socket calls and not inside their hooks.
- A variable file whose reading fails half way, and a write that fails after the output was opened.
- LuaRegistry.Registry.Unref: does not model that releasing one reference twice puts its slot on luaL_ref's free list twice, so that a later reference may be one in use. Hooks and headers release theirs once; the only code that can release one twice is the push that grows a collected buffer, where the run laws end.
- Byte order: header fields and descriptors are little-endian; `cmsg_len` comes first in the header, as on Linux.
- The NULL block of a new buffer is an empty array. What happens after the collector takes a node under a dangling pointer is not modelled: the node is read as it was released, which is one thing the C code may find. The block of a finalized buffer is still there.
- luaL_ref is an unused positive reference; which one is left open. Registry slot 0, which the sentinel's zero fields name, holds nothing callable.
- Draining the sentinel (unwrap after close, or close inside the own callback) calls nothing and prints a message; printing is not modelled.
- The error function given to addgcfn is never called by the code and nothing is claimed about it.
- Results of closefd and of shutdown(2), and the errno objects of failed calls: only success, failure and what is held afterwards are modelled; close(2) always gives the number back.
- family, socktype and protocol of socket objects, addresses returned by accept, and the nonblocking flag.
- accept4 and accept are one operation: its failure after the descriptor exists is the `ok` argument.
- pair_lua and the module-level close on a number: they act outside the ownership the laws are about.
- sendto, sendmsg, sendfd and the BSD variants of sendfile repeat the result triple of send or sendfile.
- recvmsg refilling a control buffer, and buffers it truncates: only buffers built by push are modelled.
- src/msghdr.c, socket options, multicast, select and timeouts, connect, bind, address and name lookup, inet and unix addresses, iovec, environment, constants and tostring methods.
- Bit values of interface flags: flags are named, and a platform without one never reports it; the chain of tests is a loop over the names.
- Interface names are whole strings: the cut to IFNAMSIZ in the MTU query is part of its answer.
- A caller that retries forever: the kernel's answers are a finite list, after which the connection is gone.
- Negative lengths and offsets given to sendfile.
