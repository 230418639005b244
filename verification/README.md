# A model of the Xeros kernel

Xeros is a small teaching kernel for 32-bit x86: it boots by inflating itself, runs processes
that exchange messages by rendezvous, sleep and take signals, and brings a heap allocator and
a C library of its own. This project models its algorithms in Dafny and proves what they are
meant to guarantee. Code that works in place is modelled in place, by classes and methods with
loops; only `huft_build` works on sequences and indices where the source has arrays and pointers.
Each method is proved against a function on values, and the theorems are about those functions and
about all their runs. `basics` holds what all modules share, `bits` the powers of two and bit lists.

**Inflating** (`huffman`, `huft_*`, `deflate`, `window`, `bitbuffer`, `fixed_codes`, `inflate`,
`crc32`). `Deflate.RefInflate` is a reference decoder for RFC 1951 on a list of bits: canonical
codes by their definition, copies from the unbounded output, no tables, no window and no bit
buffer. The gzip code is proved to do the same with multi-level tables, a circular window and a
buffer that reads ahead. `encoder` says what a stream is from the side of its writer, with the
constants of RFC 1951 written out once more and nothing that reads a bit; `encoded` and `encodings`
prove that the reference decoder gives back whatever data the blocks of a stream stand for, that all
data have such a stream, and what is refused. `crc_theorems` pins the checksum by its check values
and by what it tells apart, and `unzip` puts inflating and the trailer of a gzip member together.
The tables are built by `HuftBuild.Build`; the invariant is that every
slot whose bits come before the current code is final, with the current code the reversal of the
variable i. The search for the size of a subtable (`++j < z`, without a test whether j already
equals z) can make a subtable wider than the link to it can address, even for
complete codes. `HuftLayout.Overflows` says for which lengths and lookup sizes; those that
inflate itself uses are not among them, so decoding is right for every stream.

**Processes** (`kernel_*`). `KernelSteps` gives each request as a function on a process table
whose queues are sequences; `KernelState.Inv` says that every process is in exactly the list its
state names, that partners are alive and registered, and that no rendezvous is missed. It is an
invariant of all runs, and the exact conditions under which a signal or a key breaks it are proved;
`KernelReached` gives runs from booting that meet them. `KernelTable.Table` is the table as the kernel keeps it, with one `next` field per PCB shared by
all lists and a delta list for sleepers; its methods are proved to do the same. `kernel_outcomes`,
`kernel_schedule` and `kernel_waits` say what each request comes to for every process, in terms of
states, masks and results only.

**Memory** (`heap`, `heap_memory`). First fit with coalescing, on block lists and on headers in
memory; the bytes that callers hold never overlap (`Heap.HeldApart`). `Kfree` takes a flag for the one line that mends a backward link of the wrong node.

**Pids** (`pid_tree`, `pid_balance`, `pid_nodes`, `pid_loss`). The AVL tree as values and as nodes on the heap.
A flag tells the right rotation as written, which drops the old root, from the repaired one.

**Signals** (`signal`, `signal_effects`). Frames in the memory of a process, masks as 32-bit words,
and all well nested runs of handlers: what they restore, how deep they nest, and that none starts
without a signal.

**Library** (`qsort`, `numerals`, `doprnt`, `scan`, `round_trip`) and **keyboard** (`keyboard`).

Where the code departs from what the code around it is meant to do, the model keeps the code as
it is, by a flag or a condition, and says exactly when the departure matters:

- `boot/zBoot/inflate.c:229`: subtables too wide for their link (`HuftFail.TablesDecodeIff`).
- `boot/zBoot/inflate.c:264`: for incomplete codes v[] is read beyond the used symbols; such table
  entries are marked as never written, and nothing is claimed about decoding with them.
- `c/disp.c:332-338`: the right rotation (`PidTree.WrittenLosesIff`, `PidLoss.LivePidsLost`).
- `c/mem.c:134-135`: the backward link after merging upwards (`HeapMemory.MemoryManager.Kfree`).
- `c/mem.c:57-69`: 16 bytes that belong to no block afterwards (`Heap.AllocAccount`).
- `c/signal.c:74-79`: a process readied without leaving its list (`KernelRuns.SignalKeepsIff`,
  `KernelReached.TrapReached`).
- `c/kbd.c:242`: a request told by its count (`Keyboard.AsWrittenDiffersIff`, `Keyboard.StrayKey`),
  and what it does to the lists (`KernelReached.ReaderKeepsIff`).
- `c/sleep.c:18`: the loop reads the head of a list that may have become empty, exactly if all
  sleepers are due on this tick (`KernelTheorems.TickEmptiesIff`, `KernelTable.Table.TickOnce`,
  `KernelReached.NullReadReached`).
- `lib/libxc/doscan.c:150`: the characters of a number are copied without a bound
  (`RoundTrip.ScanReadsBack`, `Scan.NarrowFits`).

The comment at `boot/zBoot/inflate.c:110-111` says that all-zero lengths give 2. The code at
line 141 gives 0, and so does the model.

Parameters named `repaired` or `asWritten` tell the two versions of such a line apart; ghost
parameters and results carry the abstract state along.

## Model

| member | source | states |
|---|---|---|
| `Huffman.PrefixFree` | boot/zBoot/inflate.c:113-133 | for any lengths that are not oversubscribed, no bit string starts with the canonical codes (section 3.2.2 of RFC 1951) of two symbols |
| `Huffman.DecodeOfCode` | boot/zBoot/inflate.c:353-362 | the reference decoder gives back every used symbol from its code, whatever bits follow |
| `Huffman.CodeInterval` | boot/zBoot/inflate.c:196-214 | a code of length k, read as a position among all 16-bit strings, is exactly the stretch between the codes before and after it; codes fit their length |
| `HuftSort.CountLengths` | boot/zBoot/inflate.c:135-140 | c[l] is the number of symbols of length l |
| `HuftSort.UnusedPatterns` | boot/zBoot/inflate.c:168-174 | there is no result exactly if the Kraft sum exceeds 1; otherwise the result is the number of unused patterns of the longest length |
| `HuftSort.KraftFromLeft` | boot/zBoot/inflate.c:168-174 | the Kraft sum falls short of 1 by exactly the patterns left over at the longest length |
| `HuftSort.Offsets` | boot/zBoot/inflate.c:178-183 | x[k] is the number of used symbols shorter than k |
| `HuftSort.SortSymbols` | boot/zBoot/inflate.c:187-192 | v is the stable sort of the used symbols by code length |
| `HuftPush.SizeTable` | boot/zBoot/inflate.c:222-237 | the index bits of a new subtable: a table below the limit is exactly filled by the codes that fit it; it is larger than a link can address, which the loop condition `++j < z` permits, exactly if the current code is too long for a table of l bits or the codes of its length do not fill one |
| `HuftPush.PushSub` | boot/zBoot/inflate.c:216-259 | making and linking a subtable keeps the whole table invariant; the slot the link is stored in is that of the current prefix |
| `HuftMake.MakeTables` | boot/zBoot/inflate.c:216-259 | afterwards the table on top of the stack is the one the current code belongs in, and every slot passed so far is still final |
| `HuftPlace.FillSlots` | boot/zBoot/inflate.c:278-281 | the slots start, start + f, ... hold the entry, the others are unchanged |
| `HuftPlace.FilledSlots` | boot/zBoot/inflate.c:278-281 | those are exactly the slots whose index bits start with the rest of the code |
| `HuftPlace.ReverseIncrement` | boot/zBoot/inflate.c:283-286 | the backwards increment of the reversed code is the reversal of the next code |
| `HuftPlace.IncValue` | boot/zBoot/inflate.c:283-286 | read forwards that next code is the number plus one, or 0 after the last |
| `HuftBackup.BackUp` | boot/zBoot/inflate.c:288-293 | pops exactly to a table whose prefix the next code starts with |
| `HuftBuild.PlaceLength` | boot/zBoot/inflate.c:207-297 | handing out all codes of one length keeps the invariant that every slot before the current position is final |
| `HuftBuild.Build` | boot/zBoot/inflate.c:135-302 | returns 2 exactly if the lengths are oversubscribed and 0 exactly if they are complete, all zero, or one-bit codes; the tables satisfy the table invariant, and no subtable is wider than its link exactly if the code does not overflow |
| `HuftDecode.WalkDecodes` | boot/zBoot/inflate.c:353-362 | walking tables with no such wide subtable finds, for every bit string, the symbol of the canonical code it starts with and drops exactly the bits of that code, or finds the invalid entry if there is none |
| `HuftDecode.CompleteDecodesAll` | boot/zBoot/inflate.c:353-362 | with a complete code every bit string starts with some code |
| `HuftFail.TablesDecodeIff` | boot/zBoot/inflate.c:229-234 | for a complete code the tables decode every bit string exactly if no subtable overflows, a condition on the lengths and the lookup size alone |
| `HuftFail.SmallestOverflow` | boot/zBoot/inflate.c:229-234 | the complete code with lengths 1, 2, 3, 3 looked up one bit at a time is not decoded right |
| `HuftLayout.BigTablesDoNotOverflow` | boot/zBoot/inflate.c:87-88 | no code overflows if the lookup size is at least half its longest length |
| `HuftLayout.FewSymbolsDoNotOverflow` | boot/zBoot/inflate.c:87-88 | no complete code overflows with fewer symbols than the first table has slots, so none that inflate builds does |
| `FixedCodes.FixedLiteralsComplete` | boot/zBoot/inflate.c:504-515 | the fixed literal lengths form a complete code of 288 symbols |
| `FixedCodes.FixedDistancesUsable` | boot/zBoot/inflate.c:518-529 | the 30 fixed distance codes of five bits are not oversubscribed |
| `FixedCodes.TablesReady` | boot/zBoot/inflate.c:675-688 | the tables of any code that inflate accepts are ready to decode with |
| `Deflate.CopyRepeats` | boot/zBoot/inflate.c:398-418 | after a copy every byte of the output equals the one `distance` before it, also where source and destination overlap (section 3.2.3 of RFC 1951) |
| `Deflate.LengthRangesTile` | boot/zBoot/inflate.c:51-57 | the ranges of the length symbols follow each other without gap or overlap |
| `Deflate.DistanceRangesTile` | boot/zBoot/inflate.c:58-65 | the ranges of the distance symbols follow each other and end at 32768 |
| `Window.Memcpy` | boot/zBoot/misc.c:172-179 | the bytes from d on are at w, for source and destination that the forward loop may copy between |
| `Window.ReadBack` | boot/zBoot/inflate.c:395-400 | the window byte at (w - distance) mod 32768 is the byte `distance` back in the whole output |
| `Window.CopyBlock` | boot/zBoot/inflate.c:399-412 | a block of window bytes copied at once or one by one appends the same bytes as copying from the unbounded output |
| `BitBuffer.TakeByte` | boot/zBoot/inflate.c:84-84 | NEEDBITS keeps b equal to the next k unread bits, of which there are at most 23 as long as no more than 16 are asked for |
| `BitBuffer.Dump` | boot/zBoot/inflate.c:85-85 | DUMPBITS keeps b equal to the next k unread bits |
| `BitBuffer.SyncedBound` | boot/zBoot/inflate.c:84-85 | b < 2^k with k at most 23, so b fits a word; the bits not consumed are the k buffered and those of the bytes not taken |
| `BitBuffer.GiveBack` | boot/zBoot/inflate.c:793-799 | giving whole bytes back leaves exactly the bits after the next byte boundary |
| `Inflate.Inflater.constructor` | boot/zBoot/inflate.c:778-780 | starts with the zeroed window and nothing read or written |
| `Inflate.Inflater.NeedBits` | boot/zBoot/inflate.c:84-84 | fails only if the input ends; otherwise k reaches n and the buffer still holds the next unread bits, within a word |
| `Inflate.Inflater.GetBits` | boot/zBoot/inflate.c:84-85 | the number an n-bit field of the reference decoder has |
| `Inflate.Inflater.FlushOutput` | boot/zBoot/inflate.c:46-46 | everything in the window is written out and seen by the CRC register |
| `Inflate.Inflater.FollowLinks` | boot/zBoot/inflate.c:353-361 | reaches the first slot that is no link, having dropped exactly the bits of its table; what the slot says about the symbol is right |
| `Inflate.Inflater.DecodeSymbol` | boot/zBoot/inflate.c:353-362 | the symbol of the reference decoder and the bits after its code; on an error the reference decoder has no symbol there, or an invalid one |
| `Inflate.Inflater.CopySlow` | boot/zBoot/inflate.c:410-412 | the byte by byte copy appends bytes copied from the unbounded output |
| `Inflate.Inflater.CopyBytes` | boot/zBoot/inflate.c:398-418 | the chunked copy around the window, with its flushes, appends n bytes each `distance` back in the unbounded output, for distances from 1 to 32768 |
| `Inflate.Inflater.InflateCodes` | boot/zBoot/inflate.c:328-430 | decodes a compressed block exactly like the reference decoder |
| `Inflate.Inflater.InflateStored` | boot/zBoot/inflate.c:434-486 | decodes a stored block exactly like the reference decoder, complement check included |
| `Inflate.Inflater.InflateFixed` | boot/zBoot/inflate.c:490-540 | decodes a block with fixed codes exactly like the reference decoder |
| `Inflate.Inflater.GetCounts` | boot/zBoot/inflate.c:574-589 | the three counts of a dynamic block; more than 286 or 30 codes are refused |
| `Inflate.Inflater.ReadOrder` | boot/zBoot/inflate.c:593-601 | the code length lengths, in their own order, zero for those not sent |
| `Inflate.OrderIsPermutation` | boot/zBoot/inflate.c:49-50 | every code length is sent at exactly one place of that order |
| `Inflate.Inflater.ReadLengths` | boot/zBoot/inflate.c:616-660 | the run-length coded lengths are those of the reference decoder, with repeats across the two codes |
| `Inflate.Inflater.BuildCodes` | boot/zBoot/inflate.c:675-702 | succeeds exactly if both codes are acceptable, with tables ready to decode with |
| `Inflate.Inflater.InflateDynamic` | boot/zBoot/inflate.c:544-718 | decodes a block with dynamic codes exactly like the reference decoder |
| `Inflate.Inflater.InflateBlock` | boot/zBoot/inflate.c:722-765 | decodes one block exactly like the reference decoder, or reports its type as bad |
| `Inflate.Inflater.InflateBlocks` | boot/zBoot/inflate.c:783-791 | decodes blocks up to and including the last one exactly like the reference decoder |
| `Inflate.Inflater.Finish` | boot/zBoot/inflate.c:793-802 | the output is complete and inptr is just past the last byte used |
| `Inflate.Inflater.Run` | boot/zBoot/inflate.c:769-810 | success means that the flushed output is that of the reference decoder and that the input stands at the byte boundary after it; failure means that the reference decoder fails or that less than two bytes follow the data; reading an entry that nothing wrote, of an empty or one-bit code, counts as a failure where the C code goes on; so it succeeds whenever the reference decoder does with two bytes to spare |
| `Encoded.LengthSplitIs` | boot/zBoot/inflate.c:51-57 | every length from 3 to 258, split by halving as section 3.2.5 of RFC 1951 lays its symbols out in rows of four, has the symbol, base and extra bits of the tables |
| `Encoded.DistanceSplitIs` | boot/zBoot/inflate.c:58-65 | so has every distance from 1 to 32768, in rows of two |
| `Encoded.FixedLiteral` | boot/zBoot/inflate.c:504-515 | the fixed literal code of a symbol is the canonical one for the fixed lengths: 8 bits from 00110000, 9 from 110010000, 7 from 0000000, 8 from 11000000 |
| `Encoded.FixedDistance` | boot/zBoot/inflate.c:518-529 | the fixed distance code of a symbol is its number in five bits |
| `Encoded.TokensRead` | boot/zBoot/inflate.c:328-430 | literals and copies, encoded with any codes that have their symbols, decode to the data they stand for and end where the encoding ends |
| `Encoded.StoredRead` | boot/zBoot/inflate.c:434-486 | stored bytes after any padding to the byte boundary decode to themselves |
| `Encoded.HeaderRead` | boot/zBoot/inflate.c:574-702 | code lengths sent in runs, with the lengths of their own code in the border order, arrive as they were; both codes must be ones that can be decoded with |
| `Encoded.BlockRead` | boot/zBoot/inflate.c:722-765 | a block of type 0, 1 or 2, written as stored, with the fixed codes or with codes of its own, decodes to the data it stands for |
| `Encoded.InflateInverts` | boot/zBoot/inflate.c:769-810 | if the bits of the input begin with blocks, only the last marked as such, that stand for some data, exactly that data comes out and what follows the last block is left |
| `Encodings.EveryDataInflates` | boot/zBoot/inflate.c:769-810 | for all data there is an input that inflates to it |
| `Encodings.CutOffRefused` | boot/zBoot/inflate.c:769-810 | an encoding that is cut off before its end never inflates |
| `Encodings.HeaderIff` | boot/zBoot/inflate.c:675-702 | the codes of a dynamic block are accepted exactly if each is complete, a single code of one bit, or empty |
| `Encodings.LengthCodeRefused` | boot/zBoot/inflate.c:603-612 | the code for the lengths is refused if it is none of these |
| `Encodings.CountsRefused` | boot/zBoot/inflate.c:584-589 | more than 286 literal and length codes or more than 30 distance codes are refused |
| `Encodings.ComplementRefused` | boot/zBoot/inflate.c:457-467 | stored bytes are refused if their number is not repeated in complement |
| `Encodings.ReservedTypeRefused` | boot/zBoot/inflate.c:754-764 | block type 3 is refused |
| `Encodings.HighSymbolRefused` | boot/zBoot/inflate.c:353-362 | a code for a symbol from 286 on is refused |
| `Crc32.Pattern` | boot/zBoot/misc.c:293-296 | the exclusive-or pattern of the CRC-32 polynomial, reflected |
| `Crc32.TableEntry` | boot/zBoot/misc.c:300-310 | the bit-feeding loop with its sentinel computes eight shift-and-reduce steps of the byte |
| `Crc32.MakeCrc` | boot/zBoot/misc.c:280-311 | all 256 entries are eight steps of their index |
| `Crc32.ShiftRegister.Reset` | boot/zBoot/misc.c:207-208 | restarts the register and returns 0 |
| `Crc32.ShiftRegister.Update` | boot/zBoot/misc.c:199-217 | the table-driven register is that of feeding the message bits one by one |
| `CrcTheorems.ByteChangeDetected` | boot/zBoot/misc.c:199-217 | two messages that differ in one byte, wherever it is, have different checksums |
| `CrcTheorems.LeadingZeroDetected` | boot/zBoot/misc.c:205-208 | a zero byte in front of any message changes its checksum |
| `CrcTheorems.CheckValue` | boot/zBoot/misc.c:199-217 | the checksum of "123456789" is CBF43926 |
| `CrcTheorems.Residue` | boot/zBoot/misc.c:199-217 | every message with its checksum behind it, lowest byte first, leaves the register at DEBB20E3 |
| `Unzip.WordIff` | boot/zBoot/gzip.h:216-217 | four bytes read as a word are that word exactly if they are its bytes, lowest first |
| `Unzip.ReadEight` | boot/zBoot/unzip.c:148-150 | the next eight bytes, exactly if there are eight |
| `Unzip.CheckTrailer` | boot/zBoot/unzip.c:143-173 | accepts exactly if the next eight bytes are the checksum of the output and its length modulo 2^32 |
| `Unzip.UnzipMember` | boot/zBoot/unzip.c:95-180 | what is accepted is what inflates and has its trailer behind it; every input that begins with blocks for some data and, from the next byte on, the trailer of that data is accepted with that data as output |
| `Crc32.RegisterOfPieces` | boot/zBoot/misc.c:199-217 | however a message is cut into updates, the register is that of the whole message (section 8 of RFC 1952) |
| `KernelState.OnePlace` | c/msg.c:116-183 | no process is in two lists |
| `KernelState.InAListIff` | h/xeroskernel.h:126-146 | a process is in some list exactly if it is READY, SLEEPING, SENDING, or RECEIVING from someone in particular |
| `KernelState.StoppedQueuesEmpty` | c/disp.c:264-276 | nobody queues to send to or receive from a stopped process |
| `KernelState.NobodyWaitsForAReceiver` | c/msg.c:39-58 | nobody is queued to send to a process that waits to receive from it or from any |
| `KernelTurn.NextFreeIs` | c/create.c:27-31 | the first free pid is found after at most as many steps as there are busy pids, across the wrap at 2^32 |
| `KernelTurn.FreshPid` | c/create.c:27-31 | it is not 0, fits a word and belongs to no live process |
| `KernelRuns.HandleKeeps` | c/disp.c:65-180 | every request keeps the whole invariant: each process in exactly the place its state says, pids registered, no missed rendezvous, sleepers sorted, one process running |
| `KernelRuns.SelectKeeps` | c/disp.c:182-194 | so does choosing the next process; idle is chosen only if the queue is otherwise empty |
| `KernelRuns.SignalKeepsIff` | c/signal.c:54-86 | a signal, as written, keeps the invariant exactly if it does not go to a process blocked in a list that takes it |
| `KernelRuns.TrappedBreaks` | c/signal.c:74-80 | otherwise the process ends up ready and still in the list it was blocked in |
| `KernelReached.SleeperTrapped` | c/signal.c:74-80 | every process that goes to sleep while it allows a signal is such a target for whoever runs next |
| `KernelReached.SenderTrapped` | c/signal.c:74-80 | so is every sender that finds no receiver |
| `KernelReached.TrapReached` | c/signal.c:74-80 | a run of four requests from booting ends in a state where the signal breaks the invariant |
| `KernelReached.ReaderKeepsIff` | c/kbd.c:242-244 | readying the reader without looking at its state keeps the invariant exactly if it waits in no list, or is ready and last |
| `KernelRuns.BootInv` | c/init.c:121-152 | the invariant holds when the first process runs |
| `KernelRuns.EveryRun` | c/disp.c:46-196 | in every state that any run of requests after booting reaches: each process at most once in all lists, in the one its state says; no queue at a stopped process; no missed rendezvous |
| `KernelReached.BootedIs` | c/init.c:136-152 | after booting the root process with pid 1 runs, idle with pid 2 is ready, and all other entries are stopped |
| `KernelOutcomes.SignalOutcome` | c/signal.c:54-86 | a signal to another live process sets its bit in the pending mask exactly if it is allowed, and no other bit; it makes a blocked process that allows it ready with -129, or with its number if it was waiting for a signal; nothing else about any process changes but that the caller is ready with 0 |
| `KernelOutcomes.SelfSignalOutcome` | c/signal.c:54-86 | a signal to itself is recorded the same way and has no other effect |
| `KernelOutcomes.SignalFails` | c/disp.c:124-136 | a bad signal number gives the caller -12, or else a pid that no process has -33, and nothing else happens |
| `KernelOutcomes.CreateOutcome` | c/create.c:27-114 | a create takes the first stopped entry and the first pid from nextPid on, modulo 2^32, that is not 0 and that nobody has; the new process is ready with clean masks, the caller gets the pid, no other process changes |
| `KernelOutcomes.CreateFails` | c/create.c:55-113 | without memory or without a stopped entry a create only returns the error code |
| `KernelOutcomes.StopOutcome` | c/disp.c:260-290 | when a process stops, exactly those that wait to send to it or to receive from it are ready with the error code, senders first in order of arrival, and nobody else changes |
| `KernelOutcomes.TickOutcome` | c/sleep.c:13-25 | a tick makes exactly the sleepers with one tick left ready, with result 0 |
| `KernelWaits.StaysParked` | c/disp.c:137-167 | a process that waits for a signal or for the keyboard does not change in any way through any run without a signal that it allows and without the end of its read |
| `KernelWaits.SigWaitEnds` | c/disp.c:137-139 | so after SIGWAIT; the first signal that it allows makes it ready or running with the number as its result |
| `KernelWaits.ReadEnds` | c/disp.c:158-167 | so during a read; its end gives the count and the last place in the ready queue |
| `KernelWaits.AtOnce` | c/disp.c:178-180 | the requests that end at once give their result, and change no other process |
| `KernelTheorems.TicksRoundUp` | c/sleep.c:34-34 | milliseconds are rounded up to whole time slices |
| `KernelTheorems.TickLeft` | c/sleep.c:13-25 | a tick takes one from the remaining time of every sleeper and wakes exactly those with one left |
| `KernelTheorems.SleepsOn` | c/sleep.c:30-53 | a sleeper sleeps through every run with fewer ticks than it has left |
| `KernelTheorems.SleepIsExact` | c/sleep.c:30-53 | a process that asks for ms milliseconds sleeps until the ceil(ms/10)-th later tick, whatever else happens in between, and after that one is in the ready queue or running |
| `KernelTheorems.TickEmptiesIff` | c/sleep.c:16-24 | the list runs empty inside the loop, whose test as written then reads through NULL, exactly if there are sleepers and all of them have one tick left |
| `KernelReached.NullReadReached` | c/sleep.c:18-18 | after booting, one process that sleeps 10 ms and one tick do it |
| `KernelTheorems.WakeOrder` | c/sleep.c:16-24 | sleepers due on the same tick are readied in list order |
| `KernelTheorems.TiesByArrival` | c/sleep.c:36-48 | a process goes behind all that wake no later, so ties are readied in order of arrival |
| `KernelSchedule.HandleAppends` | c/disp.c:248-258 | whatever a request does, it only adds to the end of the ready queue |
| `KernelSchedule.ScheduledWithin` | c/disp.c:178-195 | a process other than idle at position k of the ready queue runs within k + 1 turns of any run |
| `KernelSchedule.IdleOnlyWhenAlone` | c/disp.c:184-191 | with an idle process there is always one to run, and idle runs only if no other is ready |
| `KernelSchedule.SendOutcome` | c/msg.c:22-60 | a send to a live process matches exactly if that process waits for the sender or for any, with the smaller length, the bytes and the pid passed and both readied, the caller first; otherwise the sender waits last in the queue; no other process changes |
| `KernelSchedule.SendFails` | c/msg.c:28-37 | a send to itself or to nobody returns the error code and readies the sender; the whole new state is given |
| `KernelSchedule.ReceiveFails` | c/msg.c:68-79 | a receive from itself or from nobody returns the error code; the whole new state is given |
| `KernelSchedule.ReceiveOutcome` | c/msg.c:68-95 | a receive from a live process matches exactly if that process waits to send to the receiver |
| `KernelSchedule.ReceiveAnyOutcome` | c/msg.c:97-110 | a receive from any takes the sender that came first, and blocks exactly if there is none |
| `KernelSchedule.SendersInOrder` | c/msg.c:137-183 | any request leaves the senders of a process in order of arrival |
| `KernelLinks.WiredInsert` | c/sleep.c:43-48 | linking a PCB into one list through the shared next field leaves all other lists as they were |
| `KernelLinks.WiredRemove` | c/msg.c:122-130 | so does splicing one out through a pointer to a pointer |
| `KernelLinks.WiredAppend` | c/disp.c:248-258 | so does appending one |
| `KernelTable.Table.Ready` | c/disp.c:248-258 | in place: to the end of the ready queue |
| `KernelTable.Table.Next` | c/disp.c:239-246 | in place: takes the first of the ready queue |
| `KernelTable.Table.Choose` | c/disp.c:182-194 | in place: the first ready process, but idle only if no other is |
| `KernelTable.Table.QueueInsert` | c/msg.c:158-183 | in place: to the end of a senders or receivers queue |
| `KernelTable.Table.QueueRemove` | c/msg.c:116-153 | in place: splices out the process with a pid, if it is there, and nothing else |
| `KernelTable.Table.TransferData` | c/msg.c:190-213 | in place: both get the smaller length, the receiver the bytes and the pid |
| `KernelTable.Table.Send` | c/msg.c:22-60 | the linked table after send() stands for the state SendTo gives |
| `KernelTable.Table.Recv` | c/msg.c:68-111 | the linked table after receive() stands for the state Receive gives |
| `KernelTable.Table.Cleanup` | c/disp.c:260-290 | the linked table after cleanup() stands for the state Exit gives |
| `KernelTable.Table.SleepFor` | c/sleep.c:30-53 | the delta list after sleep() stands for the sleepers and their remaining ticks |
| `KernelTable.Table.TickOnce` | c/sleep.c:13-25 | the delta list after tick() stands for the state Tick gives; as written the loop reads the head of an empty list exactly if every sleeper was due |
| `KernelTable.Table.GetNextPid` | c/create.c:27-31 | in place: the loop ends and gives the first free pid |
| `KernelTable.Table.Create` | c/create.c:39-114 | the table after create() stands for the state Spawn gives |
| `KernelTable.Table.Kill` | c/signal.c:54-86 | the table after signal() stands for the state Signal gives, unless the target is blocked in a list and takes the signal: then the processes are those of Signal, and the list ends in the target and runs on into the ready queue |
| `KernelLinks.TailShared` | c/signal.c:74-80 | readying a process while it is in a list, and then another, makes the list run on to the second one; all other lists stay as they were |
| `KernelTable.Table.HandleRequest` | c/disp.c:65-180 | every request on the linked table does what Handle does on plain queues |
| `KernelTable.Table.TurnOf` | c/disp.c:58-195 | a whole turn of dispatch() on the linked table refines a turn on plain queues, so every theorem about runs holds of it |
| `KernelTable.Table.constructor` | c/disp.c:221-236 | everything stopped, all lists empty |
| `KernelTable.Table.Start` | c/init.c:136-152 | the linked table after booting stands for the first state of the runs |
| `Heap.AllocFirstFit` | c/mem.c:33-54 | kmalloc returns NULL exactly if the size is not positive or no free block holds the rounded size; otherwise it takes the lowest-addressed one that does |
| `Heap.AllocServes` | c/mem.c:40-87 | the block handed out holds at least what was asked for and less than 16 bytes more; it was not allocated before, and the others stay as they are |
| `Heap.HeldApart` | c/mem.c:33-139 | after any run from kmeminit() on, the bytes asked for and not yet freed lie inside the two regions, apart from each other and from every free block |
| `Heap.InitialAll` | c/mem.c:13-30 | the two first free blocks take up the two regions, whole |
| `Heap.AllocInv` | c/mem.c:56-87 | free and allocated blocks stay aligned, disjoint and inside the two regions, free ones in address order and not adjacent |
| `Heap.FreeInv` | c/mem.c:90-139 | so they do after a free |
| `Heap.AllocThenFree` | c/mem.c:33-139 | freeing a just allocated block restores the heap exactly, unless the block was 16 bytes larger than needed |
| `Heap.AllocAccount` | c/mem.c:56-69 | free plus allocated bytes drop by exactly 16 in that case and are unchanged otherwise |
| `Heap.FreeAccount` | c/mem.c:121-137 | freeing changes no total |
| `Heap.RunSound` | c/mem.c:33-139 | after any run of allocations and frees the heap is sound and short of exactly 16 bytes for each such allocation |
| `HeapMemory.JoinedPrevs` | c/mem.c:131-136 | merging two neighbours leaves the backward links right exactly if that of the block after them is mended |
| `HeapMemory.FirstFreeOvertakes` | c/mem.c:131-136 | as written, already freeing the first block ever allocated leaves a wrong backward link |
| `HeapMemory.MemoryManager.constructor` | c/mem.c:13-30 | two free blocks around the hole, linked both ways |
| `HeapMemory.MemoryManager.Kmalloc` | c/mem.c:33-88 | the headers in memory stand for the heap Alloc gives, with the list linked both ways, and the header before the pointer returned has the size asked for, rounded up by less than 16 |
| `HeapMemory.MemoryManager.Kfree` | c/mem.c:90-139 | the headers stand for the heap Free gives; the backward links are right exactly if the line is repaired or the block overtakes no other |
| `Qsort.Exchange` | lib/libxc/qsort.c:88-101 | two elements change places |
| `Qsort.Exchange3` | lib/libxc/qsort.c:103-119 | three elements rotate, also if the second and third are one |
| `Qsort.LookHigh` | lib/libxc/qsort.c:49-68 | the loop from the label on keeps the partition, and ends with nothing left above the block or one swap done |
| `Qsort.Round` | lib/libxc/qsort.c:37-85 | a round keeps below, equal and above apart and leaves strictly less to look at |
| `Qsort.Partition` | lib/libxc/qsort.c:37-85 | ends with everything below the block smaller than and everything above it larger than the pivot, as a rearrangement |
| `Qsort.DepthGrows` | lib/libxc/qsort.c:71-79 | the smaller side has less than half of the elements |
| `Qsort.Qs1` | lib/libxc/qsort.c:19-86 | for every total preorder the segment ends sorted and rearranged, and 2 to the recursion depth is at most the number of elements |
| `Qsort.Sort` | lib/libxc/qsort.c:14-17 | the array is a sorted permutation of what it was |
| `PidTree.RotateLeftKeeps` | c/disp.c:323-330 | a left rotation keeps order and contents |
| `PidTree.RotateRightKeeps` | c/disp.c:332-338 | so does a right one, once repaired |
| `PidTree.InsertMaps` | c/disp.c:343-383 | with the repair an insertion binds the pid and changes nothing else |
| `PidTree.LookupMaps` | c/disp.c:388-399 | a lookup finds exactly what the tree binds |
| `PidTree.DeleteMaps` | c/disp.c:414-438 | a deletion removes the pid and changes nothing else |
| `PidTree.LookupFindsLast` | c/disp.c:343-438 | after any run of insertions and deletions, with the repair, a lookup finds exactly the last binding of a pid not deleted since |
| `PidBalance.InsertKeepsAvl` | c/disp.c:343-383 | with the repair an insertion of any pid keeps stored heights exact and all balances within 1, by one rotation or two |
| `PidBalance.AnyOrderHeight` | c/disp.c:343-383 | so pids inserted in any order keep the height logarithmic in their number |
| `PidTree.RotateRightDrops` | c/disp.c:332-338 | as written a right rotation drops the old root and its right subtree |
| `PidTree.WrittenLosesIff` | c/disp.c:343-383 | as written an insertion loses a pid exactly if it comes to a right rotation, and is right otherwise |
| `PidTree.InsertLargest` | c/disp.c:343-383 | as written a pid above all others never comes to one, and keeps stored heights exact and balances within 1 |
| `PidTree.IncreasingStaysAvl` | c/disp.c:343-383 | as written increasing pids all stay bound, in an AVL tree |
| `PidTree.HeightBound` | c/disp.c:304-317 | an AVL tree of height h has at least 2^(h/2) - 1 nodes |
| `PidTree.IncreasingHeight` | c/disp.c:343-383 | so increasing pids keep the height logarithmic in their number |
| `PidLoss.LivePidsLost` | c/disp.c:332-438 | as written, after pids 1 to 12 are inserted and 12 to 9 deleted, inserting 13 loses 8 and 13 |
| `PidNodes.RotateLeft` | c/disp.c:323-330 | in place: the nodes stand for the rotated tree |
| `PidNodes.RotateRight` | c/disp.c:332-338 | in place: the nodes stand for the tree rotated as written or as repaired |
| `PidNodes.Rebalance` | c/disp.c:367-381 | in place: the nodes stand for the rebalanced tree |
| `PidNodes.InsertNode` | c/disp.c:343-383 | in place: the nodes stand for the tree with the pid inserted; only the new node is fresh |
| `PidNodes.FindNode` | c/disp.c:388-399 | what the tree the nodes stand for binds |
| `PidNodes.Predecessor` | c/disp.c:404-409 | the rightmost node of the left subtree |
| `PidNodes.DeleteNode` | c/disp.c:414-438 | in place: the nodes stand for the tree without the pid |
| `PidNodes.PidMap.Bind` | c/disp.c:207-209 | the map gets the binding, with the repair |
| `PidNodes.PidMap.Drop` | c/disp.c:211-213 | the map loses the pid |
| `PidNodes.PidMap.Find` | c/disp.c:215-217 | what the map binds |
| `Signal.MsbPos` | c/signal.c:130-140 | 32 for 0; otherwise 31 minus the position of the highest bit |
| `Signal.MostUrgent` | c/signal.c:96-96 | a pending signal that no pending signal exceeds |
| `Signal.MaskAbove` | c/signal.c:122-124 | (~s) - (s - 1) is a mask that has exactly the signals above s, also for signal 31 |
| `Signal.HighestAbove` | c/signal.c:94-94 | a signal is pending in the mask of the signals from k up exactly if the highest pending one is |
| `Signal.HandlerRestores` | c/signal.c:88-124 | for every well nested activity below the return address of its frame, delivering a signal and its SIGRETURN restore esp, hi_sig and irc, and the memory from the old esp up |
| `Signal.RunKeeps` | c/disp.c:117-123 | no well nested run changes hi_sig in the end, or memory from its limit up |
| `Signal.HandlersRise` | c/signal.c:120-124 | handlers nest with strictly increasing signal numbers |
| `Signal.RisingBounds` | c/signal.c:120-124 | nesting from signal k up is at most 32 - k deep |
| `Signal.AtMost32Frames` | c/signal.c:88-124 | from the mask of a new process there are never more than 32 frames at once |
| `SignalEffects.DeliversIff` | c/signal.c:94-94 | there is something to deliver exactly if some pending signal is let in |
| `SignalEffects.DeliverOutcome` | c/signal.c:88-124 | a delivery takes the highest pending signal from the pending mask and no other, lets in exactly the higher ones, and leaves a frame that starts the trampoline with the handler registered for it |
| `SignalEffects.StartsBounded` | c/signal.c:54-124 | over every well nested run a signal starts no more handlers than it was posted times while allowed, counting one pending before; if it started none, none is lost |
| `SignalEffects.RegisterOutcome` | c/signal.c:17-40 | a handler is registered exactly for a good number and an address below the heap; then that signal and no other becomes allowed, or forbidden by NULL; the old handler is stored unless the number is bad |
| `Signal.Pcb.constructor` | c/create.c:86-94 | no handlers, nothing pending or allowed, every signal may be delivered |
| `Signal.Pcb.RegisterSigHandler` | c/signal.c:17-40 | in place: handler, mask, result and the old handler stored, with both error cases |
| `Signal.Pcb.DeliverSignal` | c/signal.c:88-124 | in place: frame, stack pointer and masks, or nothing |
| `Signal.Pcb.Return` | c/disp.c:117-123 | in place: stack pointer, mask and result from the frame |
| `Numerals.NumeralMeans` | lib/libxc/doprnt.c:250-265 | the shortest numeral denotes its number, in digits of the base, the first not 0 unless the number is |
| `Numerals.NumeralDigits` | lib/libxc/doprnt.c:250-265 | its digits are the lowest digits of the number up to the highest that is not 0 |
| `Doprnt.CopyOut` | lib/libxc/doprnt.c:260-264 | skipping leading zeros and copying the rest leaves the numeral, one digit for 0 |
| `Doprnt.Prtl10` | lib/libxc/doprnt.c:250-265 | the decimal numeral of a long that is not negative |
| `Doprnt.Prtl8` | lib/libxc/doprnt.c:285-301 | the octal numeral of the unsigned reading of a long, its eleventh digit masked |
| `Doprnt.Prtl16` | lib/libxc/doprnt.c:320-335 | the hexadecimal numeral of the unsigned reading of a long |
| `Doprnt.PrintUnsigned` | lib/libxc/doprnt.c:136-153 | subtracting 10^9 until a long is not negative and adding the count to the first digit gives the numeral of its unsigned reading |
| `Doprnt.Emit` | lib/libxc/doprnt.c:203-227 | sign, fill and digits in their order, for any width |
| `Doprnt.Convert` | lib/libxc/doprnt.c:119-181 | what d, u, o and x print |
| `Scan.Atoi` | lib/libxc/atoi.c:4-26 | the number after blanks and one sign, with wrap-around at 32 bits |
| `Scan.Accumulate` | lib/libxc/doscan.c:162-178 | shifting by the base and adding the digit, with wrap-around |
| `Scan.Innum` | lib/libxc/doscan.c:138-205 | what a numeric conversion of scanf takes: value, characters used, whether anything was read, whether the input ended, how many characters were copied to numbuf |
| `Scan.NarrowFits` | lib/libxc/doscan.c:150-170 | a width below 64 keeps the copy inside numbuf, whatever the input |
| `Scan.AtoiReads` | lib/libxc/atoi.c:4-26 | from blanks, at most one sign, digits and anything else, the digits with the sign, modulo 2^32 |
| `Scan.ScanReads` | lib/libxc/doscan.c:138-205 | the same for scanf, in each base, with newlines among the blanks and a width that counts the sign |
| `RoundTrip.FieldWidth` | lib/libxc/doprnt.c:203-227 | a field is as wide as asked for, up to 80, and never cuts the number off |
| `RoundTrip.DecimalReadBack` | lib/libxc/doprnt.c:119-134 | atoi() gives back every long that %d prints, the least one included, in any field, exactly unless zeros fill the field on the right of a number that is not 0 |
| `RoundTrip.ScanReadsBack` | lib/libxc/doscan.c:138-205 | scanf reads back every word that %d, %u, %o or %x printed right-justified in any field, and stops where it ends; without a width its copy overruns numbuf exactly if zeros fill a field of 64 to 80 |
| `Keyboard.CopyTakes` | c/kbd.c:175-214 | copying goes on exactly where the line in progress stopped, and takes what a read of that length takes from the typed characters |
| `Keyboard.AbortIff` | c/kbd.c:127-166 | the call taken to be impossible happens exactly if an end of file was seen, was not read yet, and is not what ends a read now |
| `Keyboard.ChangedEofAborts` | c/kbd.c:103-115 | changing the end of file character while one is in the ring does it |
| `Keyboard.ReadsFollowTyping` | c/kbd.c:127-255 | for every interleaving of interrupts and reads no read aborts, and the data returned depends only on the characters accepted and the lengths asked for |
| `Keyboard.NoneWaitsInVain` | c/kbd.c:223-244 | after every interrupt in every run, a read waits only if the accepted characters do not suffice for it, and all others have returned |
| `Keyboard.StallIff` | c/kbd.c:134-141 | a read waits for the next interrupt although a whole line is buffered exactly if fewer characters than asked for are, one of them is a newline and no end of file was seen |
| `Keyboard.AsWrittenDiffersIff` | c/kbd.c:241-244 | telling an unfinished request by the count goes wrong exactly if the last read ended short and there is something in the ring |
| `Keyboard.StrayKey` | c/kbd.c:242-242 | it does after a read of three is ended by a newline after one character and another key follows |
| `Keyboard.Device.constructor` | c/kbd.c:34-55 | an empty ring, no request |
| `Keyboard.Device.InsertChar` | c/kbd.c:272-282 | in place: at the end of the ring, unless it is full |
| `Keyboard.Device.RemoveChar` | c/kbd.c:284-292 | in place: the oldest character |
| `Keyboard.Device.BufCopy` | c/kbd.c:175-214 | in place: what Copy does |
| `Keyboard.Device.KeyboardRead` | c/kbd.c:127-166 | in place: what Read does, with its three outcomes |
| `Keyboard.Device.KeyboardLower` | c/kbd.c:223-244 | in place: what Lower does, as written or with a request flag |

## Left out

- HuftBuild.Build: tables are values in a list that grows, with indices for pointers, instead of memory from malloc linked for huft_free(); running out of memory (result 3) is not modelled.
- HuftBuild.PlaceLength: the variables c, x, u and q of huft_build() are sequences here, not arrays updated in place.
- Inflate.Inflater.Run: the whole input is there from the start, so fill_inbuf() and giving back a byte of an earlier buffer fill are not modelled; the input position counts from the start of the input.
- BitBuffer.TakeByte: or-ing a byte in at bit k is written as adding byte * 2^k, which is the same because b < 2^k.
- Inflate.Inflater.BuildCodes: an incomplete code, which ends in error() and a halt, is an outcome of its own here.
- Inflate.Inflater.CopyBytes: a distance beyond the start of the output reads the zeroed window, as in the code; the reference decoder is defined to do the same.
- Window.Memcpy: the loop index of memcpy() is an int in the source; lengths here are at most 32768.
- KernelTable.Table.Create: stack, context frame, handlers and open devices of a new process are not modelled; whether memory was found is a parameter.
- KernelTable.Table.Cleanup: closing devices and freeing the stack are not modelled.
- KernelTable.Table.TransferData: message buffers are sequences of bytes kept with the process; aliasing of user memory is not modelled, lengths are not negative.
- KernelTable.Table.GetNextPid: pids are looked up in a map here; that the tree behaves as one is proved in PidTree and PidNodes.
- KernelTable.Table.HandleRequest: a keyboard interrupt readies a process only while it is READING, and ReaderKeepsIff says what happens otherwise; the ring and the request itself are in Keyboard.
- KernelRuns.EveryRun: the idle process makes no requests of its own, as in `c/disp.c:39-43`; delivering signals is not part of a turn.
- KernelTheorems.SleepIsExact: remaining times are unbounded here, and so is the number of ticks.
- HeapMemory.MemoryManager.Kfree: a header is what the manager last wrote to it; user data that happens to look like one is not modelled, and sizes are not limited to 32 bits.
- PidTree.DeleteMaps: heights and balance after deletions are not claimed, since delete() does not mend them.
- PidNodes.InsertNode: running out of memory, which aborts the kernel, is not modelled.
- Signal.HandlerRestores: memory is words by address; overlapping words that are not aligned, and a stack that wraps around address 0, are not modelled.
- Signal.Pcb.DeliverSignal: the context frame is its seventeen words; what the processor does with it is not modelled.
- Doprnt.Convert: parsing the format string, %s, %c and %b are not modelled; neither are the 16-bit variants that this build does not use.
- Scan.Innum: storing into a short is not modelled, and of the copy in numbuf only its length.
- Keyboard.Device.KeyboardRead: one process has the device open; echo, and a signal to the reading process, are not modelled.
- Qsort.Sort: elements are moved as wholes instead of byte by byte; the address arithmetic of n * es in 32 bits is not modelled.
- Unzip.UnzipMember: the gzip header is taken to be read already; pkzip files and stored entries are not modelled, and the machine that an error stops is an outcome here.
- Scan code translation, the screen, and devices other than the keyboard ring.
- Assembly: context switches, interrupt entry, booting and hardware set-up.
- The system call stubs, user programs, and the kernel's own tests.
- Floating point conversions, the string functions and the random number generator.
