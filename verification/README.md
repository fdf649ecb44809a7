# Six kernel components, proved

This project models six self-contained parts of the Linux server under `mklinux/src` and proves
what each is for. Where the kernel updates memory in place, the model is a class with the same
fields and loops, proved against a specification written independently of the code. `Common` has the
few definitions that all of them share.

| component | source | files | main result |
|---|---|---|---|
| decompressor | `lib/inflate.c` | Bits, Huffman, HuftTables, HuftState, HuftSteps, HuftLoop, HuftBuild, Deflate, DeflateTables, DeflateSyntax, Rfc1951, LookAhead, Inflate, DeflateInputs | `Decompress` accepts exactly what a compressor could have written, but for the leniencies named below, and reads back what was written unless a lookup asks for more bits than are left |
| page allocator | `mm/page_alloc.c`, `osfmach3/mm/init.c` | Buddy, PageAlloc | the free lists are a function of the set of free pages; allocation, with its retries, and freeing are exact |
| wait primitives | `kernel/sched.c` | KernelSemaphore, TimerSpec, TimerWheel | semaphore accounting in every run; each timer fires once, in its tick |
| System V semaphores | `ipc/sem.c` | SysvSem | atomic operations with every verdict exact, a queue always at its fixpoint and served in a fixed order, conservation of undo |
| POSIX record locks | `fs/locks.c` | WaitGraph, LockRanges, LockFile, LockWalk, LockSafety, LockOverflow, PosixLocks, MachineLocks | exclusion, justified waits and no cycle of waiting tasks in every run, 32-bit overflow included; a lock is granted exactly if every byte can be shared and overwrites exactly its range, unless an overflow has left a lock behind |
| memory areas | `mm/mmap.c`, `mm/mprotect.c`, `mm/mlock.c`, `include/linux/mm.h` | Avl, AvlStore, AvlUnhook, AreaTrees, VmAreas, VmUnmap, VmMerge, VmFlags, VmMap | the in-place AVL tree and the list agree; `munmap`, `mprotect`, `mlock` and merging change exactly the pages that the range touches, and of their flags exactly the bits asked for |

## How the proofs are built

- **Decompressor.** `Huffman` defines the canonical code and proves it prefix-free and, for complete
  sets, total. `HuftTables` defines the walk through linked tables; `HuftState` to `HuftBuild` follow
  `huft_build` loop by loop. `Deflate` is a recursive reference decoder over a bit stream and an
  output history; it knows nothing of tables, bit buffers or windows, and is as lenient as the code.
  `DeflateTables` has the tables of the format by the rules that RFC 1951 gives for them. `DeflateSyntax` is
  the other direction: it writes blocks with every choice that a compressor has, and proves that the reference decoder
  accepts exactly these writings and reads back what they say.
  `Rfc1951` is the strict decoder, which has no history before the first byte and reads headers of its own,
  with up to 32 distance codes. `LookAhead` scans a stream for requests that exceed what is left. `Inflate`
  is the decompressor with its 32K ring window and bit buffer.
- **Page allocator.** `Buddy` is the theory of free blocks and their pair bits over sets; `PageAlloc`
  has the lists, the bitmaps and the loops of the code. An allocated block is *pending*: it
  overlaps no free block. `GetFreePages` takes the pages that `try_to_free_page` releases as a script.
- **Semaphores and timers.** The semaphore is a state machine over atomic steps (decrement, increment,
  wake-up, check, give up), and the class executes those steps on the two integer fields. The timer
  wheel keeps a log of events, and its invariant says the log is legal for a plain set of timers.
- **System V semaphores.** A snapshot of values, last users, undo records and queue is the specification
  state; each call is a step on snapshots followed by completions of queued entries.
- **Record locks.** The sum `fl_end + 1` that can overflow is a parameter of the list walk of
  `posix_lock_file`. On locks in order the loop equals a recursive insertion, which without overflow
  overwrites a map from offsets to lock types. On any list, as overflows may leave it, the loop is
  proved sound byte by byte, so the runs of the lock table are safe in machine arithmetic. A wait-for graph
  as a multiset of edges carries the deadlock proof. The conflict test is proved equal to the question whether
  some byte cannot be shared.
- **Memory areas.** A store of links represents a tree; every in-place rotation and unlinking is
  proved on the store. The page view of an address space maps an address to flags, inode, operations,
  pte and file offset. Counters are part of the invariant: `total_vm` and `locked_vm` always equal the
  page sums of the areas. What the calls do is stated a second time without their own arithmetic: by the pages
  that some byte of the range lies on, and by the single bits of the flags.

## Where the code does not keep a promise

Each of these is stated with the condition under which the code does keep it, and with an input where it
does not; the model follows the code.

- `huft_build`: when a sub-table would need more than the lookup width, the loop `while (++j < z)`
  starts past its bound and makes the table wider than its link says, so some entries are never
  stored. For complete sets decoding is right if and only if that does not happen (`HuftBuild.Build`,
  `HuftLoop.OnesBreak`); `HuftBuild.WideTable` is a set where it does. It cannot happen in any call of
  the decompressor (`HuftBuild.CallsAreSafe`).
- `inflate_codes`: a match may reach before the beginning of the output, which section 3.2.3 of RFC 1951
  forbids; the code then writes what its window happened to hold. The output is independent of the
  window if and only if no match does so (`Rfc1951.WindowFreeIff`); `DeflateInputs.BeforeTheStart` is
  a stream.
- `inflate_dynamic`: a repeat of the previous code length is accepted at the very beginning, as a repeat
  of zero, which section 3.2.7 leaves no room for (`Rfc1951.LeadingRepeat` is the condition,
  `DeflateInputs.RepeatOfNothing` a stream).
- `inflate_dynamic`: a header that announces 31 or 32 distance codes is refused, although section 3.2.7
  allows up to 32 and only the use of the last two is an error. A stream with a meaning is given it if and only
  if no block does so (`Rfc1951.MeaningIff`); `DeflateInputs.TooManyCodes` is a stream.
- `inflate`: the code asks for a full lookup width of bits before each code, so a stream that ends
  close to the end of its input may run out although it is complete. It does if and only if the scan of
  `LookAhead.ScanInflate` meets a request for more than is left (`Inflate.Inflater.Decompress`); what a lookup
  asks for is a function of the code lengths (`HuftBuild.Asked`). 16 bits to spare are enough, and
  `DeflateInputs.CompleteYetShort` is a complete stream that runs out.
- `free_pages_ok`: the bitmap of the largest order is toggled by allocation and never by freeing, so
  its bits mean nothing; the bit law is for orders 0..4, the only ones the code reads. Allocating and freeing
  leaves a bit flipped if and only if the block came from the list of that order
  (`PageAlloc.FreeArea.GetAndFree`); `PageAlloc.FlippedBit` is a run.
- `__do_down`: a signalled task gives up by incrementing `count`. If every waiter has a wake permit
  posted or coming at that moment, one permit is left over (`KernelSemaphore.GiveUpLeaks`, an if and
  only if; `KernelSemaphore.LeakHappens` is a run). Without a leak exclusion holds; a run can go on
  to too many holders without a further leak if and only if it has leaked
  (`KernelSemaphore.OverbooksIff`).
- `internal_add_timer`: a timer exactly 0xFFFFFFFF ticks ahead is put on no list, on 32-bit machines too (it takes
  `timer_jiffies` of 0); `TimerWheel.Wheel.Add` says this is the only timer lost. `del_timer` takes it for a
  pending one.
- `do_semop`: `semadj` is a short, so an undoable operation that is permitted may overflow its adjustment
  and break the undo law. For a sequence of undoable operations the law holds if and only if the old
  adjustment minus the whole change fits a short (`SysvSem.BalanceExact`; `SysvSem.Balance` for all
  sequences, `SysvSem.BalanceLost` for an input), and always modulo 65536, which `SysvSem.SemSet` keeps up
  through all calls.
- `sem_exit`: its clamp, commented as one that should not happen, fires if and only if value and adjustment
  do not add up to 0..32767 (`SysvSem.ExitedOk`), at the upper end too (`SysvSem.ClampFires`).
- `posix_lock_file`: `caller->fl_end + 1` overflows for a lock to the end of the file, and the walk breaks
  off too early. The list then gets two overlapping locks of one owner (`LockOverflow.OrderKeptIff`,
  `LockOverflow.TwiceTheWholeFile`), and if a lock of another type lies behind the break it stays
  in force (`LockOverflow.OverwritesIff`, `LockOverflow.DowngradeFails`); a later unlock may not unlock
  (`LockOverflow.UnlockFails`). Both conditions are if and only if, and `MachineLocks.GrantIff` has them for
  the loop itself. What no overflow breaks is that a grant holds all that was asked for and gains nothing
  else (`MachineLocks.GrantGains`), and the safety of all runs (`MachineLocks.MachineSafe`).
- `posix_lock_file`: after such an overflow `left->fl_end = caller->fl_start - 1` can leave a lock that ends before
  it begins. It holds no byte, but `locks_overlap` takes it for one that meets everything that spans both its ends. A
  request conflicts with a lock if and only if the two cannot share some byte, or the lock is of that kind
  (`LockRanges.ConflictIff`); `MachineLocks.RefusedForNothing` is a run that ends with a request refused for nothing.
  On a file in order it cannot happen (`MachineLocks.FreeInOrder`).
- `mprotect` and `mlock` are not atomic: on an error the pages before the failure keep their new flags.
  A call does all or nothing if and only if no address of the range is unmapped or refuses, or
  everything before the first such address has its new flags already (`VmMap.AtomicIff`); `VmMap.HalfDone` is
  an input for both. A range is taken for an empty one, and accepted, if and only if its length is 0 or
  within a page of 4 GB (`VmMap.EmptyIff`).

## Model

| member | source | states |
|---|---|---|
| `Huffman.PrefixClash` | mklinux/src/lib/inflate.c:368-476 | the canonical code (section 3.2.2 of RFC 1951) is prefix-free: two codes, the second past the interval of the first, never both start one stream |
| `Huffman.FindCode` | mklinux/src/lib/inflate.c:532-541 | for a complete set of lengths every bit stream starts with the code of some length |
| `Huffman.UniqueSymbol` | mklinux/src/lib/inflate.c:532-541 | for a complete set of lengths every bit stream starts with the code of exactly one symbol |
| `Huffman.OneSymbol` | mklinux/src/lib/inflate.c:340-346 | the codes of every set that is not oversubscribed, complete or not, are prefix-free: no stream starts with two of them |
| `HuftTables.WalkSame` | mklinux/src/lib/inflate.c:457-460 | a stream that meets only unchanged table entries is decoded as before, so later stores cannot spoil earlier codes |
| `HuftState.Fill` | mklinux/src/lib/inflate.c:457-460 | the stride loop stores to exactly the indices whose low `k - w` bits are the code |
| `HuftState.BackwardIncrement` | mklinux/src/lib/inflate.c:462-465 | the XOR loop turns the reversal of a code into the reversal of the next code |
| `HuftState.ChooseBits` | mklinux/src/lib/inflate.c:394-409 | the width chosen for a new table, as a function of the counts: enough for the code at hand; below the lookup width `l`, the codes of the set fill it; above `l` only where the code needs `l` bits or more, and always where it needs more, or `l` with codes left over |
| `HuftSteps.FillStep` | mklinux/src/lib/inflate.c:440-460 | storing the entries of one code keeps the tables well linked; if no table is too wide, that code and all before it then decode |
| `HuftSteps.LinkStep` | mklinux/src/lib/inflate.c:411-435 | linking a new table keeps the tables well linked for the current code |
| `HuftLoop.MakeTables` | mklinux/src/lib/inflate.c:386-437 | tables are added until the current code fits the top one; everything decoded so far still decodes, and the stack of tables stays within its 16 places |
| `HuftLoop.BackUp` | mklinux/src/lib/inflate.c:467-472 | backing up pops exactly the tables whose prefix the next code does not share |
| `HuftLoop.AddCode` | mklinux/src/lib/inflate.c:383-474 | one round for one code: the invariant of the build moves from code `c` to code `c + 1` |
| `HuftLoop.AddLength` | mklinux/src/lib/inflate.c:382-474 | all codes of one length are entered |
| `HuftLoop.BuildTables` | mklinux/src/lib/inflate.c:368-476 | the tables decode every code of a complete set if no table is too wide, and some stream reads an entry that was never stored if one is; a lookup asks for exactly the bits that the counts prescribe for the code it finds |
| `HuftLoop.AsksAt` | mklinux/src/lib/inflate.c:394-437 | what a lookup asks for: all bits up to the table in which the code ends, and those that index that table, whose width the first code behind its prefix decides |
| `HuftLoop.OnesBreak` | mklinux/src/lib/inflate.c:394-409 | when a table is too wide, the stream of all ones ends in an entry that was never stored |
| `HuftBuild.CountLengths` | mklinux/src/lib/inflate.c:304-312 | the histogram of the lengths |
| `HuftBuild.Range` | mklinux/src/lib/inflate.c:322-336 | smallest and largest length in use |
| `HuftBuild.LeftOver` | mklinux/src/lib/inflate.c:340-346 | the running remainder goes negative exactly for oversubscribed sets; otherwise it is the number of unused patterns |
| `HuftBuild.Offsets` | mklinux/src/lib/inflate.c:350-355 | each length starts after all symbols with shorter codes |
| `HuftBuild.SortValues` | mklinux/src/lib/inflate.c:359-364 | the value table holds exactly the symbols with a code, each at its position in the order by length |
| `HuftBuild.Build` | mklinux/src/lib/inflate.c:268-482 | for every set of lengths: result 2 exactly if oversubscribed, 1 exactly if incomplete with codes longer than one bit; if no table is too wide, walking the tables yields for every stream the symbol and bit count of the code that starts it, and nothing for other streams; for complete sets this holds only if no table is too wide |
| `HuftBuild.NeverSkips` | mklinux/src/lib/inflate.c:394-409 | no table is too wide if all codes fit in two levels or there are fewer codes than entries in the first table |
| `HuftBuild.WideTable` | mklinux/src/lib/inflate.c:394-409 | it does happen: five codes of 1, 2, 3, 4 and 4 bits, looked up one bit at a time |
| `HuftBuild.CallsAreSafe` | mklinux/src/lib/inflate.c:857-884 | no table is too wide when all lengths are at most twice the lookup width, or the symbols are fewer than the entries of the first table and the set is one the decompressor accepts; every call in the file is one of these |
| `HuftBuild.BuildFor` | mklinux/src/lib/inflate.c:857-884 | as the decompressor calls it: result 0 exactly for the sets it goes on with, and then the tables decode every code and nothing else, and each lookup asks for the bits that the code lengths prescribe |
| `HuftBuild.FixedLit` | mklinux/src/lib/inflate.c:686-697 | the fixed literal code is complete |
| `HuftBuild.FixedDist` | mklinux/src/lib/inflate.c:700-704 | the fixed distance code is not oversubscribed |
| `Inflate.Inflater.constructor` | mklinux/src/lib/inflate.c:959-962 | empty bit buffer and window |
| `Inflate.Inflater.NeedBits` | mklinux/src/lib/inflate.c:219-219 | fetching bytes leaves the stream of unread bits alone; it succeeds exactly if the bits are there, and with at most 16 asked for the buffer never holds more than 23 |
| `Inflate.Inflater.DumpBits` | mklinux/src/lib/inflate.c:220-220 | drops exactly `n` bits of the stream |
| `Inflate.Inflater.GetBits` | mklinux/src/lib/inflate.c:638-640 | the next `n` bits of the stream, least significant first |
| `Inflate.Inflater.Flush` | mklinux/src/lib/inflate.c:156-156 | what has been written out is the whole output history after the preset window |
| `Inflate.Inflater.Put` | mklinux/src/lib/inflate.c:543-551 | one more byte of output history, across the wrap of the window |
| `Inflate.Inflater.CopyChunk` | mklinux/src/lib/inflate.c:583-594 | a forward copy inside the window appends, byte by byte, the byte `dist` back in the history, also where source and target overlap |
| `Inflate.Inflater.CopyMatch` | mklinux/src/lib/inflate.c:575-600 | the chunked copy equals appending `n` times the byte at distance `dist` (section 3.2.3 of RFC 1951), for every distance up to 32768, across wraps and flushes |
| `Inflate.Inflater.Follow` | mklinux/src/lib/inflate.c:533-541 | the loop from table to table ends where the pure walk ends, and runs out of input exactly if the walk asks for more bits than are left |
| `Inflate.Inflater.Lookup` | mklinux/src/lib/inflate.c:532-541 | one code: same result and bit count as the pure walk of the tables; it runs out of input exactly if fewer bits are left than the walk asks for, which is less than 16 more than the code has |
| `Inflate.Inflater.Match` | mklinux/src/lib/inflate.c:558-600 | length and distance extra bits and the copy, as the format prescribes |
| `Inflate.Inflater.LiteralCode` | mklinux/src/lib/inflate.c:532-541 | one code of the literal and length alphabet, or the reason why there is none |
| `Inflate.Inflater.Code` | mklinux/src/lib/inflate.c:530-602 | one literal, match or end of block, as the format prescribes |
| `Inflate.Inflater.Codes` | mklinux/src/lib/inflate.c:507-612 | a coded block gives exactly the history, remaining stream and verdict of the format |
| `Inflate.Inflater.StoredBytes` | mklinux/src/lib/inflate.c:647-658 | the bytes of a stored block |
| `Inflate.Inflater.Stored` | mklinux/src/lib/inflate.c:616-668 | a stored block as section 3.2.4 of RFC 1951 says, with its complement check |
| `Inflate.Inflater.Fixed` | mklinux/src/lib/inflate.c:672-722 | a block with the fixed codes of section 3.2.6 of RFC 1951 |
| `Inflate.Inflater.ReadClens` | mklinux/src/lib/inflate.c:775-783 | the code lengths of the code length code, in their transmitted order |
| `Inflate.Inflater.ReadSymbol` | mklinux/src/lib/inflate.c:804-807 | one code length symbol from the single table |
| `Inflate.Inflater.ReadRepeat` | mklinux/src/lib/inflate.c:810-841 | the run length of symbols 16, 17 and 18 with its extra bits; it fails only if they are not there |
| `Inflate.Inflater.ReadLength` | mklinux/src/lib/inflate.c:803-842 | one length or run of lengths; a run past the end is refused |
| `Inflate.Inflater.ReadLengths` | mklinux/src/lib/inflate.c:798-842 | both alphabets' code lengths as section 3.2.7 of RFC 1951 says |
| `Inflate.Inflater.ReadCounts` | mklinux/src/lib/inflate.c:756-765 | the three counts are consecutive bit fields of 5, 5 and 4 bits; it fails only if fewer than 14 bits are left |
| `Inflate.Inflater.ReadHeader` | mklinux/src/lib/inflate.c:756-847 | the header of a dynamic block |
| `Inflate.Inflater.Dynamic` | mklinux/src/lib/inflate.c:726-900 | a block with its own codes |
| `Inflate.Inflater.Block` | mklinux/src/lib/inflate.c:904-947 | the block header and dispatch |
| `Inflate.Inflater.Blocks` | mklinux/src/lib/inflate.c:965-977 | blocks up to and including the last |
| `Inflate.Inflater.GiveBack` | mklinux/src/lib/inflate.c:979-985 | fewer than 8 bits stay in the buffer and the input position moves back by the rest, so no unread bit is lost |
| `Inflate.Inflater.Decompress` | mklinux/src/lib/inflate.c:951-996 | for every input and whatever the window held: success means that the input is a writing, in the sense of `DeflateSyntax`, of blocks that say what has been written out, and every such writing is decoded to what its blocks say, stopping behind the last of them, unless fewer than 16 bits follow and a lookup asks for more than are left; it runs out of input if and only if some request does; a stream that RFC 1951 gives meaning to, without a window, is decoded to exactly that if and only if moreover no block announces more than 30 distance codes |
| `DeflateTables.LengthTable` | mklinux/src/lib/inflate.c:161-167 | section 3.2.5 of RFC 1951: the first length is 3, each range begins where the one before ends, eight codes have no extra bits and then four each have one more, and 258 has a code of its own |
| `DeflateTables.DistanceTable` | mklinux/src/lib/inflate.c:168-174 | section 3.2.5 of RFC 1951: the first distance is 1, each range begins where the one before ends, four codes have no extra bits and then two each have one more, and the last range ends at 32768 |
| `DeflateTables.EveryLength` | mklinux/src/lib/inflate.c:161-167 | every length from 3 to 258 has a code, and below 258 exactly one |
| `DeflateTables.EveryDistance` | mklinux/src/lib/inflate.c:168-174 | every distance from 1 to 32768 has exactly one code |
| `DeflateTables.CodeLengthOrder` | mklinux/src/lib/inflate.c:159-160 | section 3.2.7 of RFC 1951: the repeat codes and 0 come first, then the lengths from 8 outwards, downwards and upwards in turn |
| `DeflateTables.FixedCode` | mklinux/src/lib/inflate.c:686-697 | section 3.2.6 of RFC 1951: for each of the four ranges of symbols, the length of the fixed code and the code itself |
| `DeflateTables.FixedDistanceCode` | mklinux/src/lib/inflate.c:700-704 | a fixed distance code is the number of the distance code, in five bits |
| `DeflateTables.StoredIff` | mklinux/src/lib/inflate.c:636-645 | section 3.2.4 of RFC 1951: a stored block is refused exactly if its length and the complement agree in some bit |
| `DeflateSyntax.ReadsBack` | mklinux/src/lib/inflate.c:951-996 | the round trip: whatever blocks a compressor writes, stored, with the fixed codes or with any codes of their own, coded with any accepted code length code and any repeats, they are read back, and reading stops behind the last of them |
| `DeflateSyntax.BlocksFound` | mklinux/src/lib/inflate.c:951-996 | the other way: every stream that the reference decoder accepts is the writing of some blocks, bit for bit, and they say what it was decoded to |
| `DeflateSyntax.ReadIffWritten` | mklinux/src/lib/inflate.c:951-996 | a stream of bytes is accepted if and only if it is a writing of blocks, and then it is decoded to what they say, whichever blocks it is taken to be a writing of |
| `DeflateSyntax.ItemsRead` | mklinux/src/lib/inflate.c:507-612 | literals and matches, written with any prefix-free codes that have the symbols they need, are read back |
| `DeflateSyntax.HeaderRead` | mklinux/src/lib/inflate.c:756-847 | the header of a block with its own codes is read back, with the code lengths in their transmitted order and every kind of repeat |
| `DeflateSyntax.StoredRead` | mklinux/src/lib/inflate.c:616-668 | a stored block is read back, whatever stands in the bits up to its first byte |
| `LookAhead.InflateScanned` | mklinux/src/lib/inflate.c:951-996 | the scan that says when the decompressor runs out of input is the decoder of the format but for the bits asked for ahead: where it does not run dry it accepts, refuses and leaves behind the same |
| `LookAhead.FirstLookupDry` | mklinux/src/lib/inflate.c:530-532 | a sound header with fewer bits behind it than index the first table runs dry |
| `Deflate.BlockShrinks` | mklinux/src/lib/inflate.c:965-977 | every well-formed block uses up input, so the reference decoder is well defined |
| `Rfc1951.InflateAgrees` | mklinux/src/lib/inflate.c:951-996 | the decoder of the code against a decoder without a window that accepts and refuses what RFC 1951 does: a stream with a block that announces more than 30 distance codes is refused; without one, what that decoder gives meaning to the code decodes to the same, for every preset window, and what it refuses, other than for a reference before the beginning, the code refuses |
| `Rfc1951.MeaningIff` | mklinux/src/lib/inflate.c:766-771 | a stream that RFC 1951 gives meaning to is given that meaning if and only if no block the decoder reads announces more than 30 distance codes |
| `Rfc1951.InflateDiffers` | mklinux/src/lib/inflate.c:575-575 | where a match reaches before the beginning of the output and the code succeeds, two windows without a common byte give different outputs |
| `Rfc1951.WindowFreeIff` | mklinux/src/lib/inflate.c:575-575 | the output of a successful decompression is independent of what the window held if and only if no match reaches before the beginning |
| `DeflateInputs.BeforeTheStart` | mklinux/src/lib/inflate.c:575-575 | a five-byte stream that RFC 1951 has no meaning for and that the code turns into three copies of the last byte of the window |
| `DeflateInputs.RepeatOfNothing` | mklinux/src/lib/inflate.c:810-820 | a 14-byte stream whose first code length repeats the one before it; RFC 1951 has no meaning for it and the code accepts it, with 16 bits to spare for its look-ahead |
| `DeflateInputs.TooManyCodes` | mklinux/src/lib/inflate.c:766-771 | a 15-byte stream that announces 31 distance codes, that RFC 1951 gives meaning to and the code refuses, with 20 bits to spare |
| `DeflateInputs.CompleteYetShort` | mklinux/src/lib/inflate.c:532-532 | a 12-byte stream that RFC 1951 gives meaning to and for which the decompressor runs out of input, since one bit is left where the lookup asks for two |
| `Buddy.Remove` | mklinux/src/mm/page_alloc.c:200-202 | taking a block off its list and toggling its pair bit keeps the invariant; the block is then clear of all free blocks |
| `Buddy.Add` | mklinux/src/mm/page_alloc.c:141-149 | putting a block on its list when its buddy is not free keeps the invariant, with the pair bit toggled below the top order only |
| `Buddy.PendingUp` | mklinux/src/mm/page_alloc.c:140-148 | two owned buddies form an owned block of the next order with exactly their pages |
| `Buddy.PendingDown` | mklinux/src/mm/page_alloc.c:216-224 | an owned block splits into two owned halves with exactly its pages |
| `Buddy.Covered` | mklinux/src/mm/page_alloc.c:123-154 | every aligned run of free pages lies inside one free block: coalescing is never missed |
| `Buddy.Canonical` | mklinux/src/mm/page_alloc.c:123-154 | a block is listed at its order exactly if it is free as a whole and, below the top, its parent is not |
| `Buddy.SamePagesSameLists` | mklinux/src/mm/page_alloc.c:123-154 | two states with the same free pages have the same free blocks at every order and the same bitmaps at orders 0..4 |
| `Buddy.AllocateFree` | mklinux/src/mm/page_alloc.c:123-227 | a state reached by taking a block and giving it back has the lists (as sets) and bitmaps 0..4 it started with |
| `Buddy.FreesCommute` | mklinux/src/mm/page_alloc.c:123-154 | states reached by freeing two blocks in either order have the same lists and bitmaps 0..4 |
| `PageAlloc.FreeArea.constructor` | mklinux/src/mm/page_alloc.c:340-420 | all pages are reserved and none is free |
| `PageAlloc.FreeArea.MemInit` | mklinux/src/osfmach3/mm/init.c:103-109 | after the boot loop exactly the pages of memory are free, none is allocated or reserved, and `nr_free_pages` is their number |
| `PageAlloc.FreeArea.FreePagesOk` | mklinux/src/mm/page_alloc.c:123-154 | with one bit per buddy pair as its only evidence, freeing merges with every free buddy: exactly the block's pages become free, no free buddy pair is left below order 5, bits of orders 0..4 equal the exclusive-or of their pair, the bitmap of order 5 stays, and `nr_free_pages` grows by the block and equals the sum of block sizes |
| `PageAlloc.FreeArea.FreeLowerHalf` | mklinux/src/mm/page_alloc.c:218-224 | one round of splitting: the lower half is freed, the upper half kept |
| `PageAlloc.FreeArea.Expand` | mklinux/src/mm/page_alloc.c:216-227 | splitting down keeps the invariant and conserves pages: what was free or in the block is free or in the part returned |
| `PageAlloc.FreeArea.RmQueue` | mklinux/src/mm/page_alloc.c:194-214 | takes a usable block of the lowest order that has one; falls through exactly when no list from the order up has a usable block; the result is aligned, lies in that block, was free as a whole, and only it stops being free; the bitmap of order 5 has a bit flipped exactly if the block came from that list |
| `PageAlloc.FreeArea.Take` | mklinux/src/mm/page_alloc.c:200-204 | unlinking and splitting one block: only the returned part stops being free |
| `PageAlloc.FreeArea.NoRunLeft` | mklinux/src/mm/page_alloc.c:194-214 | all lists from an order up are empty exactly when no aligned run of that many free pages exists anywhere |
| `PageAlloc.FreeArea.FreePages` | mklinux/src/mm/page_alloc.c:167-183 | a reserved block stays, a block with other users loses one, and the last user gives it back; free and allocated blocks stay disjoint |
| `PageAlloc.FreeArea.Release` | mklinux/src/mm/page_alloc.c:176-181 | exactly the pages of the block become free, and the other allocated blocks stay clear of all free ones |
| `PageAlloc.FreeArea.TryQueues` | mklinux/src/mm/page_alloc.c:194-227 | an aligned block of free pages is allocated that overlaps no other allocated block; failure means no listed block is usable, and without a DMA restriction that no aligned run of that many free pages exists |
| `PageAlloc.FreeArea.GetFreePages` | mklinux/src/mm/page_alloc.c:229-300 | the whole call with its retries, for every sequence of pages that `try_to_free_page` releases on the way: what was free or was released is free or in the block returned, which is aligned and overlaps no allocated block; it is given out only to an atomic request or above the reserve, which only goes down; failure means that `min_free_pages` could not be lowered further and that either no usable block is listed (without a DMA restriction: no aligned run of that many free pages exists) or nothing more could be released |
| `PageAlloc.Reserve` | mklinux/src/mm/page_alloc.c:244-248 | five pages are left in reserve for NFS, and seven eighths of the minimum less twelve, rounded up, for buffers and I/O where it is 48 or more |
| `PageAlloc.MayLower` | mklinux/src/mm/page_alloc.c:279-286 | the minimum is lowered only above its initial value, and for buffers only if it is more than ten sevenths of memory |
| `PageAlloc.FreeArea.Reclaim` | mklinux/src/mm/page_alloc.c:271-272 | a page released on the way becomes free exactly if its last user lets it go |
| `PageAlloc.FreeArea.GetAndFree` | mklinux/src/mm/page_alloc.c:167-263 | allocating a block and freeing it leaves the free blocks of every order and bitmaps 0..4 as they were; the bitmap of order 5 has one bit flipped if and only if the block came from the list of order 5, that is, no smaller list had a usable block |
| `PageAlloc.FlippedBit` | mklinux/src/mm/page_alloc.c:123-227 | a run: 32 pages, allocated and freed in one block, are all free again and a bit of the bitmap of order 5 is set |
| `PageAlloc.FreeBothWays` | mklinux/src/mm/page_alloc.c:123-183 | two allocators in the same state that free two blocks in different order end with the same free blocks and the same bitmaps 0..4 |
| `KernelSemaphore.RunAccounts` | mklinux/src/kernel/sched.c:682-798 | in every run, for initial count S with H holders and W waiters: `count` is S-H-W, and wake permits posted or about to be posted number min(W, S-H) plus the leaked ones |
| `KernelSemaphore.Exclusion` | mklinux/src/kernel/sched.c:682-798 | without a leak there are never more than S holders, and a free slot with a waiter always has a wake permit on its way |
| `KernelSemaphore.GiveUpLeaks` | mklinux/src/kernel/sched.c:781-788 | any give-up leaks if and only if every waiter, itself included, has a wake permit posted or on its way, beside those of earlier leaks |
| `KernelSemaphore.LeakFreeIff` | mklinux/src/kernel/sched.c:682-798 | a run is free of leaks if and only if each give-up in it finds fewer wake permits, posted or on their way, than waiters |
| `KernelSemaphore.LeakHappens` | mklinux/src/kernel/sched.c:778-788 | a run of five steps with a leak: the `up` comes between the check and the give-up |
| `KernelSemaphore.AtomicGiveUp` | mklinux/src/kernel/sched.c:778-788 | a check and give-up with nothing in between leaks if and only if the `up`s that are half done are as many as the waiters and the earlier leaks together |
| `KernelSemaphore.LeakOverbooks` | mklinux/src/kernel/sched.c:778-788 | after any leak some continuation without a further leak has more holders than S |
| `KernelSemaphore.OverbooksIff` | mklinux/src/kernel/sched.c:682-798 | a run can be continued without a further leak to more holders than S if and only if it has leaked |
| `KernelSemaphore.OneMoreHolder` | mklinux/src/kernel/sched.c:696-733 | after a leak one more task can always be let in |
| `KernelSemaphore.Semaphore.Down` | mklinux/src/include/asm-i386/semaphore.h:44-58 | the integer decrement and its sign test are the step of the protocol: the task goes to sleep exactly if no slot is left for it |
| `KernelSemaphore.Semaphore.Up` | mklinux/src/include/asm-i386/semaphore.h:111-125 | the increment and its test are the step of the protocol: a wake-up is owed exactly if somebody waited |
| `KernelSemaphore.Semaphore.WakeUp` | mklinux/src/kernel/sched.c:729-733 | the wake permit owed is posted |
| `KernelSemaphore.Semaphore.Check` | mklinux/src/kernel/sched.c:776-792 | a permit is taken exactly if there is one; otherwise a signalled task is refused |
| `KernelSemaphore.Semaphore.GiveUp` | mklinux/src/kernel/sched.c:781-788 | the refused task undoes its decrement; the fields still agree with the protocol run |
| `TimerSpec.NothingOverdue` | mklinux/src/kernel/sched.c:983-1007 | in every legal history no pending timer is overdue |
| `TimerSpec.FateFrom` | mklinux/src/kernel/sched.c:983-1007 | a pending timer that is neither deleted nor added stays pending with its due tick or has fired once, in that tick |
| `TimerSpec.Fate` | mklinux/src/kernel/sched.c:983-1007 | at every point a timer that was added and left alone is either still pending with its due tick or has fired once, in that tick |
| `TimerSpec.FiresOnce` | mklinux/src/kernel/sched.c:983-1007 | a timer that is added and not deleted fires exactly once, in the tick max(expires, `timer_jiffies` when added) |
| `TimerSpec.AllServed` | mklinux/src/kernel/sched.c:983-1007 | whatever timer functions do to other timers, one that they leave alone has fired exactly once, in its due tick, if and only if that tick is over, and is pending as before otherwise |
| `TimerWheel.ChoosePlaces` | mklinux/src/kernel/sched.c:883-915 | the slot chosen is one the wheel will come to no later than the due tick; the timer is put nowhere only if it expires 0xFFFFFFFF ticks ahead |
| `TimerWheel.DueNow` | mklinux/src/kernel/sched.c:994-1002 | after cascading, the timers due in a tick are exactly those in the current slot of the first level |
| `TimerWheel.CascadeDown` | mklinux/src/kernel/sched.c:965-981 | a timer of the slot being cascaded goes to a lower level, never back into the slot about to be cleared |
| `TimerWheel.CameRound` | mklinux/src/kernel/sched.c:988-993 | the index test after cascading a level finds exactly the ticks in which the next level has come round |
| `TimerWheel.NextTick` | mklinux/src/kernel/sched.c:1003-1004 | each tick starts where the cascading of the last one ended |
| `TimerWheel.Wheel.constructor` | mklinux/src/kernel/sched.c:860-872 | an empty wheel at tick 0 |
| `TimerWheel.Wheel.CascadeOne` | mklinux/src/kernel/sched.c:974-978 | one timer re-inserted: none lost, none doubled |
| `TimerWheel.Wheel.Cascade` | mklinux/src/kernel/sched.c:965-981 | cascading one slot keeps the wheel equal to the plain set of pending timers and moves the index on |
| `TimerWheel.Wheel.BeginTick` | mklinux/src/kernel/sched.c:988-993 | every level that has come round is cascaded |
| `TimerWheel.Wheel.Add` | mklinux/src/kernel/sched.c:917-934 | the history gains the timer, unless it expires 0xFFFFFFFF ticks ahead; then it is on no list and linked to itself |
| `TimerWheel.Wheel.Del` | mklinux/src/kernel/sched.c:936-963 | returns whether the timer was pending or lost, and takes it out; the history changes only if it was pending |
| `TimerWheel.Wheel.Fire` | mklinux/src/kernel/sched.c:994-1002 | a timer taken off the current slot is due in this very tick |
| `TimerWheel.Wheel.EndTick` | mklinux/src/kernel/sched.c:1003-1004 | a tick ends only when nothing due is left |
| `TimerWheel.Wheel.Handle` | mklinux/src/kernel/sched.c:1000-1000 | a timer function changes the history by exactly the additions and deletions it asks for that can be made |
| `TimerWheel.Wheel.FireAll` | mklinux/src/kernel/sched.c:994-1002 | all timers due in the tick run; the history is exactly the firings, each followed by what that function asked for |
| `TimerWheel.Wheel.RunTimerList` | mklinux/src/kernel/sched.c:983-1007 | for every script of timer functions the history is the firings and ticks, with exactly the changes the functions asked for; every timer pending before the call and named by no function has fired exactly once, in its due tick, if and only if that is at most `jiffies`, and is pending with the same due tick otherwise |
| `SysvSem.TryIsAtomic` | mklinux/src/ipc/sem.c:175-210 | the trial says go exactly when each operation could be done in turn, with repeated semaphore numbers counted together |
| `SysvSem.TryExact` | mklinux/src/ipc/sem.c:175-210 | the verdict through sums alone: the first operation that finds, in its value and the sum of those before it on its semaphore, that it cannot be done decides it: ERANGE, EAGAIN or sleep |
| `SysvSem.AddsInRange` | mklinux/src/ipc/sem.c:175-249 | after a successful trial all values on the way and at the end are in 0..SEMVMX |
| `SysvSem.AdjustedIs` | mklinux/src/ipc/sem.c:237-238 | however often the 16-bit adjustment overflows on the way, in the end it is the short of the old one minus the sum of the undoable operations |
| `SysvSem.BalanceModulo` | mklinux/src/ipc/sem.c:232-238 | value plus adjustment is conserved modulo 65536 by any sequence of undoable operations |
| `SysvSem.Balance` | mklinux/src/ipc/sem.c:232-238 | for every sequence, undoable or not: conserved if and only if the old adjustment minus the whole change fits a short and what went unrecorded is a multiple of 65536 |
| `SysvSem.BalanceExact` | mklinux/src/ipc/sem.c:237-238 | for every sequence of undoable operations: conserved if and only if the old adjustment minus the whole change fits a short |
| `SysvSem.BalanceLost` | mklinux/src/ipc/sem.c:237-238 | a concrete operation that is permitted and overflows its adjustment |
| `SysvSem.PerformedKeeps` | mklinux/src/ipc/sem.c:214-249 | a performed sequence moves value plus all live adjustments of a semaphore, across all processes, by exactly what went unrecorded or overflowed; it keeps them if and only if a condition on the sums of its operations holds, and modulo 65536 if all are undoable |
| `SysvSem.ReachedKeeps` | mklinux/src/ipc/sem.c:255-278 | so do queued completions in any order: the movements add up, and if all queued operations are undoable the sum is conserved modulo 65536 |
| `SysvSem.ExitedOk` | mklinux/src/ipc/sem.c:692-702 | the exit of a process keeps value plus adjustments of a semaphore if and only if value and adjustment add up to 0..SEMVMX; otherwise it moves by what the clamp and the short take |
| `SysvSem.ClampFires` | mklinux/src/ipc/sem.c:698-700 | the clamp fires for 0 - 1 and for 32767 + 32767 |
| `SysvSem.SemSet.constructor` | mklinux/src/ipc/sem.c:82-128 | a new set: all values zero, no records, nobody waiting |
| `SysvSem.SemSet.TrySemop` | mklinux/src/ipc/sem.c:175-210 | trial and rollback leave all values as they were; it goes exactly if every operation could be done in turn, and otherwise the first that could not says why: ERANGE exactly if its value would pass SEMVMX, else EAGAIN exactly if it has IPC_NOWAIT, else sleep |
| `SysvSem.SemSet.DoOne` | mklinux/src/ipc/sem.c:220-240 | after a successful trial no "race" branch is reachable; the adjustment moves against the value, in 16 bits, and the process is noted as the last on the semaphore |
| `SysvSem.SemSet.DoSemop` | mklinux/src/ipc/sem.c:214-249 | the whole sequence is applied, to values, adjustments and `sempid` of exactly the semaphores it names, and no "race" branch is taken |
| `SysvSem.SemSet.Complete` | mklinux/src/ipc/sem.c:263-274 | an entry that could complete is finished and taken off; the others keep their order |
| `SysvSem.SemSet.UpdateQueue` | mklinux/src/ipc/sem.c:255-278 | terminates, and leaves no entry that could complete; entries complete in the order of the scan: each is the first that can from the place of the one before on, or, if there is none, the first of all; each process taken off is told the verdict of the trial at that time |
| `SysvSem.OneOutcome` | mklinux/src/ipc/sem.c:255-278 | the order of completions and the state they end in are determined by the state before |
| `SysvSem.FirstOfEqual` | mklinux/src/ipc/sem.c:255-278 | of two queued entries that ask for the same, the later one completes first only if the scan has passed the earlier one |
| `SysvSem.SemSet.SemOp` | mklinux/src/ipc/sem.c:555-647 | every result is pinned down by the state before: EINVAL, E2BIG and EFBIG for bad arguments; done exactly if every operation could be done in turn, and otherwise ERANGE, EAGAIN or sleep by the first that could not; an undo record appears exactly if some operation asks for one and there is none; failures change nothing, a sleeper is queued last, and a performed sequence is followed by the completions that the scan of the queue finds, in their order; value plus adjustments of each semaphore equals the value last set plus exactly what has gone unrecorded or overflowed since: a multiple of 65536 while all calls are undoable and no exit is clamped, and nothing while the adjustments fit |
| `SysvSem.NewRecord` | mklinux/src/ipc/sem.c:591-607 | a process gets an undo record exactly if some operation asks for undoing and it has none |
| `SysvSem.SemSet.Interrupt` | mklinux/src/ipc/sem.c:639-645 | an interrupted sleeper leaves the queue; nobody left could complete |
| `SysvSem.SemSet.SetVal` | mklinux/src/ipc/sem.c:508-517 | errors exactly for a bad number or value; otherwise the value is set, its adjustments are forgotten and the queue is driven to a fixpoint |
| `SysvSem.SemSet.SetAll` | mklinux/src/ipc/sem.c:537-548 | ERANGE exactly for a bad value; otherwise all values are set, all adjustments are forgotten and the queue is driven to a fixpoint |
| `SysvSem.SemSet.GiveBack` | mklinux/src/ipc/sem.c:694-702 | each value moves by the adjustment of the exiting process in 16 bits, clamped at zero |
| `SysvSem.SemSet.Exit` | mklinux/src/ipc/sem.c:661-708 | the process leaves queue and undo list, its adjustments are made, and nobody left could complete; the account of what value plus adjustments moved stays exact: nothing if the clamp does not fire and the adjustments of those completed fit, and a multiple of 65536 while all calls are undoable and no exit is clamped |
| `SysvSem.ExitAll` | mklinux/src/ipc/sem.c:661-709 | the exit of a process from all sets of the system: each set changes as if it were alone |
| `LockRanges.InsertMeans` | mklinux/src/fs/locks.c:889-991 | without overflow, merging, splitting and replacing overwrite exactly the requested range of the owner's offset-to-type map, and leave the list sorted, disjoint and without adjacent ranges of one type |
| `LockRanges.InsertAwaited` | mklinux/src/fs/locks.c:901-991 | locks that grow keep their waiters and locks that shrink or change wake them: nobody waits for a lock that no longer conflicts |
| `LockRanges.ConflictIff` | mklinux/src/fs/locks.c:633-679 | a request conflicts with a lock exactly if it asks for some byte that the two owners cannot share, one of them writing; a request to unlock never does; the one exception is a lock without bytes, its end before its start, which conflicts with what spans both |
| `LockRanges.SameMapSameRanges` | mklinux/src/fs/locks.c:875-991 | the list is a normal form: two lists in order with the same map have the same ranges |
| `LockOverflow.OrderKeptIff` | mklinux/src/fs/locks.c:892-899 | in 32-bit arithmetic the walk over locks in order keeps them in order, and equals the unbounded one, if and only if it is not the case that the range ends at OFFSET_MAX and the owner has a lock of the same type that it overlaps or touches |
| `LockOverflow.MachineMeans` | mklinux/src/fs/locks.c:889-991 | what a request to OFFSET_MAX comes to at every offset: its own type on the range and, beside it, whatever the locks from the one where the walk breaks off hold |
| `LockOverflow.OverwritesIff` | mklinux/src/fs/locks.c:892-899 | in 32-bit arithmetic a request overwrites the types held on its range, and nothing else, if and only if it is not the case that it ends at OFFSET_MAX, overlaps or touches a lock of its type and there is a lock of another type behind that |
| `LockOverflow.DowngradeFails` | mklinux/src/fs/locks.c:892-899 | a read lock from 5 to the end, over read 0..9 and write 20..30, leaves the write lock in place |
| `LockOverflow.TwiceTheWholeFile` | mklinux/src/fs/locks.c:892-899 | locking a whole file twice leaves two overlapping locks |
| `LockOverflow.UnlockFails` | mklinux/src/fs/locks.c:925-938 | after locking a whole file twice, unlocking 0..99 leaves byte 50 locked |
| `WaitGraph.NewWait` | mklinux/src/fs/locks.c:681-714 | letting a task wait closes a cycle if and only if the task it waits for already waits for it, directly or through others |
| `WaitGraph.FewerEdges` | mklinux/src/fs/locks.c:205-249 | waking tasks creates neither a cycle nor a second wait |
| `LockFile.GrantOwn` | mklinux/src/fs/locks.c:881-991 | a granted request leaves every other owner's locks as they are and keeps each owner's locks together |
| `LockFile.GrantedCompatible` | mklinux/src/fs/locks.c:633-679 | no lock of the caller, even one widened by merging, shares a written byte with another owner |
| `LockFile.GrantKeeps` | mklinux/src/fs/locks.c:841-991 | grouping, order, exclusion and justified waits are all kept |
| `LockFile.OthersKeep` | mklinux/src/fs/locks.c:416-428 | a file stays in order when the locks of one owner are taken out, as closing it does |
| `LockFile.GrantEdges` | mklinux/src/fs/locks.c:881-991 | a granted request wakes tasks and puts none to sleep |
| `LockWalk.Pass` | mklinux/src/fs/locks.c:887-965 | the loop over the owner's locks, with the caller's lock becoming a list entry on the way, in 32-bit or unbounded arithmetic, round by round |
| `LockWalk.Finish` | mklinux/src/fs/locks.c:967-991 | the insertions, the split of a lock that sticks out on both sides, and the shortenings after the loop |
| `LockWalk.Apply` | mklinux/src/fs/locks.c:881-991 | the list that `posix_lock_file` leaves, for every list and request and in either arithmetic |
| `LockWalk.WalkedIs` | mklinux/src/fs/locks.c:881-991 | where the owner's locks are in order, that list is the one the recursive walk prescribes, in either arithmetic |
| `LockSafety.WalkedSound` | mklinux/src/fs/locks.c:881-991 | on every list, in order or not, and in either arithmetic: only the caller's locks change; each of them holds, byte by byte, only what was held or asked for in its type; one of them holds all that was asked for; waits stay justified and none is added |
| `PosixLocks.EventKeeps` | mklinux/src/fs/locks.c:820-1002 | grant, block, wake and close each keep every file in order, one wait per task and the wait-for graph acyclic |
| `PosixLocks.RunKeeps` | mklinux/src/fs/locks.c:820-1002 | so does every run |
| `PosixLocks.SafeRuns` | mklinux/src/fs/locks.c:820-1002 | in no run from the empty table do two owners hold a byte that one of them writes, does a task wait for a lock without a byte that it cannot share, or do tasks wait in a circle |
| `PosixLocks.GrantedMap` | mklinux/src/fs/locks.c:881-991 | after a grant the caller's map is overwritten on the range and nowhere else, and every other map in every file is unchanged |
| `PosixLocks.OtherMaps` | mklinux/src/fs/locks.c:182-249 | blocking and waking change no map; closing empties the owner's |
| `PosixLocks.FirstConflict` | mklinux/src/fs/locks.c:847-851 | the first lock in the list that conflicts, or none |
| `PosixLocks.RemoveOwned` | mklinux/src/fs/locks.c:416-428 | the loop takes off exactly the owner's locks |
| `MachineLocks.MakeRequest` | mklinux/src/fs/locks.c:543-595 | a range is refused exactly if it has a negative length or does not begin in the file; otherwise it is clipped to the file, 32-bit sums included, so it always satisfies what `posix_lock_file` needs |
| `MachineLocks.GrantLoose` | mklinux/src/fs/locks.c:881-991 | a grant of the machine, whatever overflows, keeps owners apart byte by byte, waits justified and each owner's locks together, and puts nobody to sleep |
| `MachineLocks.GrantGains` | mklinux/src/fs/locks.c:881-991 | after any grant of the machine the caller holds what was asked for on all of the range, has gained no type at any other byte, and nobody else's locks have changed |
| `MachineLocks.GrantIff` | mklinux/src/fs/locks.c:892-899 | on a file in order the loop, in 32 bits, leaves the file in order if and only if the request does not wrap, and overwrites exactly its range if and only if it leaves no lock of another type behind the break |
| `MachineLocks.GrantSame` | mklinux/src/fs/locks.c:881-991 | a request that does not wrap leaves the whole list as in unbounded arithmetic |
| `MachineLocks.MachineKeeps` | mklinux/src/fs/locks.c:820-1002 | grant, block, wake and close on the machine each keep owners apart, waits justified, one wait per task and the wait-for graph acyclic |
| `MachineLocks.MachineSafe` | mklinux/src/fs/locks.c:820-1002 | in no run in 32-bit arithmetic from the empty table, whatever requests overflow, do two owners hold a byte that one of them writes, does a task wait for a lock unless it asks for a byte that it cannot share or spans a lock without bytes, or do tasks wait in a circle |
| `MachineLocks.RefusedForNothing` | mklinux/src/fs/locks.c:975-990 | five requests of one owner, with an overflow among them, leave a write lock from 4 to 0, and another owner who wants to read bytes 0 to 4 is refused although every byte can be shared |
| `MachineLocks.FreeInOrder` | mklinux/src/fs/locks.c:847-851 | on a file in order a request is free to go exactly if it asks for no byte that it cannot share |
| `MachineLocks.MachineSame` | mklinux/src/fs/locks.c:820-1002 | a run in 32-bit arithmetic in which no granted request wraps is the run in unbounded arithmetic |
| `MachineLocks.LockTable.constructor` | mklinux/src/fs/locks.c:144-144 | no locks |
| `MachineLocks.LockTable.FindBlocker` | mklinux/src/fs/locks.c:700-712 | the lock on whose block list a task sleeps, if any |
| `MachineLocks.LockTable.WouldDeadlock` | mklinux/src/fs/locks.c:691-714 | terminates, and returns 1 exactly if the new wait would close a cycle |
| `MachineLocks.LockTable.Unblock` | mklinux/src/fs/locks.c:205-225 | an interrupted sleeper leaves its block list; the invariant is kept |
| `MachineLocks.LockTable.RemoveLocks` | mklinux/src/fs/locks.c:398-428 | closing a file takes off the owner's locks, wakes their waiters and keeps the invariant |
| `MachineLocks.LockTable.LockFile` | mklinux/src/fs/locks.c:820-1002 | in 32-bit arithmetic: granted exactly if no lock of the file has a byte that is asked for and cannot be shared, and none without bytes lies within the request; on a file in order exactly if every byte can be shared; a grant leaves the list that the loop leaves; otherwise EAGAIN, EDEADLK, a signal or sleep at the end of the block list of the first lock in the way, in that order of tests, with EDEADLK exactly if the wait would close a cycle; every outcome keeps owners apart, waits justified and the wait-for graph acyclic |
| `Avl.Fibonacci` | mklinux/src/mm/mmap.c:358-367 | a balanced tree of height h has at least Fib(h+2)-1 nodes |
| `Avl.AtMost41` | mklinux/src/mm/mmap.c:358-359 | fewer than Fib(44)-1 = 701408732 nodes: height at most 41, the size of the path stack |
| `Avl.FixMends` | mklinux/src/mm/mmap.c:421-491 | a round of rebalancing mends an imbalance of two, gives exact heights and balance within one, and keeps the in-order sequence |
| `Avl.UpMends` | mklinux/src/mm/mmap.c:419-493 | rebalancing along the whole path gives a balanced tree with the same in-order sequence |
| `Avl.EarlyExit` | mklinux/src/mm/mmap.c:486-491 | where a subtree keeps its height nothing above it would change: leaving the loop early loses nothing |
| `AvlStore.Graft` | mklinux/src/mm/mmap.c:445-466 | a subtree written at a place leaves the rest of the tree in memory as it was |
| `AvlUnhook.UnhookFits` | mklinux/src/mm/mmap.c:585-602 | a node with a left son is replaced in memory by its predecessor, and nothing else changes |
| `AvlUnhook.UnhookRight` | mklinux/src/mm/mmap.c:581-584 | a node without a left son is replaced by its right subtree |
| `AreaTrees.AreaTree.constructor` | mklinux/src/mm/mmap.c:895-895 | an empty tree is a valid one |
| `AreaTrees.AreaTree.LeftTooHigh` | mklinux/src/mm/mmap.c:428-466 | both rotations to the right, in place |
| `AreaTrees.AreaTree.RightTooHigh` | mklinux/src/mm/mmap.c:467-485 | both rotations to the left, in place |
| `AreaTrees.AreaTree.FixAt` | mklinux/src/mm/mmap.c:421-491 | one round in place, with its early exit exactly when nothing changes |
| `AreaTrees.AreaTree.Rebalance` | mklinux/src/mm/mmap.c:419-493 | the in-place loop with its early exit leaves the tree that full rebalancing would |
| `AreaTrees.AreaTree.Descend` | mklinux/src/mm/mmap.c:535-547 | the way down ends between the keys up to the given one and the keys above, with the neighbours there, and never fills the 41-entry stack |
| `AreaTrees.AreaTree.InsertNeighbours` | mklinux/src/mm/mmap.c:526-553 | balance, heights and key order are kept, the in-order sequence gains exactly the one node, at its place, and both neighbours are right |
| `AreaTrees.AreaTree.Insert` | mklinux/src/mm/mmap.c:499-521 | the same without neighbours |
| `AreaTrees.AreaTree.Search` | mklinux/src/mm/mmap.c:564-579 | finds the node to delete; its "not found" branch is unreachable |
| `AreaTrees.AreaTree.Rightmost` | mklinux/src/mm/mmap.c:586-595 | the way to the predecessor, within the stack |
| `AreaTrees.AreaTree.Replace` | mklinux/src/mm/mmap.c:585-603 | the predecessor takes over place, links, height and stack entry of the deleted node |
| `AreaTrees.AreaTree.Remove` | mklinux/src/mm/mmap.c:556-604 | balance, heights and key order are kept and the in-order sequence loses exactly the one node |
| `AreaTrees.AreaTree.Neighbours` | mklinux/src/mm/mmap.c:373-411 | predecessor and successor of a node |
| `AreaTrees.AreaTree.FindVma` | mklinux/src/include/linux/mm.h:365-384 | the first area that ends above an address, although the search stops early at an area that contains it |
| `VmAreas.ViewCuts` | mklinux/src/mm/mmap.c:732-797 | cutting areas removes exactly the addresses of the range from the page view |
| `VmAreas.ViewPaint` | mklinux/src/mm/mprotect.c:105-184 | splitting and repainting an area changes the flags of exactly the pages in range; inode, operations, pte and file offset of every page stay |
| `VmAreas.ViewMerged` | mklinux/src/mm/mmap.c:1049-1070 | joining two areas that pass the merge test changes no page |
| `VmAreas.MergeableIff` | mklinux/src/mm/mmap.c:1049-1070 | two areas pass the merge test exactly if joining them changes no page that a process could see |
| `VmAreas.FewAreas` | mklinux/src/mm/mmap.c:358-359 | user space holds at most 786432 areas, far below the bound of the path stack |
| `VmMerge.JoinedOrdered` | mklinux/src/mm/mmap.c:1077-1079 | raising the end of the first of two joined areas in place keeps the order by end |
| `VmFlags.ChangedOn` | mklinux/src/mm/mprotect.c:248-275 | each repainted area carries the change of the range on |
| `VmFlags.ProtectMeans` | mklinux/src/mm/mprotect.c:253-257 | bit by bit: after a change of rights the three lowest flags are those asked for and the rest are as before; it is permitted exactly if the page has the three bits that allow them, and, if it is shared, the one that allows sharing |
| `VmFlags.LockMeans` | mklinux/src/mm/mlock.c:202-204 | bit by bit: locking sets the lock flag, unlocking clears it, all others are as before, and it is always permitted |
| `VmFlags.ChangeSums` | mklinux/src/mm/mlock.c:141-177 | the change of `locked_vm` equals the change of the sum of locked pages; changing access rights leaves it |
| `VmMap.KeysSorted` | mklinux/src/mm/mmap.c:344-346 | areas in address order are in key order, so editing an end in place needs no change in the tree |
| `VmMap.SlowPlaceIs` | mklinux/src/mm/mmap.c:942-955 | the slow loop stops where the areas start to begin above the new one |
| `VmMap.OnePlace` | mklinux/src/mm/mmap.c:956-965 | the place that the tree finds is the only one with room |
| `VmMap.Mm.constructor` | mklinux/src/mm/mmap.c:908-913 | an empty address space |
| `VmMap.Mm.InsertVmStruct` | mklinux/src/mm/mmap.c:937-966 | the list becomes the one the slow loop would make; list and tree agree before and after, so "tree inconsistent with list" is never printed |
| `VmMap.Mm.FindVma` | mklinux/src/include/linux/mm.h:365-384 | the first area that ends above an address |
| `VmMap.Mm.PlaceOf` | mklinux/src/mm/mmap.c:842-846 | the neighbours in the tree are the neighbours in the list |
| `VmMap.Mm.UnmapFixup` | mklinux/src/mm/mmap.c:732-797 | what lies outside the unmapped part is put back, in none, one or two areas with their file offsets, and the counters follow |
| `VmMap.Mm.TakeOut` | mklinux/src/mm/mmap.c:846-853 | exactly the areas that reach into the range come off list and tree |
| `VmMap.Mm.Release` | mklinux/src/mm/mmap.c:864-883 | fixing them up one by one, last first, restores the order |
| `VmMap.Mm.UnmapRange` | mklinux/src/mm/mmap.c:839-883 | the new list is the old one with the range cut out of every area |
| `VmMap.Mm.DoMunmap` | mklinux/src/mm/mmap.c:810-888 | EINVAL exactly for a bad range; otherwise exactly the addresses of the pages that some byte of addr..addr+len-1 lies on leave the page view, and `total_vm` and `locked_vm` stay equal to the page sums |
| `VmMap.Mm.EditListed` | mklinux/src/mm/mmap.c:1078-1078 | an edit in place that keeps the areas in order keeps list and tree in agreement |
| `VmMap.Mm.Join` | mklinux/src/mm/mmap.c:1077-1089 | two areas become one, in list and tree |
| `VmMap.Mm.MergeSegments` | mklinux/src/mm/mmap.c:1024-1093 | the page view and the page sums are unchanged, and no two neighbours that meet in the range could still be merged |
| `VmMap.Mm.FixupAll` | mklinux/src/mm/mprotect.c:97-103 | the whole area is repainted; everything else stays |
| `VmMap.Mm.FixupStart` | mklinux/src/mm/mprotect.c:105-126 | the head gets new flags as an area of its own |
| `VmMap.Mm.FixupEnd` | mklinux/src/mm/mprotect.c:128-149 | the tail gets new flags as an area of its own, after the end of the old area has been edited in place |
| `VmMap.Mm.FixupMiddle` | mklinux/src/mm/mprotect.c:151-184 | the middle gets new flags, with new areas on both sides |
| `VmMap.Mm.Fixup` | mklinux/src/mm/mlock.c:141-177 | part of an area gets new flags, `locked_vm` follows, and the areas behind stay |
| `VmMap.Mm.ChangeAreas` | mklinux/src/mm/mprotect.c:248-276 | the loop over the range stops at its end, at the first unmapped address or at the first refusal |
| `VmMap.Mm.ChangeRange` | mklinux/src/mm/mprotect.c:244-277 | from lookup to merge: every page before the stop has its new flags and nothing else has changed |
| `VmMap.Mm.SysMprotect` | mklinux/src/mm/mprotect.c:217-278 | argument errors exactly for a start off a page boundary, unknown rights or a range that wraps; otherwise exactly the pages that the range touches, up to the first failure, get the three rights asked for and keep all other flags and attributes; the error is EFAULT for an unmapped page and EACCES exactly for a page that may not have those rights |
| `VmMap.Mm.DoMlock` | mklinux/src/mm/mlock.c:179-225 | the same for locking and unlocking: of the pages up to the first failure the lock bit changes and nothing else, and `locked_vm` equals the sum of locked pages |
| `VmMap.Mm.SysMlock` | mklinux/src/mm/mlock.c:227-251 | the limits on locked memory come first; then exactly the pages that some byte of the range lies on are locked, up to the first that is not mapped, and nothing else about them changes |
| `VmMap.Mm.SysMunlock` | mklinux/src/mm/mlock.c:253-258 | the same for unlocking, without limits |
| `VmMap.SpanCovers` | mklinux/src/mm/mlock.c:232-233 | unless the length wraps, the pages that change are exactly those the range touches |
| `VmMap.AlignCovers` | mklinux/src/mm/mmap.c:817-821 | from a page boundary on, rounding a length up covers exactly the pages that the range touches |
| `VmMap.RangeCovers` | mklinux/src/mm/mprotect.c:223-231 | unless its end wraps, which it does exactly if less than a page is left behind it, a rounded range covers exactly the pages that it touches |
| `VmMap.ProtectOutcome` | mklinux/src/mm/mprotect.c:244-277 | what a call of `mprotect` comes to, without reference to its own arithmetic: pages touched, rights bit by bit, and the first page that refuses |
| `VmMap.LockOutcome` | mklinux/src/mm/mlock.c:190-224 | the same for `mlock` and `munlock` |
| `VmMap.SpanTouches` | mklinux/src/mm/mlock.c:232-236 | unless the length wraps, the range that is locked is made of the pages that some byte of it lies on, and the limits count exactly those |
| `VmMap.EmptyIff` | mklinux/src/mm/mprotect.c:223-231 | a range is taken for an empty one if and only if its length is 0 or within a page of 4 GB |
| `VmMap.SucceedsIff` | mklinux/src/mm/mprotect.c:244-277 | a range is changed without error if and only if all of it is mapped and permits the change |
| `VmMap.AtomicIff` | mklinux/src/mm/mprotect.c:244-277 | a call either succeeds or leaves every page as it was if and only if no address of the range is unmapped or refuses, or all pages before the first such address have their new flags already |
| `VmMap.OneStop` | mklinux/src/mm/mprotect.c:248-275 | the first address of a range that is unmapped or refuses is determined by the areas alone |
| `VmMap.HalfDone` | mklinux/src/mm/mprotect.c:269-275 | one page is mapped and two are asked for: the call fails and the first page has changed, for rights as for locking |
| `VmMap.Mm.MapArea` | mklinux/src/mm/mmap.c:292-300 | a new mapping into free room adds exactly its pages to the view, and the counters stay equal to the page sums after merging |
| `VmMap.Mm.BuildMmapAvl` | mklinux/src/mm/mmap.c:891-898 | inserting the areas of the list one by one gives a balanced tree with the list as its in-order sequence |
| `VmMap.Mm.GetUnmappedArea` | mklinux/src/mm/mmap.c:316-334 | the lowest free stretch of the length at or above the rounded hint if there is any, and 0 if there is none, also where the hint wraps to 0 |
| `VmMap.Hint` | mklinux/src/mm/mmap.c:322-324 | the search begins at the first page boundary at or above the address, at a third of user space if there is none, and at 0 in the last page of the address range |
| `VmMap.FreeIff` | mklinux/src/mm/mmap.c:326-333 | a stretch counts as free exactly if it lies in user space and the process has no page in it |

## Left out

- PageAlloc.FreeArea.GetFreePages: does not model the change of priority in interrupt context, nor which pages `try_to_free_page` finds: they are given as a list of allocated pages, and `min_free_pages` is passed in and out, since the pager changes it too.
- PageAlloc.FreeArea.RmQueue: models the DMA test as the code makes it, on the first page of a block only; it does not promise that all pages of the result can be used for DMA.
- TimerWheel.Wheel.RunTimerList: assumes that `jiffies` stays below 0xFC000000, so a wrap of the tick counter is not covered; timer functions are given as a script of additions and deletions.
- PageAlloc.FreeArea.FreePages: does not model addresses outside of memory and the swap cache.
- LockRanges.InsertMeans: uses unbounded offsets; `LockOverflow.MachineMeans` and `LockOverflow.OverwritesIff` have the 32-bit case.
- PosixLocks.GrantedMap: uses unbounded offsets; `MachineLocks.GrantIff` says when the machine does the same, and `MachineLocks.GrantGains` what it does in any case.
- MachineLocks.LockTable.LockFile: ends when the caller goes to sleep; waking up and trying again is a new call.
- MachineLocks.MachineSafe: after an overflow a lock may end before it begins; a task may then wait for it although it holds no byte, which `LockRanges.Spurious` says exactly when.
- Rfc1951.InflateAgrees: as in `DeflateSyntax`, length code 284 with all extra bits set means 258 here and in the code, where RFC 1951 leaves it open.
- Inflate.Inflater.Decompress: treats reading past the end of the input, and reading a table entry that was never stored, as results of their own, since the code leaves both open.
- SysvSem.SemSet.Exit: models one set; `SysvSem.ExitAll` has all of them, without the numbers by which a process finds its sets.
- VmMap.Mm.DoMlock: starts from a page-aligned address, as all its callers in the file provide (`VmMap.Mm.SysMlock`, `VmMap.Mm.SysMunlock`); `mlockall` is not modelled.
- VmMap.Mm.MapArea: models the end of `do_mmap`, from the insertion on; its argument checks, the call of `do_munmap` and the touching of locked pages are not modelled.
- Running out of kernel memory: every allocation succeeds, so `ENOMEM`, result 3 of `huft_build` and `huft_free` do not appear.
- The `vm_next` chain, free lists, timer lists and lock lists are sequences; back pointers are not modelled. The AVL tree, the output window and the semaphore values are updated in place.
- Page tables, the TLB, the inode rings of shared areas, reference counts, `vm_page_prot`, `vm_ops` callbacks, `exit_mmap` and `mremap`; file offsets of areas are unbounded integers.
- The other hooks of the Mach server (`CONFIG_OSFMACH3`), which do not change the state modelled here.
- Page ages and other flags, swapping, `kmalloc`, and the placement of the memory map in `free_area_init`.
- Spin locks for several processors, the wait queues of semaphores, `run_old_timers` and the scheduler itself.
- Access times, permissions, identifiers and removal of semaphore sets.
- BSD `flock` locks and their mixing with POSIX locks (`EBUSY`), mandatory locks, `/proc/locks`, and the order of `file_lock_table`, which cannot matter since a task waits for one lock at a time.
- The gzip header, its checksum and the memory layout of the boot loader.
- Buffers, inodes, quotas, pipes, message queues, shared memory, binary formats, networking and drivers: they would add members without harder properties.
