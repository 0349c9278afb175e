# HitGameEngine core, modelled in Dafny

HitGameEngine is a small C++ game engine with a Vulkan renderer. This
project models the parts of it that are data logic rather than GPU or
platform glue, and proves properties about them:

- **Memory layer.**
  - `Arena` is a growable byte stack with power-of-two growth.
  - `TypedArena` and `FastTypedArena` are element-count views over an arena that grow by "+1 + 25%".
  - `HandleList` and `FastHandleList` are generational slot maps. Removing an element swaps the last one into its place, and the slots form a chain of occupied slots and a LIFO free list.
  - `FreelistCore` is an offset-to-length map of the free ranges inside a fixed region.
  - The memory registry keeps address-to-usage bookkeeping with a debug byte counter.
- **Byte serialisation.**
  - `Serializer` appends bytes and `Deserializer` reads them back through a bounds-checked cursor.
  - `BufferLayout` is a prefix-sum layout of shader data that can serialise itself.
  - `ShaderUniform` and `ShaderProgram` are written and read field by field.
- **Text parsing.**
  - The configuration-file lexer (`SourceReader`, `TokenReader`) feeds a recursive-descent parser (`Parser`) that builds `Block` values and a `StandardConfigurationFile`.
  - The tools' shader description reader, `ShaderParser`, is built on it.
  - The string helpers are modelled too.
- **Rule sets.**
  - The render graph: pass registration, then the dependency, present-pass and attachment rules of `initialize`.
  - The module pipeline.
  - The `Releseable` release state machine.

Each source component is one module, and each module lives in one file:

| file | module(s) | component |
|---|---|---|
| common.dfy | Common | bytes, 64-bit wrap-around, little-endian encoding, the `Run` outcome type |
| string_helpers.dfy | StringHelpers | `StringHelpers.h` |
| arena.dfy | Arenas | `Arena.cpp` |
| typed_arena.dfy | TypedArenas | `TypedArena.h` |
| fast_typed_arena.dfy | FastTypedArenas | `FastTypedArena.h` |
| memory.dfy | MemoryRegistry | `Memory.cpp` |
| freelist.dfy | Freelists | `Freelist.cpp`, `Freelist.h` |
| handle_list.dfy | HandleLists | `HandleList.h`, as functions over a table value |
| handle_list_class.dfy | HandleListObjects | `HandleList.h` and `FastHandleList.h`, as a class |
| handle_list_scenario.dfy | HandleListScenario | a removal sequence that breaks the slot chain |
| serializer.dfy, deserializer.dfy | Serializers, Deserializers | `Serializer.h`, `Deserializer.h` |
| buffer.dfy | ShaderData, Buffers | `Buffer.cpp` |
| shader_types.dfy | ShaderTypes | `ShaderTypes.cpp` |
| ordered_map.dfy | OrderedMaps | `std::map` as a key-ordered sequence of entries |
| config_lexer.dfy | ConfigLexer, ConfigLexerCases | `SourceReader`, `TokenReader` |
| config_file.dfy | ConfigFiles, ConfigFileCases | `Value`, `Property`, `Block`, `Parser`, `StandardConfigurationFile` |
| shader_parser.dfy | ShaderParsing | `ShaderParser.cpp` |
| rendergraph.dfy | Rendergraphs | `Rendergraph.cpp` |
| module_pipeline.dfy | ModulePipelines | `Module.cpp` |
| releseable.dfy | Releseables | `Releseable.h` |

The source's form is kept:

- Stateful components are classes whose methods modify their fields. Each method's `ensures` ties the new state to a specification function of the old state, and lemmas prove what the source promises about those functions.
- Pure lookups and decisions are functions.
- Loops in the source are `while` loops with invariants.
- Engine assertions (`hit_assert`) are preconditions of the class methods. In the specification functions they are an `Abort` outcome, so that the as-written behaviour of a failing input can be stated.
- Where the code diverges from what its own tests or surrounding code expect, two versions are modelled. One models the code as written, and a lemma exhibits the discrepancy. The other is a corrected version with the intended property proved. "## Findings" lists these pairs. Which version each class method carries:
  - corrected: `Freelists.FreelistCore.PushSize` and `PopSize` (first-fit lookup, predecessor always found), `HandleListObjects.HandleList.Remove` (the penultimate slot is re-linked), `HandleListObjects.HandleList.Reset`;
  - only as intended, because the source is ill-formed as written: `HandleLists.CompareTo`, `HandleListObjects.HandleList.Moved` and `MoveAssign`;
  - as written, with the corrected method beside it: `FastTypedArenas.FastTypedArena.Clear` (`ClearCorrected`), `Serializers.Serializer.Reset` (`ResetCorrected`), `MemoryRegistry.MemorySystem.ReallocateMemory` (`ReallocateMemoryCorrected`), and `MemoryRegistry.MemorySystem.ReallocateUsage`, which calls the as-written `ReallocateMemory` as the source does;
  - as written, with the corrected behaviour as functions: `Rendergraphs.Rendergraph.Initialize` runs `Bake` with the graph's own name map (`BakeCorrected` uses the unbaked one), `ConfigFiles.StandardConfigurationFile.constructor` loads under `ConfigLexer.AsWritten` with a missing '}' accepted (`Load` takes the other rules as parameters), and `ConfigLexer.TokenReader.constructor` takes the lexing rule as a parameter.

## Model

| member | source | states |
|---|---|---|
| Common.Check | HitEngine/src/Freelist.cpp:45-46 | a hit_assert step succeeds exactly when its condition holds |
| Common.Wrap64 | HitEngine/src/Freelist.cpp:38 | unsigned 64-bit arithmetic leaves every value already in range unchanged |
| Common.LittleEndian | HitEngine/include/Utils/Serializer.h:83-90 | the memcpy image of an integer of n bytes has exactly n bytes |
| Common.FromLittleEndianBound | HitEngine/include/Utils/Deserializer.h:115-137 | n bytes read back as an integer give a value below 256^n |
| Common.LittleEndianRoundTrip | HitEngine/include/Utils/Serializer.h:83-90 | reading back the image of a value that fits in n bytes gives the value |
| Common.LittleEndianOfBytes | HitEngine/include/Utils/Deserializer.h:115-137 | writing out the value read from some bytes gives those bytes back |
| Common.Power256Values | HitEngine/include/Utils/Serializer.h:83-90 | four and eight bytes hold exactly the ui32 and ui64 ranges |
| Common.StringBytes | HitEngine/include/Utils/Serializer.h:92-100 | the bytes of a string are its characters' codes, one per character |
| Common.BytesString | HitEngine/include/Utils/Deserializer.h:163-189 | the characters read from bytes are those bytes' codes |
| Common.StringBytesRoundTrip | HitEngine/include/Utils/Deserializer.h:163-189 | reading back the bytes of a string gives the string |
| StringHelpers.FirstKept | HitEngine/include/Utils/StringHelpers.h:15-16 | the first position not holding space, tab, line feed or carriage return, with everything before it stripped; the length when there is none |
| StringHelpers.EndKept | HitEngine/include/Utils/StringHelpers.h:21 | one past the last kept character, with everything after it stripped |
| StringHelpers.TrimShape | HitEngine/include/Utils/StringHelpers.h:13-23 | str_trim removes a stripped prefix and suffix and nothing else; the result starts and ends with a kept character; it is empty exactly when every character is stripped |
| StringHelpers.TrimIdempotent | HitEngine/include/Utils/StringHelpers.h:13-23 | trimming twice is trimming once |
| StringHelpers.TrimKeepsInterior | HitEngine/include/Utils/StringHelpers.h:13-23 | text without surrounding whitespace is left unchanged |
| StringHelpers.ToLower | HitEngine/include/Utils/StringHelpers.h:27 | tolower maps exactly 'A'..'Z' to the letter 32 above and keeps every other character |
| StringHelpers.InsensitiveEqualMeaning | HitEngine/include/Utils/StringHelpers.h:25-28 | str_insensitive_compare holds iff the strings have the same length and agree position by position under tolower |
| StringHelpers.InsensitiveEqualIsEquivalence | HitEngine/include/Utils/StringHelpers.h:25-28 | the comparison is reflexive, symmetric and transitive |
| StringHelpers.MatchMeaning | HitEngine/include/Utils/StringHelpers.h:30-41 | str_match holds iff the string is one of the candidates |
| StringHelpers.InsensitiveMatchMeaning | HitEngine/include/Utils/StringHelpers.h:43-54 | str_insensitive_match holds iff some candidate compares equal ignoring case |
| StringHelpers.MatchImpliesInsensitiveMatch | HitEngine/include/Utils/StringHelpers.h:30-54 | an exact match is also a match ignoring case |
| Arenas.Zeros | HitEngine/src/Arena.cpp:51-75 | a block as create leaves it: the asked size, every byte zero |
| Arenas.FillLowBitsShape | HitEngine/src/Arena.cpp:91-96 | the shift-and-or cascade sets every bit below the highest one: the result plus one is a power of two, at least the input and below twice it |
| Arenas.GrownCapacityIsNextPowerOfTwo | HitEngine/src/Arena.cpp:90-97 | the capacity push_memory grows to is the least power of two strictly above capacity plus the request |
| Arenas.Arena.constructor | HitEngine/include/Utils/Arena.h:10 | a default arena has no block and nothing used |
| Arenas.Arena.Sized | HitEngine/src/Arena.cpp:7-11 | the sized constructor creates a zeroed block of that size, nothing used |
| Arenas.Arena.Create | HitEngine/src/Arena.cpp:51-75 | create refuses size 0 and keeps an existing block untouched; otherwise it makes a zeroed block of the size |
| Arenas.Arena.Destroy | HitEngine/src/Arena.cpp:77-84 | destroy releases the block; only a created arena has its count reset |
| Arenas.Arena.PushMemory | HitEngine/src/Arena.cpp:86-105 | push_memory returns the old count as the position and adds the request; when the request reaches the capacity the block grows to the next power of two, keeping its bytes |
| Arenas.Arena.PopMemory | HitEngine/src/Arena.cpp:107-111 | pop_memory asserts the count covers the request and lowers it by that much |
| Arenas.Arena.IncrementMemory | HitEngine/src/Arena.cpp:113-121 | a created block grows by exactly the request, keeping its bytes; a request of 0 or a missing block changes nothing |
| Arenas.Arena.Reset | HitEngine/src/Arena.cpp:123-126 | reset zeroes the count and keeps the block |
| Arenas.Arena.Write | HitEngine/src/Arena.cpp:102-104 | writing through a returned position replaces exactly those bytes |
| Arenas.Arena.CopyTo | HitEngine/src/Arena.cpp:128-154 | copy_to ignores a null target and a copy to itself, destroys the target, and gives it this arena's capacity, bytes and count when this arena has a block |
| Arenas.Arena.Copy | HitEngine/src/Arena.cpp:13-16 | the copy constructor holds the source's bytes and count, or nothing when the source has no block |
| Arenas.Arena.Move | HitEngine/src/Arena.cpp:18-23 | the move constructor takes the block and count and leaves the source empty |
| Arenas.Arena.CopyAssign | HitEngine/src/Arena.cpp:30-35 | copy assignment destroys then copies; assigning an arena to itself leaves it without a block |
| Arenas.Arena.MoveAssign | HitEngine/src/Arena.cpp:37-50 | move assignment takes the source's block and count and leaves the source empty |
| Arenas.PushThenPop | HitEngine/src/Arena.cpp:86-111 | a push followed by a pop of the same size restores the count and returns the old count as the position |
| MemoryRegistry.TotalRemove | HitEngine/src/Memory.cpp:58-105 | the debug total is a registered block's size plus the total of the others, whichever block is taken first |
| MemoryRegistry.TotalUpdate | HitEngine/src/Memory.cpp:58-79 | registering or re-registering one block changes the total by exactly the difference of its sizes |
| MemoryRegistry.Overwrite | HitEngine/src/Memory.cpp:157-168 | the bytes copied in land at the offset and every other byte of the block is kept |
| MemoryRegistry.MemorySystem.Initialize | HitEngine/src/Memory.cpp:22-32 | initialize_memory_system starts with nothing registered and nothing counted |
| MemoryRegistry.MemorySystem.Shutdown | HitEngine/src/Memory.cpp:34-56 | shutdown_memory_system reports success exactly when no block is still registered |
| MemoryRegistry.MemorySystem.GetUsage | HitEngine/src/Memory.cpp:183-191 | get_usage asserts registration and returns the block's kind and size |
| MemoryRegistry.MemorySystem.AllocateMemory | HitEngine/src/Memory.cpp:58-79 | allocate_memory registers a new zero-filled block of the size and kind and adds its size to the counter |
| MemoryRegistry.MemorySystem.DeallocateMemory | HitEngine/src/Memory.cpp:81-105 | deallocate_memory ignores null; otherwise it removes the block's registration and bytes and subtracts its size |
| MemoryRegistry.MemorySystem.ReallocateMemory | HitEngine/src/Memory.cpp:107-155 | reallocate_memory as written: null or 0 gives null, the same size gives the block back; otherwise the counter moves by the size difference even when std::realloc refuses, and on success the block is registered anew |
| MemoryRegistry.MemorySystem.ReallocateMemoryCorrected | HitEngine/src/Memory.cpp:107-155 | the same outcomes, with the counter moved only on success, so the counter keeps agreeing with the registrations |
| MemoryRegistry.MemorySystem.Reregister | HitEngine/src/Memory.cpp:151-152 | the old registration is dropped and the new address holds the new size and keeps the common prefix of the old bytes |
| MemoryRegistry.MemorySystem.CopyMemory | HitEngine/src/Memory.cpp:157-168 | copy_memory with a null pointer or size 0 does nothing and gives null; otherwise the n source bytes replace the n bytes at the destination and every other byte is kept |
| MemoryRegistry.MemorySystem.SetMemory | HitEngine/src/Memory.cpp:170-181 | set_memory with null gives null; otherwise n bytes become the value cut to a byte |
| MemoryRegistry.MemorySystem.AllocateUsage | HitEngine/src/Memory.cpp:199-203 | allocate_usage returns the registration of a new block |
| MemoryRegistry.MemorySystem.DeallocateUsage | HitEngine/src/Memory.cpp:205-210 | deallocate_usage releases the block and leaves the usage with no memory and size 0 |
| MemoryRegistry.MemorySystem.ReallocateUsage | HitEngine/src/Memory.cpp:212-221 | reallocate_usage goes through reallocate_memory as written: the usage takes the new memory and size only when a block comes back, the debug counter moves by the size difference even when std::realloc refuses, and a successful call re-registers the block |
| MemoryRegistry.MemorySystem.CopyUsage | HitEngine/src/Memory.cpp:223-232 | copy_usage returns the destination usage; with a null block or size 0 no byte changes, and otherwise the n source bytes replace the n bytes at the destination while every other block and byte is kept |
| MemoryRegistry.MemorySystem.SetUsageMemory | HitEngine/src/Memory.cpp:234-238 | set_usage_memory returns the usage; a null block changes no byte, and otherwise n bytes of its block become the value cut to a byte while every other block and byte is kept |
| MemoryRegistry.FailedReallocationSkewsCounter | HitEngine/src/Memory.cpp:130-149 | a refused reallocation of a 32-byte block to 48 bytes leaves the block registered at 32 bytes while the counter says 48 |
| TypedArenas.ReservedMakesRoom | HitEngine/include/Utils/TypedArena.h:182-190 | growing by 1 plus a quarter of the capacity, or by count plus a quarter, makes room for the push, never shrinks, and grows exactly when the push would overflow |
| TypedArenas.TypedArena.Data | HitEngine/include/Utils/TypedArena.h:318-322 | data() has one element per pushed element |
| TypedArenas.TypedArena.Get | HitEngine/include/Utils/TypedArena.h:290-295 | get asserts the index is below the size and gives that element |
| TypedArenas.TypedArena.Empty | HitEngine/include/Utils/TypedArena.h:284-288 | empty holds exactly when the arena's data holds no element |
| TypedArenas.TypedArena.constructor | HitEngine/include/Utils/TypedArena.h:14 | a default arena has no block, no elements and no capacity |
| TypedArenas.TypedArena.Sized | HitEngine/include/Utils/TypedArena.h:61-65 | the sized constructor asserts creation and gives capacity n and no elements |
| TypedArenas.TypedArena.Create | HitEngine/include/Utils/TypedArena.h:119-131 | create fails exactly for size 0 and then changes nothing; otherwise capacity n and size 0 |
| TypedArenas.TypedArena.Destroy | HitEngine/include/Utils/TypedArena.h:134-141 | destroy clears, releases the block and zeroes capacity and size |
| TypedArenas.TypedArena.ReserveSpace | HitEngine/include/Utils/TypedArena.h:144-158 | reserve_space asserts an initialised arena and raises the capacity by n |
| TypedArenas.TypedArena.PushBack | HitEngine/include/Utils/TypedArena.h:182-201 | push_back appends the element at the old end, grows the capacity by 1 plus a quarter when full, and returns the element's index |
| TypedArenas.TypedArena.PushArray | HitEngine/include/Utils/TypedArena.h:224-244 | push_array asserts count > 0, appends count default elements and grows by count plus a quarter when they do not fit |
| TypedArenas.TypedArena.PopBack | HitEngine/include/Utils/TypedArena.h:247-255 | pop_back asserts a non-empty initialised arena and drops the last element |
| TypedArenas.TypedArena.PopArrayBack | HitEngine/include/Utils/TypedArena.h:258-270 | pop_array_back asserts count <= size and drops the last count elements |
| TypedArenas.TypedArena.Clear | HitEngine/include/Utils/TypedArena.h:273-281 | clear destroys every element and resets the arena, keeping the capacity |
| TypedArenas.TypedArena.Copy | HitEngine/include/Utils/TypedArena.h:68-74 | the copy constructor holds the source's elements in order, with capacity the source's size |
| TypedArenas.TypedArena.CopyElements | HitEngine/include/Utils/TypedArena.h:73 | the copy loop pushes the source's elements one by one, without growing |
| TypedArenas.TypedArena.CopyAssign | HitEngine/include/Utils/TypedArena.h:91-101 | copy assignment destroys, then holds the source's elements with capacity the source's size |
| TypedArenas.TypedArena.Move | HitEngine/include/Utils/TypedArena.h:77-82 | the move constructor takes the block, capacity and size and leaves the source empty |
| TypedArenas.TypedArena.MoveAssign | HitEngine/include/Utils/TypedArena.h:104-116 | move assignment takes the source's elements and leaves the source empty |
| TypedArenas.FillToCapacity | HitEngine/include/Utils/TypedArena.h:182-201 | a fresh arena of capacity n takes n pushes without growing and gives them back in push order |
| FastTypedArenas.FastTypedArena.Data | HitEngine/include/Utils/FastTypedArena.h:321-325 | data() has one element per pushed element |
| FastTypedArenas.FastTypedArena.Get | HitEngine/include/Utils/FastTypedArena.h:293-298 | get asserts the index is below the size and gives that element |
| FastTypedArenas.FastTypedArena.Empty | HitEngine/include/Utils/FastTypedArena.h:287-291 | empty holds exactly when the arena's data holds no element |
| FastTypedArenas.FastTypedArena.constructor | HitEngine/include/Utils/FastTypedArena.h:15 | a default arena has no block and no capacity |
| FastTypedArenas.FastTypedArena.Sized | HitEngine/include/Utils/FastTypedArena.h:63-67 | the sized constructor gives capacity n and no elements |
| FastTypedArenas.FastTypedArena.Create | HitEngine/include/Utils/FastTypedArena.h:115-127 | create fails exactly for size 0 and then changes nothing; otherwise capacity n and size 0 |
| FastTypedArenas.FastTypedArena.Destroy | HitEngine/include/Utils/FastTypedArena.h:130-136 | destroy releases the block and zeroes capacity and size |
| FastTypedArenas.FastTypedArena.ReserveSpace | HitEngine/include/Utils/FastTypedArena.h:138-152 | reserve_space asserts an initialised arena and raises the capacity by n |
| FastTypedArenas.FastTypedArena.PushBack | HitEngine/include/Utils/FastTypedArena.h:196-237 | both push_back overloads append the element at the old end and grows by 1 plus a quarter when full |
| FastTypedArenas.FastTypedArena.PushBackUninitialised | HitEngine/include/Utils/FastTypedArena.h:176-194 | push_back() reserves one slot at the end without writing it, keeping every earlier byte |
| FastTypedArenas.FastTypedArena.PushArray | HitEngine/include/Utils/FastTypedArena.h:240-259 | push_array reserves count unwritten slots at the end and grows by count plus a quarter when they do not fit |
| FastTypedArenas.FastTypedArena.Write | HitEngine/include/Utils/FastTypedArena.h:176-259 | writing through a returned pointer replaces exactly those slots |
| FastTypedArenas.FastTypedArena.PopBack | HitEngine/include/Utils/FastTypedArena.h:261-268 | pop_back asserts a non-empty initialised arena and drops the last slot |
| FastTypedArenas.FastTypedArena.PopArrayBack | HitEngine/include/Utils/FastTypedArena.h:271-278 | pop_array_back drops the last count slots |
| FastTypedArenas.FastTypedArena.Clear | HitEngine/include/Utils/FastTypedArena.h:281-285 | clear as written zeroes the size and leaves the arena's bytes in use |
| FastTypedArenas.FastTypedArena.ClearCorrected | HitEngine/include/Utils/FastTypedArena.h:281-285 | clear that also resets the arena: nothing stays in use |
| FastTypedArenas.FastTypedArena.Copy | HitEngine/include/Utils/FastTypedArena.h:70-71 | the copy constructor copies the arena, capacity and size |
| FastTypedArenas.FastTypedArena.CopyAssign | HitEngine/include/Utils/FastTypedArena.h:88-98 | copy assignment destroys and copies; assigning an arena to itself leaves it empty |
| FastTypedArenas.FastTypedArena.Move | HitEngine/include/Utils/FastTypedArena.h:74-80 | the move constructor takes everything and leaves the source empty |
| FastTypedArenas.FastTypedArena.MoveAssign | HitEngine/include/Utils/FastTypedArena.h:100-112 | move assignment takes the source's slots and leaves the source empty |
| FastTypedArenas.PushAppendsToData | HitEngine/include/Utils/FastTypedArena.h:196-215 | on a compact arena, push_back appends exactly the element to data() |
| FastTypedArenas.StaleDataAfterClear | HitEngine/include/Utils/FastTypedArena.h:281-285 | as written, push 1, clear, push 2 gives data() == [1]: the new element lands after the stale bytes |
| FastTypedArenas.ClearCorrectedThenPush | HitEngine/include/Utils/FastTypedArena.h:281-285 | after the corrected clear, a push gives data() == [x] |
| Freelists.CoalescedIsSorted | HitEngine/src/Freelist.cpp:14-108 | a free list whose blocks are ordered and never touch is ordered by offset, the order the offset-keyed map keeps |
| Freelists.AssignIsMapUpdate | HitEngine/src/Freelist.cpp:35 | assigning one offset key keeps the entries ordered, holds the new block and keeps every block at another offset |
| Freelists.LowerBoundKey | HitEngine/src/Freelist.cpp:49 | the map's lower_bound by offset: every entry before the result lies below the key and the entry at it does not |
| Freelists.LowerBoundKeyIs | HitEngine/src/Freelist.cpp:49 | any index with that property is the lower bound |
| Freelists.SearchBySize | HitEngine/src/Freelist.cpp:16-20 | the binary search std::lower_bound runs with the size comparison stays within the range it is given |
| Freelists.SearchNeverShort | HitEngine/src/Freelist.cpp:16-22 | whatever entry the size search returns holds at least the requested size, or the search reports the end |
| Freelists.FirstFit | HitEngine/src/Freelist.cpp:16-22 | the first block in offset order that is large enough: all blocks before it are too small |
| Freelists.FirstFitIs | HitEngine/src/Freelist.cpp:16-22 | any index with that property is the first fit |
| Freelists.SearchFindsFirstFit | HitEngine/src/Freelist.cpp:16-20 | on entries partitioned by the size comparison the binary search lands on the first fit |
| Freelists.LowerBoundBySizeOnPartitioned | HitEngine/src/Freelist.cpp:16-20 | std::lower_bound over the size comparison equals the first fit whenever its partition precondition holds |
| Freelists.CarveKeepsLayout | HitEngine/src/Freelist.cpp:28-38 | taking a block's front for an allocation keeps the free list disjoint, positive and inside the arena, lowers the free total by the size and leaves the handed-out range free of every remaining block |
| Freelists.PushAsWrittenSound | HitEngine/src/Freelist.cpp:14-41 | when push_size as written succeeds, the offset it hands out starts a free block that holds the request, and the layout and free total stay consistent |
| Freelists.PushFirstFitMeaning | HitEngine/src/Freelist.cpp:14-41 | the first-fit push succeeds exactly when some free block is large enough, and then hands out the first such block and keeps the layout |
| Freelists.LowerBoundMissesRoom | HitEngine/src/Freelist.cpp:16-26 | on blocks not ordered by size the search as written reports no room although the first block fits; first fit finds it |
| Freelists.ReleasedKeepsLayout | HitEngine/src/Freelist.cpp:43-108 | giving back an allocated range merges it with the touching neighbours and keeps the list disjoint, ordered and inside the arena, raising the free total by the size |
| Freelists.ReleasedFree | HitEngine/src/Freelist.cpp:43-108 | releasing a range raises the free total by exactly its size |
| Freelists.MergeOnce | HitEngine/src/Freelist.cpp:56-74 | the loop that absorbs following blocks erases the block at the lower bound and adds its length to the size being popped |
| Freelists.PopCoalescingIsReleased | HitEngine/src/Freelist.cpp:43-108 | pop_size, with the neighbour before the range also joined when no block follows, equals releasing the range into the free list |
| Freelists.PopAsWrittenSplitsAtEnd | HitEngine/src/Freelist.cpp:50-107 | as written, popping a range that follows the last free block appends a separate block, so the free list holds two touching blocks, while the corrected pop keeps it coalesced |
| Freelists.PopAsWrittenAppends | HitEngine/src/Freelist.cpp:50-107 | as written, a range popped right after the last free block becomes a new entry of its own |
| Freelists.AddressOrderFrees | HitEngine/src/Freelist.cpp:50-107 | freeing two adjacent 5-byte ranges in address order leaves two entries as written and one 10-byte block when corrected |
| Freelists.ResizedKeepsLayout | HitEngine/src/Freelist.cpp:110-142 | growing the arena keeps the free list's layout in the new size and raises the free total by the growth |
| Freelists.ResizedGrowsLast | HitEngine/src/Freelist.cpp:120-134 | when the last free block reaches the old end, growing extends that block |
| Freelists.ResizedAppends | HitEngine/src/Freelist.cpp:138-141 | otherwise growing appends a new free block from the old end to the new one |
| Freelists.FreelistCore.FreeSpace | HitEngine/include/Utils/Freelist.h:19 | get_free_space is the size minus the bytes in use |
| Freelists.FreelistCore.constructor | HitEngine/src/Freelist.cpp:9-12 | a new freelist has one free block covering the whole size and nothing in use |
| Freelists.FreelistCore.Default | HitEngine/include/Utils/Freelist.h:11 | the default freelist covers 8 bytes |
| Freelists.FreelistCore.PushSize | HitEngine/src/Freelist.cpp:14-41 | push_size behaves as the first-fit push: success exactly when a block fits, the new free list, the handed-out offset, the used counter raised by the size, and nothing changed on failure |
| Freelists.FreelistCore.AbsorbFollowing | HitEngine/src/Freelist.cpp:56-74 | the do-while loop erases the free blocks the popped range runs into and returns the merged size |
| Freelists.FreelistCore.PopSize | HitEngine/src/Freelist.cpp:43-108 | pop_size leaves the coalesced release of the range and lowers the used counter by the size |
| Freelists.FreelistCore.Resize | HitEngine/src/Freelist.cpp:110-142 | resize refuses a smaller size, accepts the same size without change, and otherwise grows the arena and its free list |
| Freelists.FreelistCore.Clear | HitEngine/src/Freelist.cpp:144-149 | clear leaves one free block covering the whole size and nothing in use |
| HandleLists.CompareTo | HitEngine/include/Utils/HandleList.h:82-86 | compare_to as intended holds exactly when both handles have the same index and version |
| HandleLists.Empty | HitEngine/include/Utils/HandleList.h:100-106 | a new list holds no element and its arenas count nothing |
| HandleLists.Bump | HitEngine/include/Utils/HandleList.h:214 | a slot version is a 32-bit counter: the increment stays below 2^32 and adds one below the top |
| HandleLists.BumpChanges | HitEngine/include/Utils/HandleList.h:214 | bumping a version always changes it, so the handles issued before no longer match |
| HandleLists.TakeSlot | HitEngine/include/Utils/HandleList.h:156-168 | emplace takes a slot within the slot arena, from the free list or pushed at its end |
| HandleLists.TakeSlotChained | HitEngine/include/Utils/HandleList.h:156-168 | on a well-formed list the slot taken is the head of the free list, which then advances, or a new slot with version 0 when the free list is empty |
| HandleLists.Emplace | HitEngine/include/Utils/HandleList.h:154-194 | emplace keeps the arenas within their capacity |
| HandleLists.EmptyChained | HitEngine/include/Utils/HandleList.h:100-284 | the empty list is well formed (its chains cover every slot) and reset gives the empty list |
| HandleLists.GetOccupied | HitEngine/include/Utils/HandleList.h:259-272 | get of an occupied slot's index returns its resource when the version matches and nothing otherwise |
| HandleLists.EmplaceKeepsChain | HitEngine/include/Utils/HandleList.h:154-194 | emplace on a well-formed list succeeds and leaves a well-formed list: the occupied chain in resource order and the free list behind it |
| HandleLists.EmplaceResolves | HitEngine/include/Utils/HandleList.h:154-194 | after emplace the elements are the old ones followed by the new, its handle resolves to it, it reuses the head of the free list or a fresh slot with version 0, every other handle resolves as before and older versions of its slot resolve to nothing |
| HandleLists.Remove | HitEngine/include/Utils/HandleList.h:203-257 | remove with the penultimate slot re-linked to the last keeps the arenas within their capacity |
| HandleLists.RemoveResolves | HitEngine/include/Utils/HandleList.h:203-257 | removing the element behind a live handle keeps the list well formed, moves the last element into its place, takes exactly that element out of the multiset of elements, makes the handle resolve to nothing and keeps every other live handle resolving to its element |
| HandleLists.RemoveStale | HitEngine/include/Utils/HandleList.h:205-209 | remove with a handle that does not resolve leaves the list unchanged |
| HandleLists.RemoveIssued | HitEngine/include/Utils/HandleList.h:203-257 | for any handle the list issued, removal succeeds, keeps the list well formed, leaves the handle resolving to nothing and drops the one element it named |
| HandleLists.Reset | HitEngine/include/Utils/HandleList.h:274-284 | reset, with arenas that forget their contents, leaves no element and no handle resolving |
| HandleLists.ResetAsWrittenLosesHandle | HitEngine/include/Utils/HandleList.h:274-284 | as written, reset keeps the slot arena's used bytes, so the first element added afterwards gets a handle that resolves to nothing |
| HandleLists.ResetAsWrittenAborts | HitEngine/include/Utils/HandleList.h:274-284 | as written, after a reset of a list that used two slots, the second emplace trips the slot arena's index assertion |
| HandleListScenario.RelinkScenarioAsWritten | HitEngine/include/Utils/HandleList.h:233-237 | as written, adding 10, 20, 30, 40, removing the third, adding 50 and removing the second, fourth and first leaves the handle of 50 naming a resource index past the end, so get trips the arena's assertion |
| HandleListObjects.HandleList.constructor | HitEngine/include/Utils/HandleList.h:100-106 | a new HandleList is well formed and empty |
| HandleListObjects.HandleList.Fast | HitEngine/include/Utils/FastHandleList.h:57-64 | a new FastHandleList is well formed and empty and zero-fills the element it pops |
| HandleListObjects.HandleList.Moved | HitEngine/include/Utils/HandleList.h:109-123 | the move constructor takes over the other list's state and leaves the other empty |
| HandleListObjects.HandleList.Emplace | HitEngine/include/Utils/HandleList.h:154-194 | emplace updates the list to the emplace function's result: the elements gain the new one at the end and the handle returned resolves to it |
| HandleListObjects.HandleList.Place | HitEngine/include/Utils/HandleList.h:170-191 | the slot and chain updates of emplace leave the state the emplace function computes |
| HandleListObjects.HandleList.TakeSlot | HitEngine/include/Utils/HandleList.h:156-168 | taking a slot leaves the state and slot index the TakeSlot function computes |
| HandleListObjects.HandleList.Add | HitEngine/include/Utils/HandleList.h:196-200 | add is emplace of a copy |
| HandleListObjects.HandleList.Remove | HitEngine/include/Utils/HandleList.h:203-257 | remove of an issued handle updates the list to the corrected remove function's result: the handle resolves to nothing afterwards, a stale handle changes nothing, and a live one takes exactly its element out |
| HandleListObjects.HandleList.RemoveSteps | HitEngine/include/Utils/HandleList.h:205-256 | the step-by-step removal leaves the state the remove function computes |
| HandleListObjects.HandleList.SwapTail | HitEngine/include/Utils/HandleList.h:211-231 | bumping the version and moving the last resource into the hole leave the state SwapTail computes |
| HandleListObjects.HandleList.DropPenultimate | HitEngine/include/Utils/HandleList.h:233-237 | the penultimate branch, with the new penultimate slot re-linked, leaves the state DropPenultimate computes |
| HandleListObjects.HandleList.DropOther | HitEngine/include/Utils/HandleList.h:238-250 | the other branch leaves the state DropOther computes |
| HandleListObjects.HandleList.ReplaceSlot | HitEngine/include/Utils/HandleList.h:332-359 | replace_slot changes only the slots, as the ReplaceSlot function computes |
| HandleListObjects.HandleList.RemoveSlot | HitEngine/include/Utils/HandleList.h:305-330 | remove_slot changes only the slots, as the RemoveSlot function computes |
| HandleListObjects.HandleList.Release | HitEngine/include/Utils/HandleList.h:252-256 | the removed slot is pushed on the free list |
| HandleListObjects.HandleList.Get | HitEngine/include/Utils/HandleList.h:259-272 | get returns nothing for an index past the slots or a version mismatch, and the element of a live handle otherwise |
| HandleListObjects.HandleList.Size | HitEngine/include/Utils/HandleList.h:286-290 | size is the number of elements, which is the number of slots less the free ones |
| HandleListObjects.HandleList.Data | HitEngine/include/Utils/HandleList.h:292-296 | data holds one element per live handle, in resource order |
| HandleListObjects.HandleList.Reset | HitEngine/include/Utils/HandleList.h:274-284 | reset, with arenas that forget their contents, leaves the empty list |
| HandleListObjects.HandleList.MoveAssign | HitEngine/include/Utils/HandleList.h:132-150 | move assignment, with the arenas moved as intended, takes over the other list's state and leaves the other empty |
| HandleLists.RemoveAsWritten | HitEngine/include/Utils/HandleList.h:203-257 | remove as written, which does not re-link the new penultimate slot, keeps the arenas within their capacity when it succeeds; the relink scenario shows the chain it breaks |
| Serializers.EncodeU64 | HitEngine/include/Utils/Serializer.h:83-90 | the image of a ui64 is eight bytes |
| Serializers.EncodeU32 | HitEngine/include/Utils/Serializer.h:83-90 | the image of a ui32 or an enum is four bytes |
| Serializers.EncodeString | HitEngine/include/Utils/Serializer.h:92-100 | a string's image is its length as a ui64 followed by its characters, with no terminator |
| Serializers.EncodeWords | HitEngine/include/Utils/Serializer.h:102-114 | an array of ui32 is written as the elements' images back to back, four bytes each |
| Serializers.Serializer.Bytes | HitEngine/include/Utils/Serializer.h:73-76 | the serialized data is the arena's data, of the arena's size, and is every byte written when the arena has never been cleared |
| Serializers.Serializer.TotalSize | HitEngine/include/Utils/Serializer.h:68-71 | get_total_size is the number of serialized bytes |
| Serializers.Serializer.constructor | HitEngine/include/Utils/Serializer.h:43 | a new serializer has written nothing |
| Serializers.Serializer.FromBuffer | HitEngine/include/Utils/Serializer.h:45 | a serializer built from a buffer holds a copy of its bytes |
| Serializers.Serializer.Serialize | HitEngine/include/Utils/Serializer.h:83-108 | serialize appends the value's image to what was written and grows the total size by its length |
| Serializers.Serializer.SerializeString | HitEngine/include/Utils/Serializer.h:92-100 | serializing a string appends its length and characters |
| Serializers.Serializer.SerializeWords | HitEngine/include/Utils/Serializer.h:110-114 | serializing a vector of ui32 appends the elements' images |
| Serializers.Serializer.Reset | HitEngine/include/Utils/Serializer.h:63-66 | as written, reset makes the total size 0 but keeps every byte written in the arena |
| Serializers.Serializer.ResetCorrected | HitEngine/include/Utils/Serializer.h:63-66 | reset with a clear that gives the bytes back leaves nothing written |
| Serializers.ResetThenSerializeAsWritten | HitEngine/include/Utils/Serializer.h:63-66 | as written, serializing 1, resetting and serializing 2 leaves serialized data that reads 1 |
| Serializers.ResetThenSerialize | HitEngine/include/Utils/Serializer.h:63-66 | with the corrected reset, the data after a reset and one write is exactly that write |
| Deserializers.Take | HitEngine/include/Utils/Deserializer.h:115-161 | a read of n bytes never leaves the cursor past the end |
| Deserializers.ReadU64 | HitEngine/include/Utils/Deserializer.h:115-137 | reading a ui64 fails without moving exactly when fewer than eight bytes are left, never trips, and otherwise gives a ui64 and advances by eight |
| Deserializers.ReadU32 | HitEngine/include/Utils/Deserializer.h:115-137 | reading a ui32 fails exactly when fewer than four bytes are left, never trips, and otherwise gives a ui32 and advances by four |
| Deserializers.ReadString | HitEngine/include/Utils/Deserializer.h:163-189 | reading a string never leaves the cursor past the end |
| Deserializers.TakeWritten | HitEngine/include/Utils/Deserializer.h:115-161 | reading n bytes where an image of n bytes was written gives that image and advances past it |
| Deserializers.ReadU64Written | HitEngine/include/Utils/Deserializer.h:115-137 | reading a ui64 where one was serialized gives its value |
| Deserializers.ReadU32Written | HitEngine/include/Utils/Deserializer.h:115-137 | reading a ui32 where one was serialized gives its value |
| Deserializers.ReadStringWritten | HitEngine/include/Utils/Deserializer.h:163-189 | reading a string where a non-empty one was serialized gives the string and advances past its image |
| Deserializers.ReadStringKeepsLength | HitEngine/include/Utils/Deserializer.h:171-181 | a string whose length overruns the buffer fails with the cursor left after its length |
| Deserializers.Deserializer.FromBuffer | HitEngine/include/Utils/Deserializer.h:50 | a deserializer built from a buffer reads its data from the start |
| Deserializers.Deserializer.FromSerializer | HitEngine/include/Utils/Deserializer.h:52 | a deserializer built from a serializer reads the serialized data from the start |
| Deserializers.Deserializer.GoTo | HitEngine/include/Utils/Deserializer.h:79-88 | go_to succeeds exactly for a position inside the buffer and moves the cursor only then |
| Deserializers.Deserializer.LeftSize | HitEngine/include/Utils/Deserializer.h:90-93 | the bytes left and the cursor add up to the buffer's size |
| Deserializers.Deserializer.TryDeserialize | HitEngine/include/Utils/Deserializer.h:115-137 | try_deserialize gives the outcome the Take function computes and leaves the cursor it computes |
| Deserializers.Deserializer.TryDeserializeArray | HitEngine/include/Utils/Deserializer.h:139-161 | try_deserialize_array gives the outcome the Take function computes |
| Deserializers.Deserializer.TryDeserializeString | HitEngine/include/Utils/Deserializer.h:163-189 | try_deserialize_string gives the outcome the ReadString function computes |
| Deserializers.Deserializer.TryDeserializeU64 | HitEngine/include/Utils/Deserializer.h:115-137 | try_deserialize of a ui64 gives the outcome ReadU64 computes |
| Deserializers.Deserializer.TryDeserializeU32 | HitEngine/include/Utils/Deserializer.h:115-137 | try_deserialize of a ui32 gives the outcome ReadU32 computes |
| Deserializers.Deserializer.Deserialize | HitEngine/include/Utils/Deserializer.h:191-202 | deserialize, where the read succeeds, returns the bytes Take gives and advances past them |
| Deserializers.Deserializer.DeserializeArray | HitEngine/include/Utils/Deserializer.h:204-215 | deserialize_array, where the read succeeds, returns the bytes Take gives |
| Deserializers.Deserializer.DeserializeString | HitEngine/include/Utils/Deserializer.h:217-227 | deserialize_string, where the read succeeds, returns the string ReadString gives |
| Deserializers.WriteThenRead | HitEngine/include/Utils/Deserializer.h:52-227 | a ui64 and a non-empty string serialized on a fresh serializer read back unchanged |
| ShaderData.Ordinal | HitEngine/include/Renderer/Buffer.h:16-23 | each shader data type has one of the thirteen enumerator values |
| ShaderData.OrdinalInjective | HitEngine/include/Renderer/Buffer.h:16-23 | distinct types have distinct enumerator values |
| ShaderData.Size | HitEngine/src/Buffer.cpp:8-38 | the byte size of a type: 1 for a bool, four bytes per component for every other type, and 0 exactly for None |
| Buffers.NewLayout | HitEngine/src/Buffer.cpp:124-160 | the constructor lays the named types out in order, each at the running offset with its type's size, and the total size is the sum of the sizes |
| Buffers.LaysOutContiguous | HitEngine/src/Buffer.cpp:124-160 | in such a layout the first element starts at 0, each next element starts where the previous ends, and the stride is where the last ends |
| Buffers.FirstNamed | HitEngine/src/Buffer.cpp:162-186 | the scan for a name finds its first occurrence, or reports that no element bears it |
| Buffers.HasData | HitEngine/src/Buffer.cpp:162-173 | has_data holds exactly when some element bears the name |
| Buffers.GetData | HitEngine/src/Buffer.cpp:175-186 | get_data returns the first element bearing the name, and an all-zero element when none does |
| Buffers.EncodeData | HitEngine/src/Buffer.cpp:40-48 | an element's image is its size, offset, type and name images, 28 bytes plus the name's length |
| Buffers.SerializeData | HitEngine/src/Buffer.cpp:40-48 | serializing an element appends its image and reports success |
| Buffers.SerializeDataList | HitEngine/src/Buffer.cpp:83-89 | serializing the elements in order appends their images back to back |
| Buffers.SerializeLayout | HitEngine/src/Buffer.cpp:79-94 | serializing a layout appends the element count, the elements and the total size |
| Buffers.ReadData | HitEngine/src/Buffer.cpp:50-77 | reading an element never leaves the cursor past the end |
| Buffers.ReadDataList | HitEngine/src/Buffer.cpp:105-113 | reading count elements, when it succeeds, adds exactly count of them |
| Buffers.ReadLayout | HitEngine/src/Buffer.cpp:96-122 | reading a layout never leaves the cursor past the end |
| Buffers.ReadDataListFails | HitEngine/src/Buffer.cpp:107-112 | the element loop stops at the first element that fails to read, with that failure |
| Buffers.ReadDataWritten | HitEngine/src/Buffer.cpp:40-77 | an element that was serialized reads back unchanged, and the cursor ends after its image |
| Buffers.ReadDataListWritten | HitEngine/src/Buffer.cpp:83-113 | elements serialized in order read back in the same order |
| Buffers.ReadLayoutWritten | HitEngine/src/Buffer.cpp:79-122 | a serialized layout reads back unchanged |
| Buffers.DeserializeData | HitEngine/src/Buffer.cpp:50-77 | BufferData::deserialize gives the outcome ReadData computes and leaves its cursor |
| Buffers.DeserializeDataList | HitEngine/src/Buffer.cpp:105-113 | the element loop gives the outcome ReadDataList computes |
| Buffers.DeserializeLayout | HitEngine/src/Buffer.cpp:96-122 | BufferLayout::deserialize gives the outcome ReadLayout computes |
| ShaderTypes.UniformType.Ordinal | HitEngine/include/Renderer/ShaderTypes.h:13-16 | each uniform type has one of the three enumerator values |
| ShaderTypes.ProgramType.Ordinal | HitEngine/include/Renderer/ShaderTypes.h:33-37 | each program type has one of the two enumerator values |
| ShaderTypes.ReadUniform | HitEngine/src/ShaderTypes.cpp:22-43 | reading a uniform never leaves the cursor past the end |
| ShaderTypes.ReadUniformList | HitEngine/src/ShaderTypes.cpp:104-111 | reading the uniforms never leaves the cursor past the end |
| ShaderTypes.DecodeWords | HitEngine/src/ShaderTypes.cpp:120-125 | count words are decoded from four times as many bytes |
| ShaderTypes.ReadWords | HitEngine/src/ShaderTypes.cpp:113-125 | reading the compiled code never leaves the cursor past the end |
| ShaderTypes.ReadProgram | HitEngine/src/ShaderTypes.cpp:78-128 | reading a program never leaves the cursor past the end |
| ShaderTypes.ReadUniformListFails | HitEngine/src/ShaderTypes.cpp:105-111 | the uniform loop stops at the first uniform that fails to read, with that failure |
| ShaderTypes.ReadUniformWritten | HitEngine/src/ShaderTypes.cpp:8-43 | a serialized uniform reads back unchanged |
| ShaderTypes.ReadUniformListWritten | HitEngine/src/ShaderTypes.cpp:61-111 | uniforms serialized in order read back in the same order |
| ShaderTypes.DecodeEncodeWords | HitEngine/src/ShaderTypes.cpp:72-125 | decoding the image of the compiled code gives the words back |
| ShaderTypes.ReadWordsWritten | HitEngine/src/ShaderTypes.cpp:113-125 | non-empty compiled code that was serialized reads back unchanged |
| ShaderTypes.ReadProgramWritten | HitEngine/src/ShaderTypes.cpp:45-128 | a serialized program with non-empty code reads back unchanged, type, attributes, uniform limit, uniforms and code |
| ShaderTypes.SerializeUniform | HitEngine/src/ShaderTypes.cpp:8-20 | serializing a uniform appends its type, layout and name images |
| ShaderTypes.SerializeUniformList | HitEngine/src/ShaderTypes.cpp:61-69 | serializing the uniforms appends their images in order |
| ShaderTypes.SerializeProgram | HitEngine/src/ShaderTypes.cpp:45-76 | serializing a program appends its type, attributes, uniform limit, uniform count and uniforms, code size and code |
| ShaderTypes.DeserializeUniform | HitEngine/src/ShaderTypes.cpp:22-43 | ShaderUniform::deserialize gives the outcome ReadUniform computes |
| ShaderTypes.DeserializeUniformList | HitEngine/src/ShaderTypes.cpp:104-111 | the uniform loop gives the outcome ReadUniformList computes |
| ShaderTypes.DeserializeWords | HitEngine/src/ShaderTypes.cpp:113-125 | reading the code gives the outcome ReadWords computes |
| ShaderTypes.DeserializeProgram | HitEngine/src/ShaderTypes.cpp:78-128 | ShaderProgram::deserialize gives the outcome ReadProgram computes |
| ShaderTypes.ProgramRoundTrip | HitEngine/src/ShaderTypes.cpp:45-128 | a program serialized on a fresh serializer is deserialized back unchanged |
| Releseables.Releseable.constructor | HitEngine/include/Renderer/Releseable.h:42-43 | a new object is released by its owner and not yet released |
| Releseables.Releseable.SetReleaseMode | HitEngine/include/Renderer/Releseable.h:34 | set_release_mode sets the mode and nothing else |
| Releseables.Releseable.SafeRelease | HitEngine/include/Renderer/Releseable.h:19-26 | safe_release destroys the object and marks it released exactly when it is not yet released and its mode is at first opportunity, and otherwise changes nothing |
| Releseables.Releseable.ForceRelease | HitEngine/include/Renderer/Releseable.h:28-32 | force_release always destroys the object once more and marks it released |
| Releseables.SafeReleaseTwice | HitEngine/include/Renderer/Releseable.h:19-26 | any number of safe releases destroys the object at most once |
| Releseables.OwnerKeepsIt | HitEngine/include/Renderer/Releseable.h:19-42 | an object left to its owner survives safe_release and is destroyed once by force_release |
| ModulePipelines.Calls | HitEngine/src/Module.cpp:15-22 | the calls made over a run of modules are one per module, in order |
| ModulePipelines.FirstFailing | HitEngine/src/Module.cpp:15-47 | the first module whose phase call fails, with all before it succeeding, or none when all succeed |
| ModulePipelines.Reached | HitEngine/src/Module.cpp:15-47 | a phase reaches at most every module |
| ModulePipelines.ReachedStopsAtFailure | HitEngine/src/Module.cpp:15-47 | the modules called before the last one reached all succeeded, and the phase stops early only at a failing module |
| ModulePipelines.FirstFailingAt | HitEngine/src/Module.cpp:15-47 | a failing module after only successes is the first failing one and the last one called |
| ModulePipelines.ModulePipeline.constructor | HitEngine/include/Core/Module.h:35-54 | a new pipeline has no engine and no modules |
| ModulePipelines.ModulePipeline.SetEngine | HitEngine/src/Module.cpp:52-56 | set_engine records the engine |
| ModulePipelines.ModulePipeline.GetModule | HitEngine/src/Module.cpp:79-87 | get_module returns the module registered under the name, and nothing exactly when the name is not registered |
| ModulePipelines.ModulePipeline.AddModule | HitEngine/src/Module.cpp:58-71 | add_module succeeds exactly when the name is new, then appends the module and maps the name to its position; get_module then finds it and every other name is unaffected |
| ModulePipelines.ModulePipeline.InitializePipeline | HitEngine/src/Module.cpp:13-25 | initialize_pipeline hands each module the engine and initializes the modules in order up to the first failure, and succeeds exactly when none fails |
| ModulePipelines.ModulePipeline.ExecuteModules | HitEngine/src/Module.cpp:39-50 | execute_modules runs the modules in order up to the first failure and succeeds exactly when none fails |
| ModulePipelines.ModulePipeline.RunPhase | HitEngine/src/Module.cpp:13-50 | the shared loop calls the modules in order up to the first failure |
| ModulePipelines.ModulePipeline.ShutdownPipeline | HitEngine/src/Module.cpp:27-37 | shutdown_pipeline shuts every module down in order and then forgets the engine, the modules and the names |
| ModulePipelines.DuplicateName | HitEngine/src/Module.cpp:58-71 | a second module under a taken name is refused and the first stays reachable |
| Rendergraphs.FindResource | HitEngine/src/Rendergraph.cpp:21-32 | the scan for a resource name finds its first occurrence, or reports that no resource bears it |
| Rendergraphs.HasResource | HitEngine/src/Rendergraph.cpp:21-32 | has_resource holds exactly when some resource of the pass bears the name |
| Rendergraphs.Names | HitEngine/src/Rendergraph.cpp:373-377 | the list of resource names has one name per resource, in order |
| Rendergraphs.DistinctIffSetSize | HitEngine/src/Rendergraph.cpp:373-382 | the set of names is as large as the list exactly when no name repeats, the test add_pass makes |
| Rendergraphs.UnbakedRendergraph.constructor | HitEngine/include/Renderer/Rendergraph.h:115-126 | a new unbaked graph has no pass |
| Rendergraphs.UnbakedRendergraph.HasPassResource | HitEngine/src/Rendergraph.cpp:396-416 | has_pass_resource holds exactly when the pass is registered and the scan of its resources for the name finds one |
| Rendergraphs.UnbakedRendergraph.AddPass | HitEngine/src/Rendergraph.cpp:363-389 | add_pass succeeds exactly when the name is new and the pass's resource names are distinct, then appends the pass and maps the name to its position, and otherwise changes nothing |
| Rendergraphs.Generate | HitEngine/src/Rendergraph.cpp:59-74 | resource generation succeeds exactly when every pass generates a non-empty list of resources, and then yields those lists in pass order |
| Rendergraphs.SetTextures | HitEngine/src/Rendergraph.cpp:119-126 | handing textures to one resource changes only that resource's textures: every other pass and every other resource of the pass stay as they were |
| Rendergraphs.LinkGlobal | HitEngine/src/Rendergraph.cpp:85-127 | a global dependency links exactly when the pass has the destination resource, it is of global origin and its type matches the buffer's; the destination then holds the buffer's textures, and the colour buffer counts as linked exactly for a colour buffer |
| Rendergraphs.LinkGlobals | HitEngine/src/Rendergraph.cpp:83-128 | linking the global dependencies keeps the shape of every pass's resources |
| Rendergraphs.LinkGlobalsDone | HitEngine/src/Rendergraph.cpp:83-128 | the global dependencies of a pass link exactly when each of them fits the pass's resources as they were before |
| Rendergraphs.LinkGlobalsFlag | HitEngine/src/Rendergraph.cpp:83-124 | once linked, the colour flag is raised exactly when it was raised before or some global dependency reads a colour buffer |
| Rendergraphs.LinkGlobalsTextures | HitEngine/src/Rendergraph.cpp:83-128 | linking global dependencies changes no other pass, and each resource ends with the textures of the buffer of the last dependency naming it, or its own when none does |
| Rendergraphs.KeptFind | HitEngine/src/Rendergraph.cpp:21-32 | linking changes only textures, so a name finds the same resource before and after |
| Rendergraphs.LinkDependency | HitEngine/src/Rendergraph.cpp:131-182 | a pass dependency links exactly when its checks all hold, and the destination then holds the source resource's textures; it throws exactly when the checks of lines 134-145 pass and the source pass is missing from the graph's own name map; a missing source resource is read only after the origin check |
| Rendergraphs.LinkDependencies | HitEngine/src/Rendergraph.cpp:129-183 | linking the pass dependencies keeps the shape of the resources |
| Rendergraphs.LinkDependenciesDone | HitEngine/src/Rendergraph.cpp:129-183 | the pass dependencies of a pass link exactly when each of them fits the resources as they were before |
| Rendergraphs.ShapeKeepsDependencyFits | HitEngine/src/Rendergraph.cpp:131-182 | whether a pass dependency fits does not depend on textures set by earlier links |
| Rendergraphs.LinkDependenciesFrame | HitEngine/src/Rendergraph.cpp:129-183 | linking the pass dependencies of a pass changes no other pass |
| Rendergraphs.LinkDependenciesTextures | HitEngine/src/Rendergraph.cpp:129-183 | after the pass dependencies link, a resource no dependency names keeps its textures, and one whose last naming dependency reads another pass holds that source resource's textures |
| Rendergraphs.LinkPass | HitEngine/src/Rendergraph.cpp:78-184 | linking one pass keeps the shape of the resources |
| Rendergraphs.LinkPassDone | HitEngine/src/Rendergraph.cpp:78-184 | a pass links exactly when all its global and pass dependencies fit the resources as they were before the pass |
| Rendergraphs.LinkPassEffect | HitEngine/src/Rendergraph.cpp:78-184 | a linked pass raises the colour flag exactly when it was raised or one of its global dependencies reads a colour buffer, and changes no other pass |
| Rendergraphs.LinkPasses | HitEngine/src/Rendergraph.cpp:78-192 | linking every pass keeps the shape of the resources |
| Rendergraphs.LinkPassesDone | HitEngine/src/Rendergraph.cpp:78-184 | the passes link exactly when every dependency of every pass fits the resources as they were before its pass |
| Rendergraphs.LinkPassesFlag | HitEngine/src/Rendergraph.cpp:76-192 | once every pass links, the colour flag says whether some pass has a global dependency reading a colour buffer |
| Rendergraphs.LinkPassesFrame | HitEngine/src/Rendergraph.cpp:78-184 | linking the passes from one on leaves the passes before it as they were |
| Rendergraphs.LastPresenting | HitEngine/src/Rendergraph.cpp:194-214 | the present pass is the last pass with a global colour resource, or none when no pass has one |
| Rendergraphs.PresentPassFound | HitEngine/src/Rendergraph.cpp:186-214 | once a pass linked the global colour buffer, the search for the present pass finds one |
| Rendergraphs.ClearFlag | HitEngine/src/Rendergraph.cpp:226-228 | the clear flag is a combination of the three bits and is non-zero exactly when some clear is asked for |
| Rendergraphs.LoadOpOf | HitEngine/src/Rendergraph.cpp:241-252 | the load operation is clear when some clear is asked for, load when the last pass is to be loaded, and otherwise don't-care |
| Rendergraphs.Attachments | HitEngine/src/Rendergraph.cpp:236-258 | one attachment per resource, of its type, with the pass's load operation, store, its textures and the first texture's format; a resource without textures faults |
| Rendergraphs.ConfigOf | HitEngine/src/Rendergraph.cpp:217-258 | a pass's configuration presents after it exactly when it is the present pass, carries its clear flag and one attachment per resource |
| Rendergraphs.Build | HitEngine/src/Rendergraph.cpp:217-273 | building the render passes never throws, pushes one baked pass per unbaked pass when it succeeds, and keeps the passes already baked |
| Rendergraphs.InitializeAll | HitEngine/src/Rendergraph.cpp:279-286 | initialisation succeeds exactly when every baked pass initializes |
| Rendergraphs.Bake | HitEngine/src/Rendergraph.cpp:34-289 | initialize refuses without a renderer or with no pass, and on success has copied the locator and baked one pass per unbaked pass |
| Rendergraphs.BakeNeedsColorLink | HitEngine/src/Rendergraph.cpp:59-192 | initialize succeeds only when every pass generated its resources, every dependency fits, and some pass has a global dependency reading the colour buffer; otherwise it does not succeed |
| Rendergraphs.Present | HitEngine/src/Rendergraph.cpp:194-289 | the stages after linking, on success, copy the locator and bake one pass per unbaked pass |
| Rendergraphs.GenerateResources | HitEngine/src/Rendergraph.cpp:59-74 | the generation loop computes what Generate does |
| Rendergraphs.LinkResources | HitEngine/src/Rendergraph.cpp:78-192 | the linking loop computes what LinkPasses does |
| Rendergraphs.FindPresentPass | HitEngine/src/Rendergraph.cpp:194-208 | the reverse scan finds the last presenting pass |
| Rendergraphs.BuildAttachments | HitEngine/src/Rendergraph.cpp:236-258 | the attachment loop computes what Attachments does |
| Rendergraphs.Configure | HitEngine/src/Rendergraph.cpp:217-258 | the configuration step computes what ConfigOf does |
| Rendergraphs.Rendergraph.constructor | HitEngine/include/Renderer/Rendergraph.h:134-150 | a new graph has no pass and unset global buffers |
| Rendergraphs.Rendergraph.HasPass | HitEngine/src/Rendergraph.cpp:352-360 | has_pass holds exactly when get_pass would not throw |
| Rendergraphs.Rendergraph.GetPass | HitEngine/src/Rendergraph.cpp:357-360 | get_pass throws exactly for a name that is not registered and otherwise returns the pass it locates |
| Rendergraphs.Rendergraph.Initialize | HitEngine/src/Rendergraph.cpp:34-289 | initialize leaves the status, baked passes and locator that Bake computes, and records the swapchain as the colour buffer when it proceeds |
| Rendergraphs.Rendergraph.Finish | HitEngine/src/Rendergraph.cpp:194-289 | the stages after linking leave what Present computes |
| Rendergraphs.Rendergraph.CreateRenderpasses | HitEngine/src/Rendergraph.cpp:217-273 | the render pass loop leaves the status and pushed passes Build computes |
| Rendergraphs.FreshGraphRejectsDependencies | HitEngine/src/Rendergraph.cpp:159 | as written, a pass dependency looks its source up in the graph's own, still empty, locator, so any graph with a pass dependency is refused or throws and bakes nothing |
| Rendergraphs.BakeCorrected | HitEngine/src/Rendergraph.cpp:34-289 | initialize with the source pass looked up in the unbaked graph's locator refuses without a renderer or with no pass |
| Rendergraphs.CorrectedLinkDependency | HitEngine/src/Rendergraph.cpp:131-182 | with the corrected lookup a pass dependency links exactly when the destination exists with external origin, the source pass and resource exist, and the two types agree; it never throws |
| Rendergraphs.CorrectedNeverThrows | HitEngine/src/Rendergraph.cpp:34-289 | with the corrected lookup initialize never throws |
| ConfigLexer.Forward | HitEngine/src/StandardConfigurationFile.cpp:156 | advance moves one character on and one column right |
| ConfigLexer.Consumed | HitEngine/src/StandardConfigurationFile.cpp:162-173 | consume(c) moves one character on exactly when the current character is c, and otherwise leaves the reader where it is |
| ConfigLexer.CommentEnd | HitEngine/src/StandardConfigurationFile.cpp:210 | the comment loop stops on the line it started, at a newline or a character short of the end |
| ConfigLexer.SkipOnce | HitEngine/src/StandardConfigurationFile.cpp:190-212 | one pass of ignore_irrelevant moves on whenever it stands on a blank or a comment mark, and goes past the end only after a comment mark that ends the text |
| ConfigLexer.LineFeed | HitEngine/src/StandardConfigurationFile.cpp:194-198 | consuming a newline moves on only over a newline |
| ConfigLexer.Tab | HitEngine/src/StandardConfigurationFile.cpp:200-203 | consuming a tab moves on only over a tab |
| ConfigLexer.Comment | HitEngine/src/StandardConfigurationFile.cpp:207-212 | a comment is skipped up to and over its newline, and past the end of the text only when the mark is its last character |
| ConfigLexer.Skip | HitEngine/src/StandardConfigurationFile.cpp:188-214 | ignore_irrelevant stops at the first character that is neither a blank nor a comment, and is undefined exactly when a comment mark ends the text |
| ConfigLexer.DigitsEnd | HitEngine/src/StandardConfigurationFile.cpp:61-65 | the digit loop passes only digits, on one line, and stops at the end or a character short of it as the loop rule says |
| ConfigLexer.AlnumsEnd | HitEngine/src/StandardConfigurationFile.cpp:75 | the naming loop passes only letters, digits and underscores |
| ConfigLexer.QuoteEnd | HitEngine/src/StandardConfigurationFile.cpp:85-94 | the string loop passes no quote and stops at a quote or at the end of what it may read |
| ConfigLexer.BraceEnd | HitEngine/src/StandardConfigurationFile.cpp:26-46 | the source loop stops at a closing brace at depth zero or at the end of what it may read |
| ConfigLexer.BraceEndCount | HitEngine/src/StandardConfigurationFile.cpp:26-46 | the depth the source loop ends with is the nesting depth of the text it passed |
| ConfigLexer.BraceEndCloses | HitEngine/src/StandardConfigurationFile.cpp:34-37 | every closing brace the source loop passes closes a brace it opened |
| ConfigLexer.BalancedSlice | HitEngine/src/StandardConfigurationFile.cpp:26-50 | a slice in which every closing brace closes an open one and that ends at depth zero is balanced |
| ConfigLexer.NumberDecimal | HitEngine/src/StandardConfigurationFile.cpp:59-69 | digits, optionally followed by a point and digits, form a decimal |
| ConfigLexer.ReadBlockSource | HitEngine/src/StandardConfigurationFile.cpp:18-57 | a source read is a '{', a body and its '}', the token holding the body, which is balanced unless the closing brace ends the text as written; anything else is an invalid token |
| ConfigLexer.ReadNumber | HitEngine/src/StandardConfigurationFile.cpp:59-70 | a number token holds the decimal read; it is empty only as written, for a digit that ends the text |
| ConfigLexer.ReadNaming | HitEngine/src/StandardConfigurationFile.cpp:72-79 | a naming token holds a letter or underscore and the letters, digits and underscores after it |
| ConfigLexer.ReadString | HitEngine/src/StandardConfigurationFile.cpp:81-105 | a string token is read exactly when a closing quote follows, and holds the text between the quotes; otherwise the token is invalid |
| ConfigLexer.Punctuation | HitEngine/src/StandardConfigurationFile.cpp:107-142 | a punctuation token has its kind and spelling and moves one character on |
| ConfigLexer.Read | HitEngine/src/StandardConfigurationFile.cpp:12-150 | get_next after the blanks: a source read yields a source or invalid token, '::' moves two characters, the end token only where no character follows, and every ordinary token has the shape of its kind except the empty number a final digit gives as written |
| ConfigLexer.NextToken | HitEngine/src/StandardConfigurationFile.cpp:12-16 | get_next skips the blanks, is undefined exactly when that is, and then reads one token |
| ConfigLexer.TokenizeOutcome | HitEngine/src/StandardConfigurationFile.cpp:227-264 | from any point the token loop ends with a well-formed list of shaped tokens, or hangs only on a final digit as written, or is undefined only after a final comment mark |
| ConfigLexer.LexOutcome | HitEngine/src/StandardConfigurationFile.cpp:227-264 | the tokens of a text are a well-formed list of shaped tokens, ending in the end token or a single invalid one, or the loop hangs on a final digit as written, or reads past a final comment mark |
| ConfigLexer.SourceReader.constructor | HitEngine/src/StandardConfigurationFile.cpp:9-10 | a new reader stands at the start of its text, line 1, column 1 |
| ConfigLexer.SourceReader.Advance | HitEngine/src/StandardConfigurationFile.cpp:156 | advance moves the reader as Forward says |
| ConfigLexer.SourceReader.Consume | HitEngine/src/StandardConfigurationFile.cpp:162-173 | consume(c) succeeds exactly when the current character is c and leaves the reader where Consumed says |
| ConfigLexer.SourceReader.SkipComment | HitEngine/src/StandardConfigurationFile.cpp:210 | the comment loop leaves the reader where CommentEnd says |
| ConfigLexer.SourceReader.IgnoreIrrelevant | HitEngine/src/StandardConfigurationFile.cpp:188-214 | ignore_irrelevant leaves the reader where Skip says, and is defined exactly when Skip is |
| ConfigLexer.SourceReader.IgnoreOnce | HitEngine/src/StandardConfigurationFile.cpp:190-212 | one pass of the loop leaves the reader where SkipOnce says |
| ConfigLexer.SourceReader.ReadDigits | HitEngine/src/StandardConfigurationFile.cpp:61-65 | the digit loop leaves the reader where DigitsEnd says |
| ConfigLexer.SourceReader.ReadAlnums | HitEngine/src/StandardConfigurationFile.cpp:75 | the naming loop leaves the reader where AlnumsEnd says |
| ConfigLexer.SourceReader.ReadQuoted | HitEngine/src/StandardConfigurationFile.cpp:85-94 | the string loop leaves the reader where QuoteEnd says |
| ConfigLexer.SourceReader.ReadBraced | HitEngine/src/StandardConfigurationFile.cpp:26-46 | the source loop leaves the reader and depth BraceEnd computes |
| ConfigLexer.SourceReader.GetNext | HitEngine/src/StandardConfigurationFile.cpp:12-150 | get_next returns the token NextToken computes and leaves the reader where it says |
| ConfigLexer.SourceReader.ReadToken | HitEngine/src/StandardConfigurationFile.cpp:16-150 | the token branches return what Read computes |
| ConfigLexer.SourceReader.ReadPunctuation | HitEngine/src/StandardConfigurationFile.cpp:107-149 | the punctuation branches return what Read computes |
| ConfigLexer.SourceReader.ReadSourceBlock | HitEngine/src/StandardConfigurationFile.cpp:18-57 | the source branch returns what ReadBlockSource computes |
| ConfigLexer.TokenReader.GetCurrent | HitEngine/src/StandardConfigurationFile.cpp:266 | get_current is the token at the reader's position |
| ConfigLexer.TokenReader.HasNext | HitEngine/src/StandardConfigurationFile.cpp:270 | has_next holds exactly when a token follows the current one, so when it fails the reader stands on the end token |
| ConfigLexer.TokenReader.Check | HitEngine/src/StandardConfigurationFile.cpp:276 | check holds exactly when the token get_current returns has the kind |
| ConfigLexer.TokenReader.Advance | HitEngine/src/StandardConfigurationFile.cpp:274 | advance moves to the next token |
| ConfigLexer.TokenReader.Consume | HitEngine/src/StandardConfigurationFile.cpp:306-315 | consume succeeds exactly when the current token has the kind, and moves on only then |
| ConfigLexer.TokenReader.constructor | HitEngine/src/StandardConfigurationFile.cpp:227-264 | a new token reader stands on the first of the tokens Lex computes, and holds none when lexing does not end |
| ConfigLexer.ReadAll | HitEngine/src/StandardConfigurationFile.cpp:227-264 | the reading loop collects the tokens Lex computes |
| ConfigLexerCases.TrailingDigitHangs | HitEngine/src/StandardConfigurationFile.cpp:61-154 | as written, the text "a:1" makes the token reader loop forever, because the final digit is never consumed |
| ConfigLexerCases.TrailingDigitRead | HitEngine/src/StandardConfigurationFile.cpp:61-154 | with the loops running to the end of the text, "a:1" gives a naming, an assignment, the number 1 and the end |
| ConfigLexerCases.TrailingNamingSplits | HitEngine/src/StandardConfigurationFile.cpp:75-154 | as written, a two-letter name that ends the text is read as two names |
| ConfigLexerCases.TrailingNamingWhole | HitEngine/src/StandardConfigurationFile.cpp:75-154 | with the loops running to the end, it is read as one name |
| ConfigLexerCases.TrailingSourceUnbalanced | HitEngine/src/StandardConfigurationFile.cpp:27-154 | as written, a source block "{{}" that ends the text is read as the unbalanced body "{" |
| ConfigLexerCases.TrailingSourceRejected | HitEngine/src/StandardConfigurationFile.cpp:27-154 | with the loops running to the end, that block is an invalid token |
| ConfigFiles.Property.SetValue | HitEngine/include/File/StandardConfigurationFile.h:53 | setting a single value makes the property single with that value and keeps its identifier |
| ConfigFiles.Property.SetValues | HitEngine/include/File/StandardConfigurationFile.h:54 | setting a list makes the property a list of exactly those values and keeps its identifier |
| ConfigFiles.Block.GetProperty | HitEngine/src/StandardConfigurationFile.cpp:490-494 | get_property returns the property stored under the identifier, and the default property when there is none |
| ConfigFiles.Block.GetInnerBlock | HitEngine/src/StandardConfigurationFile.cpp:501-505 | get_inner_block returns a block exactly when one is stored under the identifier, and that block |
| ConfigFiles.Block.AddProperty | HitEngine/src/StandardConfigurationFile.cpp:507-510 | add_property stores the property under its identifier, replacing any earlier one, and changes nothing else |
| ConfigFiles.Block.AddInnerBlock | HitEngine/src/StandardConfigurationFile.cpp:512-515 | add_inner_block stores the block under its identifier, replacing any earlier one, and changes nothing else |
| ConfigFiles.NewBlock | HitEngine/include/File/StandardConfigurationFile.h:70 | a new block has its identifier, no source content, no properties and no inner blocks |
| ConfigFiles.Defaults | HitEngine/include/File/StandardConfigurationFile.h:22-74 | a default value is the number 0, a default property is single with no identifier, set_value switches the shape, and a block is a source block exactly when its content is not empty |
| ConfigFiles.ValueAt | HitEngine/src/StandardConfigurationFile.cpp:456-473 | parse_value consumes a number, string or naming token and returns its value, and otherwise consumes nothing and returns the default value |
| ConfigFiles.ListAt | HitEngine/src/StandardConfigurationFile.cpp:424-436 | the list loop keeps the values read so far, extends them, and never goes past the end token |
| ConfigFiles.ContentAt | HitEngine/src/StandardConfigurationFile.cpp:418-451 | after ':' a property is a list exactly when '[' follows, and otherwise a single value |
| ConfigFiles.PropertyAt | HitEngine/src/StandardConfigurationFile.cpp:410-454 | parse_property takes the identifier of the current token and is a list exactly when ':' and '[' follow |
| ConfigFiles.BlockAt | HitEngine/src/StandardConfigurationFile.cpp:350-408 | parse_block consumes something exactly when it stands on a naming, names the block after it, gives a source block its content and nothing else, and fails on a missing '}' only under the strict rule |
| ConfigFiles.BodyAt | HitEngine/src/StandardConfigurationFile.cpp:370-399 | the body loop keeps the block's identifier and ordered maps, and fails on a missing '}' only under the strict rule |
| ConfigFiles.RootsAt | HitEngine/src/StandardConfigurationFile.cpp:342-345 | the root loop keeps the blocks read so far in order and extends them |
| ConfigFiles.BuildTree | HitEngine/src/StandardConfigurationFile.cpp:332-348 | build_block_tree gives no blocks when the text does not lex, and fails on a missing '}' only under the strict rule |
| ConfigFiles.LastNamed | HitEngine/src/StandardConfigurationFile.cpp:528-531 | the block stored under an identifier is the last block with that identifier, and there is none exactly when no block has it |
| ConfigFiles.RootMap | HitEngine/src/StandardConfigurationFile.cpp:528-531 | the root map is ordered by key and holds under each identifier the last block of that name |
| ConfigFiles.BlockStrict | HitEngine/src/StandardConfigurationFile.cpp:393-398 | on a block, the strict rule and the rule as written agree except where the strict one reports a missing '}' |
| ConfigFiles.BodyStrict | HitEngine/src/StandardConfigurationFile.cpp:393-398 | on a body, the strict rule and the rule as written agree except where the strict one reports a missing '}' |
| ConfigFiles.RootsStrict | HitEngine/src/StandardConfigurationFile.cpp:342-398 | on the root loop, the strict rule and the rule as written agree except where the strict one reports a missing '}' |
| ConfigFiles.StrictLoad | HitEngine/src/StandardConfigurationFile.cpp:393-532 | a missing '}' is the only place where the strict load differs from the load as written; the strict load then keeps no blocks |
| ConfigFiles.StrayRootToken | HitEngine/src/StandardConfigurationFile.cpp:342-359 | a root token that is not a naming is never consumed, so build_block_tree loops forever |
| ConfigFiles.Load | HitEngine/src/StandardConfigurationFile.cpp:517-532 | loading gives ordered root blocks, loops forever under the loop rule to the end only where the parser does, and reads past the end only after a final comment mark |
| ConfigFiles.Parser.constructor | HitEngine/src/StandardConfigurationFile.cpp:330 | a new parser's token reader stands on the first of the tokens of the text |
| ConfigFiles.Parser.BuildBlockTree | HitEngine/src/StandardConfigurationFile.cpp:332-348 | build_block_tree returns what BuildTree computes |
| ConfigFiles.Parser.ParseBlock | HitEngine/src/StandardConfigurationFile.cpp:350-408 | parse_block returns what BlockAt computes and moves the reader to its end |
| ConfigFiles.Parser.ParseBody | HitEngine/src/StandardConfigurationFile.cpp:370-399 | the body loop returns what BodyAt computes and moves the reader to its end |
| ConfigFiles.Parser.ParseProperty | HitEngine/src/StandardConfigurationFile.cpp:410-418 | parse_property returns what PropertyAt computes and moves the reader to its end |
| ConfigFiles.Parser.ParseContent | HitEngine/src/StandardConfigurationFile.cpp:418-451 | the content branch sets the content ContentAt computes and moves the reader to its end |
| ConfigFiles.Parser.ParseList | HitEngine/src/StandardConfigurationFile.cpp:420-446 | the list loop returns what ListAt computes and moves the reader to its end |
| ConfigFiles.Parser.ParseValue | HitEngine/src/StandardConfigurationFile.cpp:456-473 | parse_value returns what ValueAt computes and moves the reader to its end |
| ConfigFiles.StandardConfigurationFile.constructor | HitEngine/src/StandardConfigurationFile.cpp:517-532 | the file stores the root map of the blocks the parser as written reads, and nothing when the load does not end |
| ConfigFiles.StandardConfigurationFile.StoreRoots | HitEngine/src/StandardConfigurationFile.cpp:528-531 | the storing loop builds the root map of the blocks |
| ConfigFiles.StandardConfigurationFile.HasConfiguration | HitEngine/src/StandardConfigurationFile.cpp:534-537 | has_configuration holds exactly when has_block holds for some identifier |
| ConfigFiles.StandardConfigurationFile.HasBlock | HitEngine/src/StandardConfigurationFile.cpp:539-542 | has_block holds exactly when one of the stored root blocks carries the identifier |
| ConfigFiles.StandardConfigurationFile.GetBlock | HitEngine/src/StandardConfigurationFile.cpp:544-548 | get_block returns a block exactly when has_block holds, and the block stored under the identifier |
| ConfigFileCases.OpenOnlyTokens | HitEngine/src/StandardConfigurationFile.cpp:12-264 | the text "a{" lexes to a naming, a '{' and the end token |
| ConfigFileCases.OpenOnlyTree | HitEngine/src/StandardConfigurationFile.cpp:370-398 | its tree as written is the block "a", and under the strict rule it is a missing '}' |
| ConfigFileCases.MissingCloseAccepted | HitEngine/src/StandardConfigurationFile.cpp:393-532 | as written, loading "a{" keeps the block "a" although its '}' is missing |
| ConfigFileCases.MissingCloseRejected | HitEngine/src/StandardConfigurationFile.cpp:393-532 | under the strict rule, loading "a{" keeps no blocks |
| ShaderParsing.StrToShaderData | HitTools/src/ShaderParser.cpp:12-67 | a type name that is recognised equals, ignoring case, the name of the type it gives |
| ShaderParsing.LowerCaseEqual | HitTools/src/ShaderParser.cpp:12-67 | two lower-case names equal ignoring case are the same name |
| ShaderParsing.TypeNameLowerCase | HitTools/src/ShaderParser.cpp:16-63 | every name str_to_shader_data compares against is lower case |
| ShaderParsing.TypeNamesApart | HitTools/src/ShaderParser.cpp:16-63 | no two data types share a name, even ignoring case |
| ShaderParsing.StrToShaderDataMeaning | HitTools/src/ShaderParser.cpp:12-67 | str_to_shader_data gives a type exactly when the text equals its name ignoring case, and gives none only when the text matches no name |
| ShaderParsing.StringInputs | HitTools/src/ShaderParser.cpp:172-183 | the collected inputs are no more than the properties |
| ShaderParsing.StringInputsMeaning | HitTools/src/ShaderParser.cpp:172-183 | every input comes from a property holding a string, with its type and identifier, and every such property gives one |
| ShaderParsing.StringInputsInKeyOrder | HitTools/src/ShaderParser.cpp:172-183 | the inputs follow the map's increasing identifier order |
| ShaderParsing.LayoutOf | HitTools/src/ShaderParser.cpp:185 | the layout built from the inputs lays them out |
| ShaderParsing.LaysOutUnique | HitTools/src/ShaderParser.cpp:185 | a layout is determined by its inputs |
| ShaderParsing.Textures | HitTools/src/ShaderParser.cpp:310-326 | the texture loop gives at most one sampler per property |
| ShaderParsing.TexturesMeaning | HitTools/src/ShaderParser.cpp:310-326 | every texture uniform is an image sampler without a layout, named by a property holding "texture" ignoring case |
| ShaderParsing.TexturesStop | HitTools/src/ShaderParser.cpp:314-318 | a string that is not "texture" stops the loop: no property after it gives a sampler |
| ShaderParsing.FragmentUniformsByKey | HitTools/src/ShaderParser.cpp:288-328 | the blocks inside FragmentUniform are visited in key order, so the "Layout" buffer, when present, precedes the "TexturesMaps" samplers, and other blocks give nothing |
| ShaderParsing.FragmentUniformsStep | HitTools/src/ShaderParser.cpp:288-328 | one more block, last in key order, keeps that shape |
| ShaderParsing.DigitRun | HitTools/src/ShaderParser.cpp:226-278 | the leading digit run holds only digits and stops at a non-digit |
| ShaderParsing.IntegerPartOfDecimal | HitTools/src/ShaderParser.cpp:226-278 | the integer part of a number lexeme is the value of the digits before its point |
| ShaderParsing.ShaderOf | HitTools/src/ShaderParser.cpp:156-339 | read_shader succeeds exactly when the stage's block exists, returns its text and the stage's kind, gives the fragment stage no attributes, and leaves max_uniforms 0 without the stage's uniform block |
| ShaderParsing.LayoutInKeyOrder | HitTools/src/ShaderParser.cpp:172-185 | a block's layout has one element per string property, in increasing identifier order, each of the type its property names |
| ShaderParsing.LayoutCoversInputs | HitTools/src/ShaderParser.cpp:172-185 | every property holding a string names an element of the layout |
| ShaderParsing.AttributesInKeyOrder | HitTools/src/ShaderParser.cpp:167-186 | the vertex attributes are listed in increasing identifier order |
| ShaderParsing.ShaderParser.HasConfiguration | HitTools/src/ShaderParser.cpp:75-124 | has_configuration holds exactly when there is a "Shader" block whose name and pass each hold one string, with a vertex or fragment block, each present one a source block |
| ShaderParsing.ShaderParser.GetShaderName | HitTools/src/ShaderParser.cpp:126-129 | get_shader_name returns the string "name" holds |
| ShaderParsing.ShaderParser.GetPassName | HitTools/src/ShaderParser.cpp:131-134 | get_pass_name returns the string "pass" holds |
| ShaderParsing.ShaderParser.HasShaderType | HitTools/src/ShaderParser.cpp:136-154 | has_shader_type holds only when read_shader succeeds with non-empty text, and fails only when the stage's block is missing or is not a source block |
| ShaderParsing.ShaderParser.ReadShader | HitTools/src/ShaderParser.cpp:156-339 | read_shader returns what ShaderOf computes |
| ShaderParsing.ReadVertex | HitTools/src/ShaderParser.cpp:163-262 | the vertex branch reads the attributes, instance count and uniforms the spec functions give |
| ShaderParsing.ReadFragment | HitTools/src/ShaderParser.cpp:263-336 | the fragment branch reads no attributes and the instance count and uniforms the spec functions give |
| ShaderParsing.ConfiguredStages | HitTools/src/ShaderParser.cpp:75-154 | a configured shader has a stage to read, and has_shader_type holds exactly for the stages present |
| ShaderParsing.NewShaderParser | HitTools/src/ShaderParser.cpp:73 | the parser holds the root blocks of its text as the configuration file reads them |
| ShaderParsing.CollectInputs | HitTools/src/ShaderParser.cpp:172-183 | the property loop collects exactly StringInputs |
| ShaderParsing.BuildLayout | HitTools/src/ShaderParser.cpp:172-185 | the loop and BufferLayout give the layout of the collected inputs |
| ShaderParsing.CollectTextures | HitTools/src/ShaderParser.cpp:310-326 | the texture loop collects exactly Textures |
| ShaderParsing.CollectFragmentUniforms | HitTools/src/ShaderParser.cpp:288-328 | the loop over FragmentUniform's blocks collects exactly FragmentUniforms |

## Left out

- Destructors, and the `Ref`/`create_ref` ownership machinery: a destroyed object is simply no longer used.
- HandleListObjects.HandleList.Moved and MoveAssign model the move constructor and move assignment as intended. As written, both are ill-formed once instantiated, so they have no run-time behaviour to model: the move constructor ends with `return *this` (HitEngine/include/Utils/HandleList.h:122), and the move assignment compares the arenas with `==` (HitEngine/include/Utils/HandleList.h:136-137), an operator neither arena type declares.
- HandleLists.CompareTo models `compare_to` (and `operator==`, `operator!=`) as intended. As written, `compare_to` compares the index with `other.valid`, which names the member function `valid` without calling it (HitEngine/include/Utils/HandleList.h:76-85), so the template is ill-formed once instantiated and has no run-time behaviour to model.
- Handle construction: the `verison` parameter misspelling leaves a default handle's version indeterminate. The model's handles always carry the version they were issued with.
- Pointer-difference slot indices are explicit indices. Placement new and destructor calls are value writes and removals. `std::realloc` preserves contents.
- HandleListObjects.HandleList.Remove: the handle must be one the list issued, live or stale. A forged handle that names a free slot is excluded, because the source follows that slot's links into the free list.
- The copy and move constructors and assignments of `Serializer` and `Deserializer` (Serializer.h:47-61, Deserializer.h:54-77) are copies or moves of the underlying arena, which the arena modules model.
- Serializers.Serializer.Serialize, SerializeString, SerializeWords, and the program and uniform writers require non-empty payloads. `push_array(0)` asserts, and that assertion is a precondition rather than a modelled outcome.
- Arenas.Arena.PushMemory requires the capacity plus the pushed size to stay below 2^63. At or above it, the growth cascade wraps the new capacity to 0 (or, past 2^64, to a smaller power of two), the reallocation is refused or shrinks the block, and the returned pointer lies outside the block; the model does not follow that case.
- MemoryRegistry.MemorySystem.Reregister promises only the common prefix of the old bytes. After `std::realloc` the bytes past the old size are indeterminate. The model fills them with zeros, one of their possible values, and no contract relies on that. Arenas.Arena.PushMemory and IncrementMemory make the same choice for their grown tails.
- Arenas.Arena.PushMemory and IncrementMemory take the reallocation of the arena's block to succeed. When `std::realloc` refuses it, `reallocate_usage` hands back the usage unchanged (HitEngine/src/Memory.cpp:144-149,212-221). `push_memory` then still returns `memory + m_used` and advances `m_used` past the end of the old block (HitEngine/src/Arena.cpp:99-104), and `increment_memory` leaves the block at its old size (HitEngine/src/Arena.cpp:117-120). The model does not follow that case, so its `used < capacity` invariant and IncrementMemory's growth by exactly n hold only for a succeeding allocator. TypedArenas and FastTypedArenas inherit this: `reserve_space` raises `m_capacity` whatever the arena did (HitEngine/include/Utils/TypedArena.h:150-156).
- FastTypedArenas.FastTypedArena.PushBack models both `push_back(const T&)` and `push_back(T&&)`. The second overload also zero-fills the caller's object after copying it (HitEngine/include/Utils/FastTypedArena.h:231-232). The model passes elements by value, so the caller's object is not represented.
- Buffers.DeserializeLayout, ShaderTypes.DeserializeUniformList, ShaderTypes.DeserializeProgram: the source resizes its vector to a count read from the data before reading any element (`m_layout.resize` at HitEngine/src/Buffer.cpp:104, `uniforms.resize` and `source.resize` at HitEngine/src/ShaderTypes.cpp:104-120). A count above `max_size()` throws `std::length_error`, and one the allocator cannot satisfy throws `std::bad_alloc`. The model has no allocator: it goes on reading and returns `Short` where the data runs out.
- Deserializers: the `deserialize*` variants abort on a failed read. That is modelled as a precondition that the read succeeds.
- Integer widths: `ui64` sizes, counts and positions are unbounded naturals, except for the arena's growth computation (written out, but see `Arenas.Arena.PushMemory` below), the free list's used counter and free space (`Common.Wrap64`), and the 32-bit handle version, where wrap-around is written out.
- StringHelpers.ToLower: characters are code points, and `std::tolower` is modelled on 'A'..'Z' in the "C" locale. Passing a `char` at or above 128, which is negative where `char` is signed, to `std::tolower` (HitEngine/include/Utils/StringHelpers.h:27) is undefined behaviour; the model keeps such a character unchanged.
- ConfigLexer: line and column counters are unbounded, although the source's are `ui32`.
- ConfigFiles.Value: a number keeps its lexeme instead of the `f64` that `str_to_f64` gives. Floating-point conversion is not modelled.
- ShaderParsing.Instances: the `(i32)` cast of a number is the integer part of its lexeme. Overflow of the 32-bit cast is not modelled. Lexer numbers are never negative, so `max(0, …)` is the identity.
- ShaderParsing: `get_blocks()` is not declared in the configuration file's header. It is modelled as iteration over the inner blocks in key order.
- ShaderParsing.ShaderParser.GetShaderName and GetPassName require the "Shader" block and a string property, because the source dereferences a null block or reads the wrong variant otherwise.
- ShaderParsing.ShaderParser.ReadShader and HasShaderType require the "Shader" block, for the same reason: both dereference it (HitTools/src/ShaderParser.cpp:138-142 for has_shader_type). ShaderParser is a value over the loaded root blocks, since nothing mutates it after construction.
- The vector overloads of `TokenReader::check`, `match` and `consume`, and of `SourceReader::consume`, are unused by the parser and are not modelled.
- `hit_error` and `hit_warning` messages are logging. Only their control flow (return or continue) is modelled.
- ConfigFiles.Property.SetValue and SetValues are functional updates. `set_identifier` and `set_source_block_content` are record updates inside the parser.
- The well-formed sample file of the configuration tests is not evaluated in the model. The short inputs in ConfigLexerCases and ConfigFileCases stand in for it.
- FastTypedArenas.FastTypedArena.PopArrayBack requires count <= size. The source asserts only size > 0, and a larger count would wrap the unsigned size.
- Freelists.FreelistCore: the class invariant is key order only. The full layout (ranges disjoint, inside the region, free plus used equal to the size) is proved on the specification functions.
- Freelists: `std::prev(begin())`, which the source evaluates when the freed block precedes every free range, is modelled as "no predecessor".
- Freelists.FreelistCore.Resize: the source evaluates `std::prev(end())` on an empty map. The model appends a new range there.
- MemoryRegistry.MemorySystem.CopyMemory: `std::memcpy` (HitEngine/src/Memory.cpp:167) is undefined when the source and destination ranges overlap. The model copies as `memmove` would: the destination receives the source bytes as they were before the call. `CopyUsage` inherits this.
- MemoryRegistry: addresses are abstract numbers, and the allocator's choice of a fresh address is a parameter of the allocating methods. A failure of `allocate_memory`, which the source asserts against (HitEngine/src/Memory.cpp:64-65), is not modelled. A refused `std::realloc` is modelled: it is the outcome parameter of ReallocateMemory and ReallocateUsage, where the source logs an error and returns null (HitEngine/src/Memory.cpp:144-149). The per-usage debug counters are not modelled; only the total is.
- Rendergraphs: textures, renderpasses, framebuffers, the `on_render`, `on_resize` and shutdown paths, and the floating-point clear values are abstracted away. Resources are plain records. The renderer is optional and carries only its swapchain images, which become the global colour buffer's textures. The frame width and height that initialize reads (HitEngine/src/Rendergraph.cpp:55-56) and hands to `generate_resources` are dropped: each pass's generated resources are a value of that pass.
- Rendergraphs: one pass reached under two names (the source's shared `Ref`) is not modelled. Passes live in one sequence indexed by the name map.
- Rendergraphs.Rendergraph.GetPass: a locator entry that points past the passes is a `Faulted` outcome rather than undefined behaviour.
- ModulePipelines: modules are values that carry the results their `initialize`, `execute` and `shutdown` overrides return. The overrides themselves are outside the model.
- ModulePipelines.ModulePipeline.SetEngine: the engine is an identifier, so the null assertion is not modelled. The default constructor leaves `m_engine` uninitialised, which the model represents as no engine.
- Releseables: `destroy` is an abstract call, recorded as a count of calls.

## Findings

| source | as written | input that shows it | evidently intended | confidence | as-written member | corrected member |
|---|---|---|---|---|---|---|
| HitEngine/include/Utils/FastTypedArena.h:281-285 | `clear` sets the size to 0 but leaves the arena's used bytes, so later pushes land after the stale elements while `data()` still starts at offset 0 | push 1, clear, push 2: `data()` reads [1] | clear also resets the arena, as `TypedArena::clear` does | high, not executed | FastTypedArenas.StaleDataAfterClear | FastTypedArenas.ClearCorrectedThenPush |
| HitEngine/include/Utils/Serializer.h:63-66 | `reset` clears the byte store with that `clear` | serialize byte 1, reset, serialize byte 2: the serialized data reads 1 | after a reset the data is what is written next | high, not executed | Serializers.ResetThenSerializeAsWritten | Serializers.ResetThenSerialize |
| HitEngine/include/Utils/HandleList.h:274-284 | `reset` clears the slot store with that `clear`, so the next slot sits behind the stale ones | reset a list that used one slot, then emplace: the new handle's index is past the slot count and resolves to nothing | reset restores an empty list whose handles resolve | high, not executed | HandleLists.ResetAsWrittenLosesHandle | HandleLists.Reset |
| HitEngine/src/Freelist.cpp:16-20 | `push_size` binary-searches the offset-ordered map by length with `lower_bound`, which assumes the lengths are sorted | free ranges {0:10} and {20:2}, request 5: push_size fails although the first range fits | find a free range long enough (first fit) | high, not executed | Freelists.LowerBoundMissesRoom | Freelists.PushFirstFitMeaning |
| HitEngine/src/Freelist.cpp:50-107 | `prev_it` is `end()` whenever `next_it` is `end()`, so a block freed after the last free range never joins it | from a fully used region of 10, free 5 at 0 and then 5 at 5: the free list is {0:5},{5:5} and a push of 10 fails | freed blocks coalesce back into the whole region, as the free-list tests expect | high, not executed | Freelists.AddressOrderFrees | Freelists.PopCoalescingIsReleased |
| HitEngine/include/Utils/HandleList.h:233-237 | removing the penultimate element does not re-link the new penultimate slot to the last one | add 10, 20, 30, 40; remove the third; add 50; remove the second, fourth and first: the handle of 50 names a resource index past the end | every live handle keeps resolving to its element | high, not executed | HandleListScenario.RelinkScenarioAsWritten | HandleLists.RemoveResolves |
| HitEngine/src/Memory.cpp:130-149 | the debug counter moves by the size difference before `std::realloc`, and is not restored when it fails | a refused reallocation of a 32-byte block to 48 bytes: the block stays registered at 32 bytes and the counter says 48 | the counter equals the sum of the registered sizes | medium, not executed | MemoryRegistry.FailedReallocationSkewsCounter | MemoryRegistry.MemorySystem.ReallocateMemoryCorrected |
| HitEngine/src/Rendergraph.cpp:159 | a pass dependency looks its source pass up in the graph's own name map, which `initialize` fills only at its end, so `.at` throws | initialize a fresh graph with any pass that depends on another pass: it never succeeds | look the source pass up in the unbaked graph's name map | high, not executed | Rendergraphs.FreshGraphRejectsDependencies | Rendergraphs.CorrectedNeverThrows |
| HitEngine/src/StandardConfigurationFile.cpp:61-154 | `has_next` is `m_current + 1 < size`, so a digit that ends the text is never consumed | the text "a:1": the token loop never ends | the last character is read like any other | high, not executed | ConfigLexerCases.TrailingDigitHangs | ConfigLexerCases.TrailingDigitRead |
| HitEngine/src/StandardConfigurationFile.cpp:75-154 | the same `has_next` stops a name one character early | a two-letter name that ends the text is read as two names | the name is read whole | high, not executed | ConfigLexerCases.TrailingNamingSplits | ConfigLexerCases.TrailingNamingWhole |
| HitEngine/src/StandardConfigurationFile.cpp:27-154 | the same `has_next` stops a source block on its last brace | the source block "{{}" that ends the text is read as the unbalanced body "{" | an unclosed block is an invalid token | high, not executed | ConfigLexerCases.TrailingSourceUnbalanced | ConfigLexerCases.TrailingSourceRejected |
| HitEngine/src/StandardConfigurationFile.cpp:393-398 | a missing '}' is only logged, and the partial block is kept | the text "a{": the file has a configuration, while the configuration tests expect none | a block without its '}' is rejected | medium, not executed | ConfigFileCases.MissingCloseAccepted | ConfigFileCases.MissingCloseRejected |
