# Verified models of gomlx's host code

gomlx serves language models. The tensor work is done by a device library; the code around it
on the host decides what text becomes which tokens, which cached blocks may be reused, what a
batch computes for each of its requests, and when a request ends. This project models that host
code in Dafny and proves what it promises. `dafny verify dfyconfig.toml` checks everything.

## What is modelled

- **Tokenizer** (`Regex`, `PreTokenize`, `ByteLevel`, `Bpe`). `Regex` gives ordered alternation,
  greedy repetition and look-ahead their backtracking meaning: the list of match ends in priority
  order. The hand-written scanner is proved to return the first of them for the regex in its comment,
  read with lower-casing for case folding, and it is proved exactly when full folding agrees.
  On top: the byte alphabet, the ranked merge loop, special-token segmentation, the buffered decoder,
  and the round trip of every text.
- **MCP connection** (`Conn`). The critical sections are methods of a class; callers, read loop and
  closer are state machines whose steps are those sections, channel sends, receives and wire events.
  All statements are about every interleaving, cancellations and write failures included.
- **Caches** (`Paged`, `BlockTables`, `BlockHash`, `Prefix`, `PrefixRuns`, `PrefixTrie`, `Snapshots`).
  The block pool and tables, the chained hash, and the LRU prefix cache are modelled as classes proved
  against functions on values; runs of those functions carry the invariants, the refinement of a trie
  and the bisimulation with a restored snapshot.
- **Draft index** (`Suffix`). The n-gram index over a sliding window and its drafts, against a rescan.
- **Decoding** (`Transformer`, `Masks`, `Batch`, `Generate`, `Runner`). Layers are row-wise functions
  plus attention over (score, value) pairs. Two things are assumed of the kernels: a score depends on
  the distance of two positions (`Relative`), and softmax gives no weight to a score that lies below
  the bounded others by nearly the mask value (`Underflows`). `States` says what a whole history means
  without caches. The single-stream pass with growing caches, and the left-padded batch with its flat
  additive masks, are both proved to compute it. `Answer` says, without running anything, what a
  request must produce; the single-stream loop and the lockstep loop are both proved to produce it,
  so they agree.
- **Sampler** (`Sampler`), **value quantizer** (`TurboQuant` for the bit stream, `Quantizer`),
  **JSON printer and reader** (`PyJson`), **rate limiter** (`RateLimit`).

`Basics` holds shared types, `Arith` integer facts used by several modules.

## What turned out false, and exactly when

- The scanner promises the published regex, whose first alternative ignores case by folding; the code
  lower-cases. They differ at a position if and only if a contraction stands there by folding that
  lower-casing misses and a letter follows it (`PreTokenize.ScannerExact`), as at a quote, a long s and
  an `a` (`PreTokenize.LongS`).
- The lockstep runner and the single-stream loop promise the same result. On a healthy device they give
  it if and only if the allocator grants the token limit and no stop string matches at index 0
  (`Runner.SameAsAlone`). The single-stream call makes a list as long as the limit and panics when that
  is negative or too large; the runner makes it with a negative limit replaced by the default of 256
  (`Runner.NegativeLimitDiffers`), and panics for the whole batch when one limit is too large
  (`Runner.HugeLimitPanics`). A match at index 0 leaves an empty cut text, which the runner takes as
  unset (`Runner.WholeTextDiffers`).
- Each job is to get exactly one result. It does if and only if no token limit of its batch is too
  large (`Runner.Run`).
- The final text is a prefix of what was streamed, and is all of it if and only if no stop string
  began in text already sent (`Generate.TextStartsStream`, `Generate.StopInSentText`).
- A call gets the response that bears its own id if and only if the id is not null; a null id is routed
  to call 0 (`Conn.OwnResponse`, `Conn.NullAnswersFirst`).
- A call on a closed connection is to return the closed error. One that is failed by the read loop gets
  the error the stream ended with, which need not be the recorded reason (`Conn.EndsTellTruth`,
  `Conn.LateErrorWins`).
- A handle returned by an insertion need not be resident: the fresh block is evicted at once if and
  only if a limit overflows and every older block is pinned (`PrefixRuns.FreshBlockLost`,
  `PrefixRuns.PinnedFullLoses`).
- Forking a table counts its holders correctly if and only if all shared blocks are allocated
  (`BlockTables.ForkCountsExactly`, `BlockTables.ForkOfFreeBlock`).
- Tokens appended after a fork are to land in no shared block. They never land in the prefix their table
  was forked with; they land in blocks it holds alone if and only if nobody else holds its half-filled
  last block (`BlockTables.AppendedPositionsOwned`), which a run keeps up if and only if it shares only whole
  blocks (`BlockTables.RunKeepsTails`). A fork of a half-filled block breaks it
  (`BlockTables.SharedTailLands`).
- The block hash starts from a basis that is not the published FNV one; nothing here is about FNV.

## Conventions

Inputs from outside are parameters: Unicode tables, the context's answer at each check, the layer in
which the device fails at each pass, the largest list the allocator grants, the random draws, the
exponential and the square root, the clock. Text is a sequence of code points where the code ranges over
runes, and of bytes where it slices. Probabilities, statistics and
quantized values are reals. The Unicode tables are any for which `\r`, `\n` and the space are spaces, the
quote is neither letter nor number, and folding to a contraction's letters relates letters only, keeps
them apart and includes lower-casing (`Unicode.Valid`).

## Model

| member | source | states |
|---|---|---|
| `PreTokenize.HasFoldSuffix` | tokenizer/pretokenize.go:94-106 | the suffix is there, character by character under lower-casing, exactly when the literal matches |
| `PreTokenize.MatchLetters` | tokenizer/pretokenize.go:109-124 | the hand-written scan ends where the letter alternative of the regex first matches by backtracking priority, and fails exactly when it does |
| `PreTokenize.MatchSymbols` | tokenizer/pretokenize.go:127-146 | the same for the symbol alternative with its optional space and trailing newlines |
| `PreTokenize.MatchNewlineRun` | tokenizer/pretokenize.go:149-166 | the same for the greedy `\s*[\r\n]+`, giving back characters until a newline ends it |
| `PreTokenize.NewlineFirst` | tokenizer/pretokenize.go:149-166 | backtracking leaves the newline alternative ending after the last newline of the whole space run |
| `PreTokenize.MatchContraction` | tokenizer/pretokenize.go:41-50 | the contraction scan is the first suffix in list order that matches under lower-casing |
| `PreTokenize.MatchSpaces` | tokenizer/pretokenize.go:71-89 | the two last alternatives, look-ahead included: all but the last space before a word, everything at the end |
| `PreTokenize.TrailingFirst` | tokenizer/pretokenize.go:71-89 | exactly when and where `\s+(?!\S)` first matches |
| `PreTokenize.MatchPiece` | tokenizer/pretokenize.go:39-89 | for every text and position the result is the end of the first match, in priority order, of the seven-way regex under lower-casing, lies beyond the position, and is that of the published regex if and only if no contraction is misread there |
| `PreTokenize.ScannerExact` | tokenizer/pretokenize.go:7-89 | scanner and published regex first match alike at a position if and only if no contraction stands there by case folding that lower-casing misses and that a letter follows |
| `PreTokenize.LongS` | tokenizer/pretokenize.go:94-106 | at a quote, a long s (U+017F) and an `a` the regex ends the piece after two characters, the scanner after three |
| `PreTokenize.SplitExact` | tokenizer/pretokenize.go:21-37 | the scanner splits a text as the published regex does if and only if none of its pieces starts at a misread contraction |
| `PreTokenize.PieceMatches` | tokenizer/pretokenize.go:7-20 | with either notion of case the regex matches a non-empty piece at every position, so the stall guard never fires |
| `PreTokenize.PreTokenize` | tokenizer/pretokenize.go:21-37 | the pieces are the split by the regex under lower-casing, that by the published regex exactly when no contraction is misread, are not empty, and concatenate back to the text |
| `ByteLevel.RuneInjective` | tokenizer/bytelevel.go:15-49 | no two bytes share a printable character |
| `ByteLevel.Utf8Injective` | tokenizer/bytelevel.go:52-58 | different texts have different bytes, so a round trip of bytes is one of texts |
| `ByteLevel.ByteToRune` | tokenizer/bytelevel.go:15-49 | the table and the reverse map are inverse on all 256 bytes; the printable bytes stand for themselves and the others for the characters from U+0100 on, in order |
| `ByteLevel.EncodeBytes` | tokenizer/bytelevel.go:52-58 | the lifted text is the byte-by-byte image of the input |
| `Bpe.BuildRanks` | tokenizer/bpe.go:51-103 | the rank of a pair is the position of its last occurrence in the merge list |
| `Bpe.Build` | tokenizer/bpe.go:51-103 | an empty vocabulary is refused; otherwise the tables are as the file says, of several added tokens with one content or id the last deciding, special tokens longest first, and lossless whenever the file is |
| `Bpe.LongestSpecialWins` | tokenizer/bpe.go:51-103 | where several special tokens match, the one taken is the longest |
| `Bpe.SpecialHit` | tokenizer/bpe.go:154-172 | a hit of the special-token regex is the first listed special token that stands there |
| `Bpe.SegmentsCover` | tokenizer/bpe.go:154-172 | the segments, specials and spans between them, concatenate to the text |
| `Bpe.EachSegment` | tokenizer/bpe.go:154-172 | the loop produces exactly the segments between successive matches, an empty match right after another passed over |
| `Bpe.SegmentsRead` | tokenizer/bpe.go:154-172 | no special token begins in a plain span, and every special segment is the longest special token that stands there |
| `Bpe.ReadsUnique` | tokenizer/bpe.go:154-172 | there is only one such reading of a text, if no special token is empty |
| `Bpe.BestPair` | tokenizer/bpe.go:174-208 | finds the leftmost pair of lowest rank, or that no pair is ranked |
| `Bpe.Merge` | tokenizer/bpe.go:174-208 | the merge loop computes repeated merging of that pair and terminates |
| `Bpe.MergeAllSound` | tokenizer/bpe.go:174-208 | merging keeps the concatenation, stops only when no adjacent pair is ranked, and stays inside the vocabulary when merge products are in it |
| `Bpe.Encode` | tokenizer/bpe.go:138-152 | the ids are those of the segments; and with lossless tables, said of the text alone: it is read as special tokens, each the longest that stands in its place, and whole spans in which none begins, and the ids fall into consecutive runs, one for each special token and each piece of a span, a run decoding to just its piece and coming from its characters by joining the leftmost lowest-ranked pair until none is ranked |
| `Bpe.PlainTokenized` | tokenizer/bpe.go:138-152 | in a text without special tokens the runs are those of the pieces of its split, so no id straddles two pieces |
| `Bpe.DecodeAppend` | tokenizer/bpe.go:223-257 | decoding is a homomorphism for concatenation of id lists |
| `Bpe.Decode` | tokenizer/bpe.go:223-257 | the decoder that buffers and flushes computes the plain per-id concatenation, unknown ids dropped |
| `Bpe.FlushForeign` | tokenizer/bpe.go:223-257 | characters outside the byte alphabet come out as their own UTF-8 |
| `Bpe.DecodeEncode` | tokenizer/bpe.go:213-221 | decoding an encoding gives the text, without its special tokens when they are skipped |
| `Bpe.RoundTrip` | tokenizer/bpe.go:138-257 | with lossless tables every text survives encoding and decoding with special tokens, empty special tokens included |
| `Bpe.EncodingsDiffer` | tokenizer/bpe.go:138-257 | so two texts never have the same ids |
| `Conn.Conn.Register` | mcp/conn.go:69-90 | a closed connection refuses with its reason and changes nothing; otherwise the next id is issued and pending |
| `Conn.Conn.Claim` | mcp/conn.go:165-181 | a reply is claimed exactly when its id is pending, and the id is pending no more |
| `Conn.Conn.MarkClosed` | mcp/conn.go:125-141 | only the first close marks the connection |
| `Conn.Conn.MarkShutdown` | mcp/conn.go:183-195 | the read loop's failure closes the connection and records the first reason |
| `Conn.Conn.TakePending` | mcp/conn.go:197-206 | takes every pending call at once |
| `Conn.Conn.Discard` | mcp/conn.go:208-213 | removes one call from pending and nothing else |
| `Conn.Conn.CloseReason` | mcp/conn.go:215-222 | the recorded reason, or the default one |
| `Conn.StepKeeps` | mcp/conn.go:69-212 | every atomic step of callers, read loop and closer keeps the protocol invariant |
| `Conn.RunKeeps` | mcp/conn.go:69-212 | the invariant holds after every interleaving |
| `Conn.OwnResponse` | mcp/conn.go:69-111 | in every reachable state a call that succeeded holds the response with its own id, or, if it is call 0, possibly one with a null id: the id is its own if and only if it is not null |
| `Conn.EndsTellTruth` | mcp/conn.go:69-222 | after every schedule a call that ended says what happened to it: a success or a failed decoding holds a response that was read and carries no error, a server error one that was read and carries one, and any other error is the one its own write or cancellation gave or, on a closed connection, the recorded reason or the error its stream ended with; it is pending no more; a refused call and the recorded reason itself say who closed the connection |
| `Conn.LateErrorWins` | mcp/conn.go:125-206 | a schedule in which a call on a closed connection ends with the error of the stream and not with the recorded reason |
| `Conn.NullAnswersFirst` | mcp/conn.go:165-181 | a schedule in which a response with a null id answers call 0 |
| `Conn.NoSenderBlocks` | mcp/conn.go:165-206 | each one-slot channel is sent to at most once, and every send that is due can proceed |
| `Conn.IDKept` | mcp/conn.go:69-90 | a call keeps its id for ever and the counter never goes back |
| `Conn.IDsNeverReused` | mcp/conn.go:69-90 | two calls never have the same id, at whatever times they are looked at |
| `Conn.SweptForGood` | mcp/conn.go:183-206 | once swept on a closed connection, pending stays empty whatever follows |
| `Conn.SweptCallsAnswered` | mcp/conn.go:197-206 | after the sweep every unreturned call has a result waiting or in the sender's hands |
| `Conn.NextDrain` | mcp/conn.go:125-206 | on a closed connection some draining step is always possible until all calls have returned |
| `Conn.DrainStepShrinks` | mcp/conn.go:125-206 | every draining step, in any order, brings that end nearer |
| `Conn.Drains` | mcp/conn.go:125-206 | so every closed connection can return all its calls |
| `Conn.ClosedRefuses` | mcp/conn.go:69-80 | after close no later call is ever registered |
| `Paged.BlocksForIsCeiling` | cache/paged.go:63-68 | the block count is the least that covers the tokens |
| `Paged.BlockPool.constructor` | cache/paged.go:32-50 | defaults for bad sizes, all blocks free, lowest id handed out first |
| `Paged.BlockPool.Allocate` | cache/paged.go:72-82 | takes the top of the free stack with count one, or fails and changes nothing |
| `Paged.BlockPool.AllocateN` | cache/paged.go:86-100 | all or nothing: either the wanted blocks in stack order or no change |
| `Paged.BlockPool.Share` | cache/paged.go:104-108 | adds a holder to an allocated block only |
| `Paged.BlockPool.Free` | cache/paged.go:112-120 | drops a holder and returns the block to the stack when it was the last |
| `Paged.BlockPool.FreeAll` | cache/paged.go:123-128 | frees a list in order |
| `Paged.FreeAndAllocate` | cache/paged.go:72-120 | allocating undoes the free that returned a block, and freeing undoes an allocation |
| `BlockTables.BlockTable.Fork` | cache/blocktable.go:41-51 | takes a shared prefix, counting a holder for each block, with the token count rounded to whole blocks |
| `BlockTables.BlockTable.Append` | cache/blocktable.go:56-73 | grows by exactly the missing blocks or fails with nothing changed |
| `BlockTables.FitsExactly` | cache/blocktable.go:56-73 | tokens fit exactly when the blocks at hand and the free ones have room for them |
| `BlockTables.BlockTable.Free` | cache/blocktable.go:76-81 | gives every block back and is empty |
| `BlockTables.StepKeeps` | cache/paged.go:63-127 | for any number of tables and outside holders each operation keeps: counts equal occurrences over all holders, the free list is duplicate-free and exactly the zero-count blocks, each table holds the ceiling of its tokens |
| `BlockTables.RunKeeps` | cache/paged.go:63-127 | so does every run |
| `BlockTables.FreshInv` | cache/paged.go:32-50 | a fresh pool without tables satisfies the accounting |
| `BlockTables.ForkCountsExactly` | cache/blocktable.go:41-51 | forking keeps the counts right if and only if every shared block is allocated |
| `BlockTables.ForkOfFreeBlock` | cache/blocktable.go:41-51 | seeding a table with a free block leaves that block free and the counts wrong |
| `BlockTables.AppendedAreExclusive` | cache/blocktable.go:56-73 | a block added by an append was held by nobody and is held once |
| `BlockTables.AppendedPositionsOwned` | cache/blocktable.go:41-73 | positions an append adds always lie past the forked prefix; they all lie in blocks no other holder has if and only if no other holder has the open tail the appending table had before |
| `BlockTables.PositionLands` | cache/blocktable.go:56-73 | for each new position: it lies in a block of its own unless it falls into an open tail that others hold |
| `BlockTables.SharedTailLands` | cache/blocktable.go:41-73 | append 5 tokens, fork the half-filled block into a second table, append one: position 5 lies in a block both tables hold |
| `BlockTables.TailsKept` | cache/blocktable.go:41-81 | an operation that shares only whole blocks leaves every open tail to its own table |
| `BlockTables.TailsKeptExactly` | cache/blocktable.go:41-81 | and one does so if and only if it shares only whole blocks |
| `BlockTables.RunKeepsTails` | cache/blocktable.go:41-81 | every state of a run leaves every open tail to its own table if and only if the run shares only whole blocks |
| `BlockHash.BlockHash` | cache/prefix.go:212-232 | the loop over bytes of tokens computes the fold |
| `BlockHash.BytesSpell` | cache/prefix.go:212-232 | the bytes folded in are the 32 bits of the token, the lowest first |
| `BlockHash.MixInjective` | cache/prefix.go:216-232 | one xor/multiply step modulo 2^64 is injective in the running hash |
| `BlockHash.ParentInjective` | cache/prefix.go:212-232 | for fixed tokens of any length the block hash is injective in the parent hash |
| `BlockHash.OneByteSeparates` | cache/prefix.go:212-232 | blocks that differ in one byte under one parent never collide |
| `BlockHash.NeverAliasAgain` | cache/prefix.go:212-232 | once two chains differ, equal following blocks can never make them equal |
| `Prefix.PrefixCache.constructor` | cache/prefix.go:62-72 | an empty well-formed cache |
| `Prefix.PrefixCache.MemoryAware` | cache/memory.go:60-67 | the same with a byte limit instead of a block limit |
| `Prefix.PrefixCache.Touch` | cache/prefix.go:164 | moves a block to the front of the list and changes nothing else |
| `Prefix.PrefixCache.Evict` | cache/prefix.go:169-188 | removes unpinned blocks from the back until within limits or none is left |
| `Prefix.PrefixCache.Match` | cache/prefix.go:89-114 | the longest resident prefix of chain keys, its handles, and the list reordered by use |
| `Prefix.PrefixCache.Insert` | cache/prefix.go:118-138 | block by block, a hit is touched and a miss is added then evicted for, with the handles and flags returned |
| `Prefix.InsertReports` | cache/prefix.go:118-138 | a block is reported new exactly when it is not resident as the blocks before it leave the cache, and a new handle was never issued before |
| `Prefix.PrefixCache.ByHandle` | cache/prefix.go:203-210 | finds the one block with a handle, or that there is none |
| `Prefix.PrefixCache.Pin` | cache/prefix.go:142-148 | counts one pin per handle occurrence on resident blocks |
| `Prefix.PrefixCache.Unpin` | cache/prefix.go:152-158 | undoes one pin per occurrence and never goes below zero |
| `Prefix.EvictedWf` | cache/prefix.go:169-188 | eviction keeps map and list on the same blocks, each once, under distinct handles |
| `Prefix.PinExact` | cache/prefix.go:142-158 | a pin changes exactly the named block's count by one |
| `PrefixRuns.NewInv` | cache/prefix.go:62-72 | both constructors establish the run invariant |
| `PrefixRuns.InsertEvictsOne` | cache/prefix.go:118-188 | inserting one block into a cache within its limits evicts at most one block and ends within them, whatever is pinned |
| `PrefixRuns.VictimExists` | cache/prefix.go:169-188 | the all-pinned early return of eviction is never taken |
| `PrefixRuns.VictimLeastRecent` | cache/prefix.go:169-188 | the victim is the least recently used unpinned block, by a ledger of uses kept apart from the list |
| `PrefixRuns.FreshBlockLost` | cache/prefix.go:118-138 | an insertion loses the block it has just created if and only if it overflows a limit and every older block is pinned |
| `PrefixRuns.PinnedFullLoses` | cache/prefix.go:118-138 | a cache with room for one block, that one pinned, loses a second block at once |
| `PrefixRuns.StepKeeps` | cache/prefix.go:118-199 | after every operation: both limits, map and list alike, pin counts equal outstanding pins |
| `PrefixRuns.RunKeeps` | cache/prefix.go:118-199 | so after every run, from either constructor |
| `PrefixRuns.CapacityHolds` | cache/prefix.go:62-188 | after every run of a cache made with a positive capacity at most so many blocks are resident, and a new block costs a resident one exactly when there are as many already |
| `PrefixRuns.BytesHold` | cache/memory.go:55-67 | after every run of a memory-aware cache the resident blocks fit the bytes it was given if both numbers are positive, and a new block costs a resident one exactly when it would not fit |
| `PrefixRuns.PinnedBlockStays` | cache/prefix.go:142-188 | no operation removes a block that still has a pin |
| `PrefixTrie.InsertHolds` | cache/prefix.go:118-138 | with no limits, an insertion keeps the cache in step with the log of inserted sequences |
| `PrefixTrie.RunHolds` | cache/prefix.go:89-138 | so does every run of operations |
| `PrefixTrie.FreshHolds` | cache/prefix.go:62-72 | a new cache is in step with the empty log |
| `PrefixTrie.ResidentIffShared` | cache/prefix.go:89-138 | with distinct chain hashes a chain key is resident exactly when some inserted sequence shares those blocks |
| `PrefixTrie.MatchIsLongestShared` | cache/prefix.go:89-114 | so a match is the longest whole-block prefix shared with any inserted sequence |
| `PrefixTrie.MatchHandlesAreInsertions` | cache/prefix.go:89-138 | and its handles are those the insertion returned for those blocks |
| `PrefixTrie.SharedBlocksAreSharedTokens` | cache/prefix.go:89-114 | sharing blocks is sharing that many whole blocks of tokens |
| `Snapshots.TakeSnapshot` | cache/persistence.go:46-55 | exports the blocks in recency order with their handles |
| `Snapshots.RestorePrefixCache` | cache/persistence.go:59-72 | rebuilds a cache from those blocks with the next id at the largest handle |
| `Snapshots.RestoreSimulates` | cache/persistence.go:46-72 | the restored cache agrees with an unpinned original without a byte limit |
| `Snapshots.StepSimulates` | cache/prefix.go:89-188 | each match or insertion keeps two agreeing caches in agreement, list order included, and reports the same up to renaming of new handles |
| `Snapshots.RunSimulates` | cache/prefix.go:89-188 | so does every run |
| `Snapshots.RestoreBisimilar` | cache/persistence.go:46-70 | snapshot and restore at the same capacity: every later run reports the same counts and flags, the same handles for restored blocks, and fresh ones above all of them |
| `Suffix.NgramKeyInjective` | speculative/promptlookup.go:160-166 | different n-grams have different keys |
| `Suffix.EndsExact` | speculative/suffix.go:117-132 | the reference scan lists an end position exactly when the n-gram ends there wholly inside the window |
| `Suffix.EndsAscend` | speculative/suffix.go:117-132 | in ascending order |
| `Suffix.SuffixDecoder.Add` | speculative/suffix.go:117-132 | keeps the index equal to the scan of the window while the window slides by one token |
| `Suffix.SuffixDecoder.Trim` | speculative/suffix.go:134-160 | drops the oldest tokens and exactly the positions that no longer fit |
| `Suffix.SuffixDecoder.AddPrompt` | speculative/suffix.go:108-113 | adds tokens one by one, trimming as it goes |
| `Suffix.SuffixDecoder.AddToken` | speculative/suffix.go:115 | adds one token |
| `Suffix.SlidIsSuffix` | speculative/suffix.go:108-160 | after any additions the window is the end of the whole history, of exactly the length the limit leaves |
| `Suffix.TrimmedEnds` | speculative/suffix.go:134-160 | filtering positions by the threshold is the scan of the shorter window |
| `Suffix.TopToken` | speculative/suffix.go:251-260 | the plurality vote, ties to the smaller id, whatever the order of the map |
| `Suffix.GrownTokensVoted` | speculative/suffix.go:193-237 | every drafted token is the plurality vote at or above the confidence floor |
| `Suffix.GrownDraftFollows` | speculative/suffix.go:193-237 | the draft literally follows an earlier occurrence of the current suffix |
| `Suffix.NaiveIsBest` | speculative/suffix.go:165-237 | that draft, said without growing it: each token continues the draft so far at more earlier places than any other, or the smaller of as many, with a share no less than the floor; it goes on while it may; and no longer suffix yields one |
| `Suffix.BestDraftUnique` | speculative/suffix.go:165-237 | there is just one such draft |
| `Suffix.BuildDraft` | speculative/suffix.go:193-237 | growing a draft from indexed positions is growing it by rescanning the window |
| `Suffix.SuffixDecoder.Draft` | speculative/suffix.go:165-191 | the draft equals a naive rescan with the longest suffix that yields one; only the statistics change |
| `Transformer.StatesCausal` | compute/dense_model.go:225-266 | later tokens never change the state of an earlier position, in any layer |
| `Transformer.NewCaches` | compute/dense_model.go:149-151 | caches for the empty history |
| `Transformer.Block` | compute/dense_model.go:269-380 | a layer run on new rows grows its cache to the whole history's keys and values and leaves those rows in the state the whole history gives them |
| `Transformer.Forward` | compute/dense_model.go:225-266 | from caches for any history, each new row's logits are those of one pass over the whole history; a device failure in any layer is reported |
| `Transformer.LastRow` | compute/dense_model.go:225-266 | the row of a history's last token is the same row of any longer history |
| `Masks.PaddedIds` | compute/dense_batch.go:75-79 | the flat id buffer is the prompts left-padded with zeros, row by row |
| `Masks.PrefillMask` | compute/dense_batch.go:312-330 | the triple loop and the head replication build the stated mask for every sequence, head, query and key |
| `Masks.DecodeMask` | compute/dense_batch.go:335-349 | the same for a decode step |
| `Masks.ReplicateHeads` | compute/dense_batch.go:354-363 | every head of a sequence gets that sequence's block, in the order the kernel reads |
| `Masks.ReplicatedAt` | compute/dense_batch.go:354-363 | the element at any sequence, head, query and key of the flat buffer is that of the sequence's own block |
| `Masks.PrefillMaskMeans` | compute/dense_batch.go:312-330 | read back by shape, a prompt mask exposes a key exactly when it is causal and not padding, or the query itself |
| `Masks.DecodeMaskMeans` | compute/dense_batch.go:335-349 | and a decode mask exposes exactly the real keys |
| `Batch.LoudIsWindow` | compute/dense_batch.go:402-448 | after the additive mask the scores that are not masked away are exactly those of the exposed window, unchanged |
| `Batch.MaskedIsWindow` | compute/dense_batch.go:402-448 | adding the mask to the scores of all keys gives the attention over the exposed window alone |
| `Batch.PrefillExposes` | compute/dense_batch.go:312-330 | to each query the prompt mask exposes exactly what it should see: a real one its own sequence's earlier real keys, a padding one itself |
| `Batch.DecodeExposes` | compute/dense_batch.go:335-349 | and so does the decode mask |
| `Batch.WindowIsReads` | compute/dense_batch.go:201-209 | read at left-padded positions, the window scores as it does in the sequence alone, distances being equal |
| `Batch.PaddingIsReads` | compute/dense_batch.go:312-330 | a padding query reads what the token 0 reads alone |
| `Batch.RowStep` | compute/dense_batch.go:150-252 | so every row leaves a layer in its own state: a real one in that of the sequence alone, a padding one in that of the token 0 alone |
| `Batch.Batch.Block` | compute/dense_batch.go:150-252 | over the whole batch, with the caches appended to |
| `Batch.Batch.Prefill` | compute/dense_batch.go:54-98 | fails only when no prompt has a token or the device fails; otherwise each row is the one its own prompt leads to in single-stream, and for a prompt without tokens the one the padding token 0 leads to |
| `Batch.Batch.Decode` | compute/dense_batch.go:103-121 | each row is the one the sequence's own history leads to in single-stream, and the caches follow |
| `Generate.HitStopString` | compute/generate.go:146-160 | finds a stop string exactly when one occurs and cuts at the earliest, empty ones ignored |
| `Generate.CutSilent` | compute/generate.go:146-160 | the text before the cut contains no stop string |
| `Generate.AnswerUnique` | compute/generate.go:53-128 | the declarative answer of a run (tokens chosen, kept and quiet, and the one reason to end) has at most one solution |
| `Generate.AnswerAsAsked` | compute/generate.go:61-125 | every answer in the terms of its request: at most as many tokens as the limit, 256 if it is not positive, and exactly so many if the reason is length; each drawn in its turn from the row before it, penalized exactly if that is asked for, with the random source the draw before left; none cancelled or an end token; and an end that is what its reason says |
| `Generate.AnswerStops` | compute/generate.go:70-125 | a run with an answer is not alive beyond it, so it needs no later pass |
| `Generate.LiveStep` | compute/runner.go:181-216 | one step from an unfinished run leads to its answer or to an unfinished run, in both loops |
| `Generate.Generate` | compute/generate.go:53-128 | the single-stream loop on growing caches panics exactly when the token limit is negative or more than the allocator grants, and fails exactly when a device pass it reaches goes wrong; otherwise it returns that answer, its text, counts and stream, and the result is as the request asks: as many tokens as the limit allows, each drawn as configured, and the text they decode to without special tokens, up to the earliest stop string; however it ends, the stream contains no stop string |
| `Generate.StreamSilent` | compute/generate.go:75-128 | an answer's stream contains no stop string |
| `Generate.TextStartsStream` | compute/generate.go:75-128 | the final text is a prefix of the stream, and all of it if and only if no stop string began in text already sent |
| `Generate.StopInSentText` | compute/generate.go:75-128 | for a run whose stop string is its whole text, of which some was already sent: the final text is empty and the stream is not |
| `Runner.SeqState.StepSeq` | compute/runner.go:181-216 | one lockstep step of a sequence keeps it valid: unfinished with one more token, or settled with its answer |
| `Runner.StepOne` | compute/runner.go:147-156 | one step of one sequence, finished or not: its history grows by the token, or it needs no further pass |
| `Runner.SeqState.Deliver` | compute/runner.go:219-237 | sends one result, the right one for a finished sequence, whatever its prompt |
| `Runner.StepAll` | compute/runner.go:144-156 | a step of the whole batch takes every sequence one step on, finished ones aside, and tells whether all are done |
| `Runner.StillValid` | compute/runner.go:144-160 | every sequence is finished once the steps reach the longest budget |
| `Runner.Lockstep` | compute/runner.go:144-163 | the step loop ends with exactly those sequences finished whose needed passes all went well |
| `Runner.DeliverAll` | compute/runner.go:165-172 | a failure exactly for the sequences that lost a pass they need, the right result for the others, after a device failure too |
| `Runner.Run` | compute/runner.go:109-174 | the runner panics exactly when some token limit is more than the allocator grants; otherwise each job gets exactly one result, a failure exactly when a device pass its own run needs goes wrong or no prompt of the batch has a token, and else the right one for its prompt, within its token limit, drawn as configured and with the text it asks for; no listener hears a stop string |
| `Runner.SameAsAlone` | compute/runner.go:109-237 | next to a single-stream call on a healthy device: the call has a result if and only if the allocator grants the token limit; then tokens, counts, finish reason and stream are the same; and the whole results are equal if and only if, besides, no stop string matches at index 0 |
| `Runner.RightAsAsked` | compute/runner.go:181-237 | a right result in the terms of its request: tokens within the limit and drawn as configured, and all the text they decode to, up to the earliest stop string unless that is at index 0 |
| `Runner.NegativeLimitDiffers` | compute/generate.go:61-73 | at a token limit of -1 the runner gives at most 256 tokens and the single-stream call panics |
| `Runner.HugeLimitPanics` | compute/runner.go:119-133 | at a token limit of 2^62 the single-stream call panics, and so does the runner on any batch with such a job |
| `Runner.DeliveredTextAgrees` | compute/runner.go:226-229 | treating an empty cut as unset changes the text exactly when a stop string matches at index 0 |
| `Runner.WholeTextDiffers` | compute/runner.go:226-229 | for a run whose stop string is its whole text: the runner delivers the text, the single-stream loop nothing |
| `Sampler.Argmax` | compute/sampler.go:57-65 | the lowest index of the largest logit |
| `Sampler.SoftmaxScaled` | compute/sampler.go:68-90 | positive probabilities that sum to one, ordered exactly as the logits, and for an exponential as far apart as the differences of the logits divided by the temperature say |
| `Sampler.TemperedUnique` | compute/sampler.go:68-90 | which fixes every probability |
| `Sampler.SortDescends` | compute/sampler.go:96-108 | the stable sort orders candidates strictly: by probability, ties by index |
| `Sampler.TopKIndices` | compute/sampler.go:96-102 | keeps exactly `k`, each beating every dropped one, the best among them |
| `Sampler.FrontWeighsMost` | compute/sampler.go:106-117 | exchange argument: no set of candidates outweighs as many from the front of the order |
| `Sampler.TopPIndices` | compute/sampler.go:106-117 | keeps a set of least size among those that reach `p`, the best token in it; everything when none reaches it |
| `Sampler.MinPIndices` | compute/sampler.go:120-138 | keeps exactly the candidates within a factor of the largest, in their order, or all of them when none is, the best among them |
| `Sampler.SampleFrom` | compute/sampler.go:142-168 | draws the candidate whose cumulative interval contains the draw; without a source the first most probable one |
| `Sampler.Sample` | compute/sampler.go:26-54 | greedy without temperature or source, whatever the filters; otherwise a draw, from the probabilities the given temperature makes of the logits, among candidates filtered in order, none of them twice, most probable first after top-k or top-p and otherwise as before, which always include the best token |
| `TurboQuant.SetBit` | cache/turboquant.go:193-206 | setting a clear bit changes that bit alone |
| `TurboQuant.BitsDecide` | cache/turboquant.go:210-225 | a value is decided by its bits |
| `TurboQuant.PackBits` | cache/turboquant.go:193-206 | the stream is exactly the indices, most significant bit first, then zeros |
| `TurboQuant.UnpackBits` | cache/turboquant.go:210-225 | each value is read from its own bits |
| `TurboQuant.UnpackInvertsPack` | cache/turboquant.go:193-225 | unpacking inverts packing for every width, across byte boundaries |
| `TurboQuant.PackedIsNumber` | cache/turboquant.go:193-206 | the bytes, read as one big-endian number, are the indices, read as one number, moved up past the padding |
| `Quantizer.NearestLevel` | cache/turboquant.go:153-165 | the early exit is right: the result is a global minimizer on an ascending book, the lowest one |
| `Quantizer.BooksAscend` | cache/turboquant.go:69-75 | both codebooks ascend strictly |
| `Quantizer.MeanOf` | cache/turboquant.go:167-176 | the mean, which the deviations cancel out around; zero for nothing |
| `Quantizer.StdOf` | cache/turboquant.go:178-188 | the root of the mean square deviation: not negative, and its square times the length is the sum of the squared deviations |
| `Quantizer.NormalizedBound` | cache/turboquant.go:101-120 | every normalized value squared is at most the length of its group |
| `Quantizer.Quantize` | cache/turboquant.go:85-125 | refuses exactly the bad configurations; otherwise as few groups as hold the values, each with the mean its deviations cancel around and with its standard deviation, or 1e-12 if larger, as its scale, every value coded by the level closest to what these make of it, central levels as padding, packed |
| `Quantizer.QuantizedFits` | cache/turboquant.go:85-125 | what is produced can be restored |
| `Quantizer.Dequantize` | cache/turboquant.go:129-148 | refuses exactly the unknown widths; otherwise as many values as were compressed, each its level scaled and shifted, zeros past the last group |
| `Quantizer.CodesSurvive` | cache/turboquant.go:85-148 | the indices read back are the indices written |
| `Quantizer.ReconstructionError` | cache/turboquant.go:85-165 | each value comes back off by exactly its group's scale times its normalized distance to the closest level |
| `Quantizer.ErrorBound` | cache/turboquant.go:85-165 | the squared error is at most the length of the value's own group times its squared scale |
| `PyJson.Set` | toolparsers/pyjson.go:39-47 | overwrites a key where it first stands or appends it |
| `PyJson.Quote` | toolparsers/pyjson.go:220-268 | the quoting loop escapes each character by itself: the short escapes, `\u` and four lower-case hexadecimal digits, or a surrogate pair of them |
| `PyJson.WriteValue` | toolparsers/pyjson.go:142-191 | the recursive writer appends exactly the printed form |
| `PyJson.DumpsPrints` | toolparsers/pyjson.go:140-205 | the printed form, said of the text: items and fields joined by a comma and a space, a colon and a space after a key, integers as written |
| `PyJson.Serialize` | toolparsers/pyjson.go:140-146 | so the printer writes what Python writes |
| `PyJson.DecodeValue` | toolparsers/pyjson.go:96-136 | the token loops read exactly what the recursive reader reads, errors included |
| `PyJson.CharReads` | toolparsers/pyjson.go:220-258 | every printed character reads back as itself, in both modes (section 7 of RFC 8259) |
| `PyJson.PairReads` | toolparsers/pyjson.go:240-250 | a surrogate pair reads back as the one character it stands for |
| `PyJson.TextReads` | toolparsers/pyjson.go:220-258 | so does every string |
| `PyJson.ValueReads` | toolparsers/pyjson.go:80-191 | a printed value reads back wherever a value may stand |
| `PyJson.RoundTrip` | toolparsers/pyjson.go:80-191 | every tree with integer literals and distinct keys survives printing and reading in key order, in both modes |
| `PyJson.DumpsAscii` | toolparsers/pyjson.go:220-258 | ASCII mode prints nothing but ASCII |
| `PyJson.PlainAscii` | toolparsers/pyjson.go:196-205 | integer literals need no further assumption for that |
| `PyJson.KeyIsText` | toolparsers/pyjson.go:106-114 | where a key is expected the token is a string or an error, on any text, so the type assertion cannot fail |
| `PyJson.ReadKeepsNesting` | toolparsers/pyjson.go:96-136 | on any text, reading a value moves past one value and leaves the nesting as it was |
| `RateLimit.Prune` | middleware/ratelimit.go:91-102 | keeps exactly the times after the cutoff |
| `RateLimit.PrunedIs` | middleware/ratelimit.go:91-102 | which is a suffix: everything dropped is old and the first kept is not |
| `RateLimit.RateLimiter.Allow` | middleware/ratelimit.go:47-63 | answers and updates one client's times by the stated step |
| `RateLimit.RateLimiter.Sweep` | middleware/ratelimit.go:68-79 | prunes every client and keeps exactly those with a time inside the window, in any order |
| `RateLimit.SweepUnseen` | middleware/ratelimit.go:68-79 | a sweep put anywhere into a run changes none of its decisions |
| `RateLimit.StepTracks` | middleware/ratelimit.go:47-79 | each operation keeps the pruned times in step with the full record of admissions |
| `RateLimit.WindowBound` | middleware/ratelimit.go:47-63 | over every run no client has more than `limit` admissions in any half-open window |
| `RateLimit.RefusedExactly` | middleware/ratelimit.go:47-63 | a request is refused if and only if `limit` admissions lie in the window that ends now |
| `RateLimit.UnlimitedAllows` | middleware/ratelimit.go:47-50 | a limit of zero or less allows everything |

## Left out

- Prompt lookup drafting, the embedding cache, KV offset counters and memory sizing: easier relatives of the modelled cores.
- HTTP handlers, transports, the CLI, the cloud router and the on-disk store: I/O.
- Tensor arithmetic and its rounding; the device kernels appear as the functions of a `Model`.
- The regex-driven and streaming tool parsers and the reasoning parsers: they have no clean specification in the repository.
- Tensor reshapes and transposes between `[seq, heads*dim]` and `[heads, seq, dim]`: rows of heads are opaque values, grouped heads are inside `score`.
- Generate.Generate: only prompts that encode to at least one token; on none the code asks the device for row -1, and what it does is not known here.
- Runner.Run: forming batches from the queue is not modelled.
- Sampler.Sample: on reals, so the fallback for a draw that rounding pushes past the total is reached only by a draw of 1; overflow and NaN logits are not modelled.
- Quantizer.Quantize: on reals with an exact square root, so rounding to float32 is not modelled; the optional rotation is left out.
- Quantizer.Dequantize: a scale for every mean and codes for every group, as `WellFormed` says; with fewer the code panics.
- TurboQuant.UnpackBits: the same, for a stream shorter than the count asks for.
- PyJson.RoundTrip: integer literals only, because other numbers go through library float formatting, a parameter here; objects are values, so sharing one map by reference is not modelled.
- PyJson.DecodeValue: the library's token stream is modelled after RFC 8259; a closing bracket after the value is accepted as in the code, so trailing junk is not always rejected.
- Conn.IDsNeverReused: ids are unbounded, so int64 wrap-around is not modelled; a response whose id is neither an integer nor null is ignored as in the code; codec writes and the handler for notifications are single steps.
- Bpe.Build: special tokens are sorted by a stable insertion, where the code's sort leaves the order of equally long ones open; pairs are keys, so two pairs whose joined key strings coincide are not modelled.
- PrefixTrie.MatchIsLongestShared: chain hashes are assumed distinct on the prefixes in play, as 64 bits cannot promise it for all.
- Suffix.SuffixDecoder.Draft: the confidence ratio is a real.
- RateLimit.RateLimiter.Allow: reading the clock and updating are one step, and the clock does not go back.
