# Olorin inference runtime: a verified model

A Dafny model of the hand-written, stateful parts of the inference runtime under `src/inference`, and of two
byte-stream components outside it. Every module is named after what it models; each opens with the source file it
follows. Code that changes state in the source is a method over arrays or a class here, proved against a function
whose properties are then proved as lemmas. Concurrent code is a transition system in which any thread may take the
next atomic step. `dafny verify dfyconfig.toml` checks the whole project.

| modules | what they model |
|---|---|
| `Options`, `Ranks` | presence or absence of a value; adding up the threads' ranks in the proofs of progress |
| `Tokens`, `SpaceMark`, `BpeSpec`, `BpeState`, `BpeMerge`, `Codec`, `Encoder`, `RoundTrip` | Gemma 4 tokenization: vocabulary maps, special-token splitting, the heap-driven BPE merge over an in-place linked list, decoding, and the encode/decode round trip |
| `EncodeLaws`, `Utf8`, `ClosedVocabulary` | what the encoder computes in terms of the text and the vocabulary; UTF-8 by arithmetic on code points (RFC 3629), and the encoder on texts given as characters; the round trip for every text of a vocabulary closed under its merges |
| `Viterbi` | the unigram Viterbi encoder |
| `SpinBarrier`, `BarrierProgress`, `WorkStealing`, `StealingRuns`, `StealingProgress`, `GraphPool`, `GraphPoolRuns`, `PoolProgress` | the spin-then-futex barrier, chunk claiming between barriers, and the worker pool that dispatches graphs, each with its safety and its progress |
| `Arithmetic`, `MatmulJobs`, `MatmulSeq`, `StealingKernels`, `ConcurrentMatvec`, `Repack`, `MatrixLaws`, `Splits` | the matrix products: which cells each chunk writes and from which weight rows and tokens, the single-threaded kernels they are proved equal to, the Q6K interleave with its precomputed scales, all of it also by rows and byte offsets, and the quantization splits |
| `KvCache`, `SharedKv`, `Forward`, `CacheLaws`, `Generate` | the KV cache with ring, linear and shared layers, ubatched prefill, decode steps with what attention reads, RoPE table reads, the cache number by number, and generation with its panics |
| `TopK`, `Sampler`, `SamplerLaws` | heap top-k selection, the sampler chain, and its weights as powers of the probabilities |
| `Base64`, `Base64Laws`, `TailFile` | the base64 pair, also against RFC 4648, and the polling line tailer |

How the source's types are modelled: scores, logits, scales and outputs are `real`; `exp`, `ln`, dot products, f16
conversion, RoPE rotation, `from_utf8_lossy` and the library sort are function parameters; bytes are `0..255` or 8-bit
words; `u32` and `i32` counters that wrap are wrapped explicitly; array bounds that panic in the source are
preconditions, or an outcome where the panic is the point. What a file system, a clock or a random source would
supply is a parameter.

Three results about the code itself:

* `Engine::generate` documents its budget check as making generation panic-safe for every caller. It does not.
  `Generate.PanicFreeIff` gives the exact condition for an accepted prompt: at most 2048 tokens, and, unless the
  budget is zero or the temperature below 1e-6, a positive `top_k` whose candidates can be allocated.
  `Generate.TopKIsNotChecked` gives inputs for the second half: the server stores a request's `top_k` unchecked
  (src/interface/server.rs:349-351), and 0 or -2 makes every accepted prompt panic at its first sample.
  `Generate.BudgetIsNotEnough` gives one for the first half: the window must exceed 2049 tokens and the prompt 2048.
  No call in the repository passes a window above 2048 (src/core/router.rs:170), so that half is reachable only
  through the public `Engine::load`. `top_k + 1` wraps at 2^64 here, as in a release build; a debug build also panics
  at `usize::MAX`.
* The two Q6K repacked batch kernels and the 8-row tile kernels have no remainder loop. `MatmulJobs.TileKernelsCover`
  proves that such a kernel writes every row exactly when the row count is a multiple of the tile height;
  `MatmulJobs.RepackedLeavesRows` gives rows it leaves unwritten otherwise. The repository's callers repack only
  multiples of 4 and 8 rows (src/inference/engine.rs:402, 410; src/inference/engine_helpers.rs:205, 222, 244, 288), so
  none of them reaches that input.
* Above temperature 1e-6 `sample` falls back to the argmax exactly when `min_p` exceeds one (`Sampler.DrawSorted`).

## Model

| member | source | states |
|---|---|---|
| SpaceMark.NormalizeBytes | src/inference/tokenizer_gemma4.rs:97-104 | the normalized bytes are the input with every space replaced by the three bytes of U+2581 |
| SpaceMark.NormalizeAppend | src/inference/tokenizer_gemma4.rs:97-104 | normalizing is done piecewise: it distributes over concatenation |
| SpaceMark.UnmarkToken | src/inference/tokenizer.rs:468-477 | the byte loop of decode appends the token's text with every U+2581 turned back into a space |
| BpeSpec.BestUnique | src/inference/tokenizer_gemma4.rs:82-87 | lowest rank, then leftmost, determines one adjacent pair |
| BpeSpec.NaiveMergeIsFinal | src/inference/tokenizer_gemma4.rs:134-170 | after the rescanning algorithm no adjacent pair has a merge rank |
| BpeSpec.NaiveMergeKeepsBytes | src/inference/tokenizer_gemma4.rs:151-159 | merging keeps the text: the final pieces spell the initial ones |
| BpeSpec.CodePointsKeepBytes | src/inference/tokenizer_gemma4.rs:109-122 | the initial symbols spell the normalized bytes |
| BpeState.PopValid | src/inference/tokenizer_gemma4.rs:135-150 | a popped pair whose ends live and whose text still matches is adjacent and is exactly the lowest-ranked leftmost pair of the whole symbol list |
| BpeState.PopStale | src/inference/tokenizer_gemma4.rs:138-150 | discarding a popped pair that fails a check loses no mergeable pair: the invariant survives |
| BpeState.EmptyIsDone | src/inference/tokenizer_gemma4.rs:135-172 | when the queue is empty no adjacent pair has a rank |
| BpeState.AbsorbInv | src/inference/tokenizer_gemma4.rs:151-169 | merging two neighbours and pushing the two boundary pairs keeps the whole invariant: live symbols tile the bytes in order, links are mutual inverses, queued pairs are sound, every mergeable pair is queued; and the pieces change by exactly that merge |
| BpeMerge.EmitSingleByte | src/inference/tokenizer_gemma4.rs:55-64 | a byte becomes its vocabulary token, else its fallback token, else nothing |
| BpeMerge.EmitSymbol | src/inference/tokenizer_gemma4.rs:175-185 | a symbol of positive length becomes its vocabulary token or the tokens of its bytes; an empty one nothing |
| BpeMerge.EmitList | src/inference/tokenizer_gemma4.rs:172-187 | walking the links from symbol 0 emits exactly the live pieces in order |
| BpeMerge.BuildSymbols | src/inference/tokenizer_gemma4.rs:109-126 | the fresh list has the code points of the bytes as its live pieces, in order, doubly linked |
| BpeMerge.Pop | src/inference/tokenizer_gemma4.rs:82-87 | pop removes a least entry by rank, then left index |
| BpeMerge.TryPush | src/inference/tokenizer_gemma4.rs:190-211 | a pair is queued with its rank and text if and only if it has a rank |
| BpeMerge.Seed | src/inference/tokenizer_gemma4.rs:128-132 | the queue holds the entry of each initial adjacent ranked pair exactly once, and nothing else; the invariant holds |
| BpeMerge.Matches | src/inference/tokenizer_gemma4.rs:138-150 | the liveness and text checks decide whether the queued pair is still what it was |
| BpeMerge.MergeInPlace | src/inference/tokenizer_gemma4.rs:151-159 | the in-place link surgery gives exactly the absorbed symbol array |
| BpeMerge.MergeStep | src/inference/tokenizer_gemma4.rs:151-169 | one accepted pop performs the merge the rescanning algorithm would do next and keeps the invariant |
| BpeMerge.Drain | src/inference/tokenizer_gemma4.rs:134-170 | the heap loop terminates, performs exactly the merge sequence of the rescanning algorithm, and ends with its pieces |
| BpeMerge.BpeMergeChunk | src/inference/tokenizer_gemma4.rs:95-188 | a chunk's tokens are those of the pieces the rescanning algorithm ends with |
| BpeMerge.FindRunEnd | src/inference/tokenizer_gemma4.rs:27-31 | the end of the run of newlines or of non-newlines |
| BpeMerge.EncodeGemma4Bpe | src/inference/tokenizer_gemma4.rs:22-53 | newline runs are looked up whole or byte by byte, other runs are merged, in order |
| Encoder.BuildTokenMap | src/inference/tokenizer.rs:152-174 | the map holds exactly the vocabulary texts, each with an id that has that text |
| Encoder.BuildFallback | src/inference/tokenizer.rs:188-200 | entry b is the id of the literal `<0xNN>` text if the vocabulary has it, else none |
| Encoder.BuildRanks | src/inference/tokenizer.rs:202-222 | a pair (l, r) has a rank if and only if some merges entry is l, a space, r with no space in l; the rank is the index of the last such entry; entries that are no string or have no space give nothing |
| Encoder.RanksUnique | src/inference/tokenizer.rs:202-222 | those conditions determine the rank map |
| Encoder.FromTokens | src/inference/tokenizer.rs:152-222 | the constructed record is valid: ids name vocabulary entries and looking a text up gives an entry with that text |
| Encoder.EncodeText | src/inference/tokenizer.rs:254-292 | the scanning loop computes the special-token split of the whole text |
| Codec.EncodeInVocab | src/inference/tokenizer.rs:247-292 | whatever the text, every id is inside the vocabulary, or the embedding lookup would be out of bounds |
| Codec.DecodeIds | src/inference/tokenizer.rs:462-479 | decoding converts the concatenated unmarked texts of the known ids |
| RoundTrip.UnmarkAppend | src/inference/tokenizer.rs:468-477 | decoding token by token equals decoding the joined text, when the pieces are whole characters |
| RoundTrip.UnmarkNormalize | src/inference/tokenizer_gemma4.rs:97-104 | on well-formed UTF-8 without U+2581 the space mapping is undone by decode |
| RoundTrip.NaiveMergeWellFormed | src/inference/tokenizer_gemma4.rs:109-170 | every piece on the way and at the end consists of whole characters |
| RoundTrip.DecodeSegment | src/inference/tokenizer_gemma4.rs:22-188 | a segment all of whose final pieces are in the vocabulary decodes to itself |
| RoundTrip.DecodeEncode | src/inference/tokenizer.rs:254-292 | decoding the encoding gives back every well-formed text without U+2581 whose final pieces are in the vocabulary, across special tokens, newline runs, the space mapping and BPE |
| RoundTrip.TextRoundTrip | src/inference/tokenizer.rs:462-479 | the round trip through the final UTF-8 conversion, for a text which that conversion leaves alone |
| EncodeLaws.MergesLowest | src/inference/tokenizer_gemma4.rs:134-170 | while some adjacent pair is in the merge table, the one of lowest rank, leftmost among equals, is joined into one piece |
| EncodeLaws.MergesUntilNone | src/inference/tokenizer_gemma4.rs:134-170 | pieces of which no adjacent pair is in the table stay as they are |
| EncodeLaws.FallbackKeyReads | src/inference/tokenizer.rs:195 | the fallback text of a byte is `<0x`, two upper-case hexadecimal digits that read as the byte, and `>` |
| EncodeLaws.EmitByteText | src/inference/tokenizer_gemma4.rs:55-64 | with the tables built from a vocabulary, a byte becomes the entry whose text it is, else the entry `<0xNN>`, else nothing |
| EncodeLaws.EmitBytesAppend | src/inference/tokenizer_gemma4.rs:181-183 | bytes are emitted one after the other, in order |
| EncodeLaws.EmitPieceText | src/inference/tokenizer_gemma4.rs:177-184 | a piece of the vocabulary becomes the one entry with its text, any other its bytes |
| EncodeLaws.EmitPiecesNext | src/inference/tokenizer_gemma4.rs:172-187 | pieces are emitted one after the other, in order |
| EncodeLaws.PlainSegment | src/inference/tokenizer_gemma4.rs:95-188 | text without a newline is normalized, cut, merged and emitted |
| EncodeLaws.NewlineSegment | src/inference/tokenizer_gemma4.rs:43-53 | newlines alone are looked up as one piece |
| EncodeLaws.SegmentCut | src/inference/tokenizer_gemma4.rs:22-41 | where newlines and other text meet, the encoding is the concatenation of the two sides' encodings |
| EncodeLaws.EncodePlain | src/inference/tokenizer.rs:285-288 | a text without `<` is one segment |
| EncodeLaws.EncodeSpan | src/inference/tokenizer.rs:264-279 | the first `<` up to the first `>` after it is one token if the vocabulary has that text; the text before it is a segment and the scan goes on after it |
| EncodeLaws.EncodeNoSpan | src/inference/tokenizer.rs:280-284 | if the vocabulary does not have it, the `<` is encoded alone and the scan goes on right after the `<` |
| EncodeLaws.EncodeOpen | src/inference/tokenizer.rs:272-284 | so it is if no `>` follows |
| EncodeLaws.DecodeOne | src/inference/tokenizer.rs:464-479 | one id decodes to its text with spaces for U+2581, an id outside the vocabulary to nothing |
| Utf8.SymbolsAreChars | src/inference/tokenizer_gemma4.rs:109-122 | for every list of Unicode scalar values, the symbols cut from their joined UTF-8 encodings are exactly those encodings, one a character |
| Utf8.TextIsWellFormed | src/inference/tokenizer_gemma4.rs:213-221 | every such text is well-formed in the sense of the round-trip theorems |
| Utf8.TextIsInjective | src/inference/tokenizer_gemma4.rs:109-122 | different texts have different bytes: the cut recovers the characters |
| Utf8.TruncatedIsOneSymbol | src/inference/tokenizer_gemma4.rs:112 | a character cut short by the end of the input is one symbol |
| Utf8.StrayIsOneSymbol | src/inference/tokenizer_gemma4.rs:219 | a byte with which no character begins is a symbol of its own |
| Utf8.NormalizeText | src/inference/tokenizer_gemma4.rs:97-104 | normalizing replaces each U+0020 of a text by U+2581 and nothing else |
| Utf8.UnmarkText | src/inference/tokenizer.rs:468-477 | the byte scan of decode replaces each U+2581 of a text by U+0020 and nothing else |
| Utf8.PlainText | src/inference/tokenizer_gemma4.rs:95-188 | a text with neither newline nor `<` is encoded by merging its characters, spaces replaced |
| Utf8.OneCharacter | src/inference/tokenizer_gemma4.rs:95-188 | one character of one to four bytes whose encoding is in the vocabulary is encoded as that one token |
| Utf8.CharsRoundTrip | src/inference/tokenizer.rs:254-292 | every text without U+2581 whose final pieces are in the vocabulary comes back from decoding its encoding |
| ClosedVocabulary.TextOfChars | src/inference/tokenizer_gemma4.rs:134-185 | if the vocabulary has every pair its merges join and the characters of a text, every final piece of the text is in it, across special tokens and newlines |
| ClosedVocabulary.EveryTextComesBack | src/inference/tokenizer.rs:254-292 | with such a vocabulary every text of its characters without U+2581 comes back from decoding its encoding |
| Viterbi.RelaxSound | src/inference/tokenizer.rs:348-353 | one table update keeps every entry a real segmentation and takes the new step into account |
| Viterbi.TryPieces | src/inference/tokenizer.rs:344-355 | after the inner loop every vocabulary piece of at most 64 bytes from the position is taken into account |
| Viterbi.TryPosition | src/inference/tokenizer.rs:340-370 | one position of the dynamic program, including the byte fallback and the skip of unreachable positions |
| Viterbi.TableIsBest | src/inference/tokenizer.rs:340-370 | a finished table's last entry exists if and only if the text has a segmentation, and is then an optimal one |
| Viterbi.Backtrack | src/inference/tokenizer.rs:372-385 | following best_prev yields the tokens of the segmentation the table encodes, or nothing |
| Viterbi.EncodeSentencepiece | src/inference/tokenizer.rs:314-386 | the tokens are those of a segmentation of the whole space-normalized text, and no other segmentation's tokens have a greater sum of scores; empty exactly when there is none |
| Viterbi.ScoreSumAppend | src/inference/tokenizer.rs:348 | scores add up over concatenation |
| Viterbi.ScoreSumOne | src/inference/tokenizer.rs:348 | and of one token the sum is its entry in the score table |
| Viterbi.ScoreSumRaised | src/inference/tokenizer.rs:348 | raising one token's score raises the sum by that much for every time the token occurs |
| Viterbi.TotalIsScoreSum | src/inference/tokenizer.rs:348-364 | what the table maximizes is the sum of the scores of a segmentation's tokens |
| Viterbi.PathNext | src/inference/tokenizer.rs:340-370 | a segmentation grows by a vocabulary piece of at most 64 bytes or by the fallback token of one byte, and by nothing else |
| Viterbi.FallbackReaches | src/inference/tokenizer.rs:356-369 | with a fallback token for every byte the end is always reachable |
| Viterbi.PathSpells | src/inference/tokenizer.rs:344-355 | the vocabulary texts of a piece segmentation spell the input |
| SpinBarrier.StepInv | src/inference/threadpool.rs:58-88 | every atomic step keeps the barrier invariant: the counter counts this generation's arrivals, one thread at most closes, a waiter's remembered value equals the counter exactly while its generation lasts |
| SpinBarrier.BarrierSafety | src/inference/threadpool.rs:58-88 | in every run of N threads nobody returns from its k-th wait before all have entered theirs, and phases differ by at most one |
| SpinBarrier.WaiterSeesItsRelease | src/inference/threadpool.rs:74-86 | the wrapping u32 generation never aliases |
| SpinBarrier.NoLostWakeup | src/inference/threadpool.rs:66-86 | a thread blocked on a generation that has passed has a wake-up still coming |
| SpinBarrier.SomeoneElseMoves | src/inference/threadpool.rs:58-72 | waiters never all wait for each other: someone has still to arrive or is about to release |
| BarrierProgress.StepsBounded | src/inference/threadpool.rs:58-88 | every schedule from a reachable state in which no thread makes more than a given number of waits is finite: its length is bounded by a rank of the state plus three steps for each spurious wake-up |
| BarrierProgress.NoDeadlock | src/inference/threadpool.rs:58-88 | unless every thread has completed its waits, some thread that is awake can take a step |
| BarrierProgress.StuckIsDone | src/inference/threadpool.rs:58-88 | a schedule that can only go on by spurious wake-ups has every thread out of every wait: no wait blocks for ever, whatever the scheduler does |
| BarrierProgress.EveryWaitReturns | src/inference/threadpool.rs:58-88 | from every reachable state a finite schedule without spurious wake-ups lets every thread, blocked or not, return from all its waits |
| WorkStealing.StepInv | src/inference/forward_graph_layer.rs:74-86 | every step of the store, wait, steal, wait discipline keeps the invariant: each claimed chunk has one holder or is finished, nothing is written outside a round |
| StealingRuns.StealingComputes | src/inference/forward_graph_layer.rs:74-86 | after the closing wait, on every interleaving, each address of the job was written exactly once, with what the chunk or remainder place that writes it computed, and no other address was written |
| StealingRuns.NoSharedChunk | src/inference/matmul_graph.rs:22-38 | two threads never hold the same chunk, and the i32 counter never wraps |
| StealingProgress.NoDeadlock | src/inference/forward_graph_layer.rs:74-86 | unless every thread is past the last round and every job written, some thread that is not asleep in the barrier changes the state |
| StealingProgress.RankStep | src/inference/matmul_graph.rs:22-38 | every such step lowers a rank made of the barrier's rank, the cells still to write, the claims still possible and each thread's place in its rounds |
| StealingProgress.EveryRunFinishes | src/inference/forward_graph_layer.rs:74-86 | from every reachable state every run without spurious wake-ups is finite, and where it cannot go on every thread is past the last round and every cell of every job has been written, each address once |
| StealingProgress.SomeRunFinishes | src/inference/forward_graph_layer.rs:74-86 | and such a run exists |
| StealingProgress.RoundReached | src/inference/forward_graph_layer.rs:74-86 | for every thread and round some run brings the thread out of the round's closing wait |
| WorkStealing.CounterBound | src/inference/matmul_graph.rs:22-38 | a thread about to fetch_add finds the counter below chunks plus threads |
| MatmulJobs.QuadChunks | src/inference/matmul_graph.rs:18-51 | for one vector, chunk q is rows 4q to 4q+3 and the tail is the last n_rows mod 4 rows |
| MatmulJobs.DualChunks | src/inference/matmul_graph.rs:63-106 | the dual kernel's chunk writes the same four rows of both outputs |
| MatmulJobs.GridDistinct | src/inference/matmul_graph_batch.rs:210-298 | with output_stride at least n_rows, no address is written twice by chunks or remainder |
| MatmulJobs.GridCovers | src/inference/matmul_graph_batch.rs:210-298 | a cell is covered if and only if its row is below the rows the kernel writes and its token exists |
| MatmulJobs.CoversAllRows | src/inference/matmul_graph_batch.rs:77-191 | all cells are covered if and only if there is a remainder loop, the row count is a multiple of the tile height, or there are no tokens |
| MatmulJobs.TileKernelsCover | src/inference/matmul_graph.rs:258-293 | the 8-row tile kernels and the repacked Q6K batch kernel write every row if and only if the row count is a multiple of their tile height, or there is no token |
| MatmulJobs.BatchQuadsCover | src/inference/matmul_graph_batch.rs:195-358 | the general batch kernel writes every row of every token, whatever the shape |
| MatmulJobs.RepackedLeavesRows | src/inference/matmul_graph_batch.rs:149-191 | with six rows, which no caller in the repository passes, the text of the repacked batch kernel leaves rows 4 and 5 unwritten |
| MatmulJobs.CellValue | src/inference/matmul_graph_batch.rs:227-245 | if every chunk and remainder place computes the value of the row and token it writes, address t * stride + row ends with the value of that row and token |
| MatmulJobs.MomentReached | src/inference/matmul_graph.rs:12-52 | the moment the results speak of, a thread out of the closing wait of its round, is reached for every thread, round and list of matrix products |
| MatmulJobs.ConcurrentMatmul | src/inference/matmul_graph_batch.rs:195-358 | for such a kernel, on every interleaving, each row it writes ends with its own product for every token, written once, and other rows are untouched |
| MatmulSeq.Q4kMatvec | src/inference/matmul_seq.rs:62-113 | each output row is the dot product of its own weight bytes, full quads and remainder alike, and nothing else is written |
| MatmulSeq.ExtractD | src/inference/matmul_seq.rs:171-177 | the scale row is the block's f16 scale times the input's block scale, block by block |
| MatmulSeq.Q6kMatvec | src/inference/matmul_seq.rs:180-231 | each output row is the product of its own bytes with its own scales, although the four scale rows share one scratch buffer |
| StealingKernels.VectorComputes | src/inference/matmul_graph.rs:22-51 | chunk q's four weight pointers (4q + k) * row_bytes, and the remainder's, are those of the very rows whose outputs it writes |
| StealingKernels.ScalesOfRow | src/inference/matmul_graph.rs:210-221 | the scales extracted through (base_row + r) * row_bytes + blk * 210 + 208 are the row's block scales times the input's |
| ConcurrentMatvec.Q4kIsSequential | src/inference/matmul_graph.rs:12-52 | after a round of q4k_matvec_ws, on every interleaving, the output is row by row what the single-threaded q4k_matvec leaves |
| ConcurrentMatvec.Q6kIsSequential | src/inference/matmul_graph.rs:194-256 | the same for q6k_matvec_ws and q6k_matvec |
| StealingKernels.DualComputes | src/inference/matmul_graph.rs:66-106 | the dual chunk's eight pointers and its remainder address the gate and up rows whose outputs they write |
| ConcurrentMatvec.DualIsSequential | src/inference/matmul_graph.rs:55-107 | after a round of q4k_matvec_dual_ws, gate_out and up_out hold the two matrices' own products |
| StealingKernels.BatchComputes | src/inference/matmul_graph_batch.rs:214-225 | quad chunk % full_quads and token block chunk / full_quads address the row and token whose output the chunk writes |
| StealingKernels.LayoutHolds | src/inference/matmul_graph_batch.rs:203-226 | for any tokens of n_cols columns there is a batch that holds them: their values with twelve bytes of padding, scales and sums end to end |
| StealingKernels.TokenInputIs | src/inference/matmul_graph_batch.rs:203-226 | for a batch that holds x_0, x_1, ... (values from t * (n_cols + 12), scales from t * n_blocks, sums from t * n_blocks * 16), what the kernels read through token t's pointers is x_t |
| ConcurrentMatvec.BatchQ4kIsSequential | src/inference/matmul_graph_batch.rs:195-358 | after a round of matvec_batch_ws on a Q4K weight, for a batch that holds x_0, x_1, ..., column t is what the single-threaded kernel computes from x_t |
| ConcurrentMatvec.BatchQ6kIsSequential | src/inference/matmul_graph_batch.rs:195-358 | the same on a Q6K weight |
| StealingKernels.TileComputes | src/inference/matmul_graph_batch.rs:149-186 | a tile's place r, on the interleaved weight with the thread's scales, computes the single-threaded value of row 4 quad + r for the x_t of its token |
| ConcurrentMatvec.RepackedIsSequential | src/inference/matmul_graph_batch.rs:77-191 | after a round of either repacked batch kernel, every row of a full quad holds, in column t, what the single-threaded kernel computes from x_t and the weight before repacking |
| Repack.RepackBijection | src/inference/repack.rs:121-135 | source and destination block numbers are mutual inverses and stay in range |
| Repack.RepackFourRows | src/inference/repack.rs:111-137 | block (quad, column, r) of the result is the source block of row 4 quad + r, for every block |
| Repack.PrecomputeScales | src/inference/repack.rs:158-182 | entry (quad, column, r) is the f16 scale of that source block |
| Repack.ScalesOnTheFly | src/inference/matmul_graph_batch.rs:173-180 | the thread's scratch slot gets the tile's scales, converted on the fly, and only it changes |
| Repack.ScalesPreD | src/inference/matmul_graph_batch.rs:113-124 | from the precomputed array the slot gets exactly the same scales |
| Repack.TileIsFourRows | src/inference/matmul_graph_batch.rs:173-185 | the tile kernel is handed, for row 4 quad + r, the blocks and scales the sequential kernel uses for that row |
| MatrixLaws.Q4kValueOfRows | src/inference/matmul_seq.rs:62-113 | for a weight given row by row, 144 bytes for 256 columns, the value of a row is the dot product of that row |
| MatrixLaws.Q6kValueOfRows | src/inference/matmul_seq.rs:171-231 | the same at 210 bytes for 256 columns, with the f16 at byte 208 of each block times the input's scale of the block |
| MatrixLaws.InterleavedByte | src/inference/repack.rs:111-137 | byte j of row 4 quad + r, column blk moves from ((4 quad + r) * n_blocks + blk) * 210 + j to (4 (quad * n_blocks + blk) + r) * 210 + j |
| MatrixLaws.PrecomputedIs | src/inference/repack.rs:158-182 | entry 4 (quad * n_blocks + blk) + r is the f16 at byte 208 of that source block |
| MatrixLaws.TileScaleIs | src/inference/matmul_graph_batch.rs:173-180 | scale 4 blk + r of a tile is that f16 times the input's scale of the column |
| MatrixLaws.TileRowByte | src/inference/matmul_graph_batch.rs:173-185 | what the tile kernel reads for row r, byte by byte |
| MatrixLaws.RowBlocksJoin | src/inference/repack.rs:111-137 | joined again, the 210-byte blocks of a row are the row |
| MatrixLaws.BatchChunk | src/inference/matmul_graph_batch.rs:210-225 | chunk q writes rows 4 (q % full_quads) .. + 3 of the up to 16 tokens from 16 (q / full_quads) on, at t * stride + row |
| MatrixLaws.BatchTail | src/inference/matmul_graph_batch.rs:301-310 | thread 0 writes the rows after the last quad, row by row, for every token |
| Splits.BlocksPartition | src/inference/forward_graph_primitives.rs:13-18 | for every thread count each block is in exactly one thread's ceiling-division range |
| Splits.BlockRanges | src/inference/forward_graph_primitives.rs:13-18 | with c the least number of blocks a thread that is enough, thread i has blocks i * c up to (i + 1) * c or the end |
| Splits.QuantBlocks | src/inference/forward_graph_primitives.rs:9-27 | a thread writes its own blocks and no other |
| Splits.QuantTokens | src/inference/forward_batch_helpers.rs:94-117 | a thread writes the tokens of its stride, padding tokens with zeros, and no other |
| Splits.AllShares | src/inference/forward_batch_helpers.rs:94-117 | in whatever order the threads do their shares, each as a whole, everything is in place afterwards |
| Splits.AnyInterleaving | src/inference/forward_batch_helpers.rs:94-117 | however the threads' single writes are interleaved, once each thread has made its own, every cell holds its value and nothing else has changed |
| Splits.BlocksAreShared | src/inference/forward_graph_primitives.rs:13-26 | the threads' block loops write only their own blocks and together all of them |
| Splits.TokensAreShared | src/inference/forward_batch_helpers.rs:94-117 | so do the strided token loops, padding included |
| GraphPool.BumpOk | src/inference/threadpool.rs:205-209 | although the packed counter wraps, a dispatch always changes it and keeps the thread count |
| GraphPool.BumpCounts | src/inference/threadpool.rs:205-209 | the upper half of the counter goes up by one, from 0x7FFF to -0x8000, the lower half is the thread count |
| GraphPool.CaughtUp | src/inference/threadpool.rs:183-216 | when the main thread has finished a graph's waits, every worker has started that graph; how often a graph waits goes by its position, so one function and data pointer may wait differently each time, as in ubatched prefill |
| GraphPool.StepInv | src/inference/threadpool.rs:183-273 | every step of dispatching, polling, locking, sleeping and running keeps the pool invariant |
| GraphPoolRuns.GraphsInOrder | src/inference/threadpool.rs:183-273 | what each thread has started is a prefix of the dispatched graphs, each with its own function and data; threads differ by at most one graph, by none while the next is published |
| GraphPoolRuns.EveryGraphOnce | src/inference/threadpool.rs:183-273 | when the main thread has run the last graph, every thread has started each graph exactly once |
| GraphPoolRuns.SleepsOnlyWhenIdle | src/inference/threadpool.rs:225-254 | a sleeping worker has seen the current counter, and started every dispatched graph, except exactly in the moment before notify; a worker that looks finds the counter unchanged exactly if it has started every dispatched graph |
| PoolProgress.NoDeadlock | src/inference/threadpool.rs:183-273 | unless the main thread is done, every thread has run every graph and every worker sleeps, some thread that is not asleep can change the state |
| PoolProgress.RankStep | src/inference/threadpool.rs:183-273 | every such step lowers a rank made of the barrier's rank, the poll rounds and the steps around the mutex; notifying pays for the sleepers it wakes |
| PoolProgress.EveryRunFinishes | src/inference/threadpool.rs:183-273 | from every reachable state every run without spurious wake-ups is finite, and where it cannot go on every thread has run every graph to its end and every worker sleeps |
| PoolProgress.SomeRunFinishes | src/inference/threadpool.rs:183-273 | and such a run exists |
| KvCache.Cache.constructor | src/inference/cache.rs:27-68 | a new cache is empty, zeroed, and sized by layer type; shared layers own nothing |
| KvCache.Cache.Store | src/inference/cache.rs:75-108 | the token's rows go to the slot of the current position of one owned layer and nothing else changes |
| KvCache.Cache.StoreBatch | src/inference/cache.rs:111-143 | a batch leaves what storing its rows one by one would leave, also when it is longer than the window |
| KvCache.Cache.Reset | src/inference/cache.rs:214-221 | all buffers zero, position zero |
| KvCache.WriteSlot | src/inference/cache.rs:88-107 | writing one slot of a flat buffer changes that slot and no other |
| KvCache.WriteRowsAppend | src/inference/cache.rs:111-143 | storing two batches is storing their concatenation |
| KvCache.GlobalSlots | src/inference/cache.rs:88-107 | a global layer's slots are the whole history in order |
| KvCache.RingSlots | src/inference/cache.rs:88-107 | slot t mod window holds token t while t is among the last window tokens |
| KvCache.RingWindow | src/inference/cache.rs:188-199 | every one of the first min(n, window) slots belongs to one of the most recent tokens |
| CacheLaws.BufferSizes | src/inference/cache.rs:27-58 | a layer's buffers have heads times slots times head dimension numbers, or none if it shares |
| CacheLaws.SharedMapIs | src/inference/engine_helpers.rs:88-115 | layer i reads layer j exactly when i is among the last `suffix` layers, j is not, and j is the last such layer of i's type |
| SharedKv.ComputeKvShared | src/inference/engine_helpers.rs:88-115 | entry i is some j if and only if layer i is in the shared suffix and j is the last earlier layer of its type before the suffix |
| SharedKv.NearestOwner | src/inference/engine_helpers.rs:88-115 | a shared layer points to the nearest earlier layer of its type that owns its storage |
| SharedKv.OwnersInSuffix | src/inference/engine_helpers.rs:88-115 | a suffix layer keeps its own storage exactly when no layer before the suffix has its type |
| SharedKv.Resolves | src/inference/cache.rs:176-199 | resolution is one hop to a buffer allocated with the reading layer's own row size and slot count, and attn_len agrees with its own type |
| SharedKv.AllResolved | src/inference/cache.rs:176-199 | for every layer pattern, each layer resolves to itself or an earlier owner of its type and row size |
| Forward.ForwardChunk | src/inference/forward_batch.rs:178-180 | one batched pass extends every owned layer's history by its n tokens and advances by n |
| Forward.ForwardOne | src/inference/forward_graph_layer.rs:159-170 | one decode step extends it by one token |
| Forward.ForwardBatch | src/inference/forward.rs:369-398 | panics exactly on no tokens or more than max_batch; otherwise, for every ubatch size, the cache ends holding exactly the history of all tokens |
| Forward.SameCache | src/inference/cache.rs:111-148 | two caches that hold the same history are equal, whatever mix of batches and single stores filled them |
| Forward.DecodeLayer | src/inference/forward_graph_layer.rs:159-213 | one layer of a decode step stores the token and then reads, through its source, exactly the window of that source |
| Forward.StepReads | src/inference/cache.rs:176-199 | at every layer, owning or shared, right after its store: each of the last attn_len tokens is found at its place with its rotated key and its value, and each of the first attn_len slots is such a place |
| CacheLaws.SlicesAre | src/inference/forward.rs:406-416 | rope_slices returns, for each i below the half length, entry pos * half + i of the table of the layer's attention type |
| CacheLaws.StepReadsRows | src/inference/forward_graph_layer.rs:159-213 | right after a layer's store in a decode step, the slot that attention reads for token t (t, or t modulo the window) holds, number by number in half precision, t's value and t's key rotated by exactly those entries |
| CacheLaws.RemembersRows | src/inference/cache.rs:75-143 | so do, after any pass, the slots of every layer that keeps rows, for every token still in its window |
| Generate.DecodeBudget | src/inference/generate.rs:63-70 | refused exactly when the prompt fills the window; otherwise prompt plus budget fits it and the budget is as large as allowed |
| Generate.Generate | src/inference/generate.rs:138-247 | the run is one of the runs of prefill and sampling, panics included; every write and every RoPE row read is below max_seq_len; the position equals the number of tokens |
| Generate.DecodePanics | src/inference/generate.rs:192-243 | the decode loop panics at its first sample or never: it ends normally if and only if the budget is zero, sampling is greedy, or top_k is positive and its candidates can be allocated |
| Generate.PanicFreeIff | src/inference/generate.rs:138-247 | a prompt the budget accepts is generated from without a panic if and only if it fits the batch buffers and sampling cannot panic |
| Generate.DecodedTokens | src/inference/generate.rs:192-243 | at most the budget is decoded, every id is inside the vocabulary and no stop token, and decoding stops short only because a stop token was sampled |
| Generate.DecodedChain | src/inference/generate.rs:192-243 | the i-th decoded token is sampled from the logits after exactly the tokens before it, with the random state the previous sample left; decoding ends at the budget or at a sampled stop token |
| Generate.GeneratedTokens | src/inference/generate.rs:138-243 | empty, refused, panicked or such a chain, of at most the smaller of max_tokens and what the window leaves |
| Generate.TopKIsNotChecked | src/interface/server.rs:349-351 | with top_k 0 or -2 from a request and the default temperature every accepted prompt panics, if tokens are asked for |
| Generate.BudgetIsNotEnough | src/inference/generate.rs:156-163 | in a window of more than 2049 tokens a 2049-token prompt passes the budget check and panics; in any other no accepted prompt is too long |
| TopK.RootIsLeast | src/inference/sample.rs:42-43 | the heap's first element is a least one |
| TopK.Push | src/inference/sample.rs:35-41 | sift-up restores the heap and only adds the new candidate |
| TopK.ReplaceRoot | src/inference/sample.rs:42-55 | sift-down restores the heap and only replaces the old least candidate |
| TopK.SelectTopK | src/inference/sample.rs:31-56 | panics exactly when top_k is 0 and there is a logit; otherwise the candidates are distinct indices with their own logits, and no left-out logit exceeds a kept one |
| TopK.TopUnique | src/inference/sample.rs:31-56 | the multiset of the k largest values does not depend on how they are selected |
| TopK.SelectedIsSortAndTake | src/inference/sample.rs:31-59 | the heap's values are those of a descending sort cut at top_k |
| Sampler.Softmax | src/inference/sample.rs:61-71 | the two loops compute exp(x - max) over the sum, keeping the tokens |
| Sampler.NormalizedIsDistribution | src/inference/sample.rs:61-71 | the result sums to one, is positive, and keeps a descending order |
| Sampler.TopPCutoff | src/inference/sample.rs:73-83 | the cutoff is the shortest prefix whose mass exceeds top_p, or everything |
| SamplerLaws.TopPIsExceeded | src/inference/sample.rs:73-83 | a prefix whose mass is exactly top_p is not enough: one more candidate is taken |
| SamplerLaws.MinPIsReached | src/inference/sample.rs:85-88 | a candidate of exactly min_p times the first probability is kept |
| Sampler.RetainedIsPrefix | src/inference/sample.rs:85-88 | min-p keeps a prefix of the descending candidates |
| Sampler.Reweigh | src/inference/sample.rs:93-115 | temperature gives the softmax of log p / T, or plain renormalization within 1e-6 of one, and sums to one; what these weights are is stated by the next rows |
| SamplerLaws.NormalizedShare | src/inference/sample.rs:104-114 | a normalized value times the sum is the value |
| SamplerLaws.SoftmaxRatio | src/inference/sample.rs:61-71 | softmax weights are in the ratio of the exponentials, whatever was subtracted |
| SamplerLaws.TemperatureIsPower | src/inference/sample.rs:93-115 | at temperature l / k the l-th powers of the weights are in the ratio of the k-th powers of the probabilities; within 1e-6 of one the weights are in the ratio of the probabilities |
| SamplerLaws.TemperatureSharpens | src/inference/sample.rs:93-115 | at every temperature up to one the odds of the likelier of two candidates do not fall, from one on they do not rise |
| SamplerLaws.HalfTemperature | src/inference/sample.rs:93-115 | probabilities 0.8 and 0.2 at temperature 0.5 become 16/17 and 1/17 |
| Sampler.Draw | src/inference/sample.rs:117-128 | the drawn place is the first whose running sum reaches the threshold |
| SamplerLaws.ThresholdIsReached | src/inference/sample.rs:120-126 | a running sum equal to the threshold draws its candidate |
| SamplerLaws.ThresholdIs | src/inference/sample.rs:118-119 | the threshold times 2^64 - 1 is the random word |
| Sampler.XorShiftInverse | src/inference/sample.rs:152-158 | the previous random state can be computed from the next: no two states share a successor |
| Sampler.XorShiftValues | src/inference/sample.rs:152-158 | the successors of 0, of the lowest and of the highest bit |
| Sampler.XorShiftNonZero | src/inference/sample.rs:152-158 | the random stream never gets stuck at zero |
| Sampler.DrawSorted | src/inference/sample.rs:61-128 | the chain from sorted candidates, and that it finds nothing exactly when min_p exceeds one |
| Sampler.Argmax | src/inference/sample.rs:131-141 | the first of the largest logits, 0 for none |
| Sampler.Sample | src/inference/sample.rs:17-129 | greedy below temperature 1e-6; otherwise it panics exactly when top_k is 0, its candidates cannot be allocated or there is no logit, and else returns a token drawn by the chain from the top_k candidates, or the argmax exactly when min_p exceeds one |
| Sampler.DrawnIsTop | src/inference/sample.rs:31-129 | a drawn token's logit is at least the top_k-th largest |
| Base64.EncodeBytes | src/interface/ws.rs:204-226 | the chunk loop computes the encoding, four characters for every three bytes begun |
| Base64Laws.Table1 | src/interface/ws.rs:205-206 | the 64 characters of the alphabet of RFC 4648, Table 1 |
| Base64Laws.GroupIsNumber | src/interface/ws.rs:208-216 | the four 6-bit numbers of three bytes are the digits of the 24-bit number they form |
| Base64Laws.EncodeAppend | src/interface/ws.rs:208-225 | whole groups are encoded on their own, in order |
| Base64Laws.Examples | src/interface/ws.rs:204-226 | the seven examples of RFC 4648, section 10 |
| Base64Laws.Values | src/interface/server_analyze.rs:228-237 | reading a character is the inverse of writing it; other characters have no value |
| Base64Laws.PadEnds | src/interface/server_analyze.rs:243 | everything from the first padding character on is ignored |
| Base64Laws.Accepts | src/interface/server_analyze.rs:241-247 | without padding, a text is decoded if and only if each of its characters is in the alphabet, a space, a tab or a line break |
| Base64.DecodeBytes | src/interface/server_analyze.rs:226-255 | the accumulator loop decodes what follows the last comma, skipping white space, stopping at padding, refusing other characters |
| Base64.DecodeEncoded | src/interface/server_analyze.rs:238-254 | decoding an encoding gives the bytes back whatever the unmasked accumulator still holds |
| Base64.RoundTrip | src/interface/server_analyze.rs:226-255 | base64_decode(base64_encode(d)) == d for every byte sequence |
| Base64.EncodeInjective | src/interface/ws.rs:204-226 | different byte sequences have different encodings |
| Base64.SpacesIgnored | src/interface/server_analyze.rs:242-246 | white space anywhere does not change the result |
| Base64.TolerantRoundTrip | src/interface/server_analyze.rs:224-255 | an encoding with white space scattered in it, after any data-URL prefix, decodes to the same bytes |
| TailFile.Tailer.AtEnd | src/palantir/tail.rs:25-29 | starts at the reported length, or at 0 when there is none |
| TailFile.Tailer.Poll | src/palantir/tail.rs:37-64 | one poll in every case: metadata missing, truncated, unchanged, unreadable, or new bytes |
| TailFile.Tailer.DrainCompleteLines | src/palantir/tail.rs:66-81 | the scan returns exactly the complete lines of the buffer and keeps the rest |
| TailFile.PollCases | src/palantir/tail.rs:37-64 | the state and the lines after one poll in each case, truncation first |
| TailFile.ShownIs | src/palantir/tail.rs:72 | a line is shown without the carriage returns at its end, and with all others |
| TailFile.SplitUnique | src/palantir/tail.rs:66-81 | there is one way to write bytes as newline-terminated lines and a rest |
| TailFile.SplitAppend | src/palantir/tail.rs:61-63 | splitting in two steps with the rest carried over is splitting at once |
| TailFile.ScheduleIndependent | src/palantir/tail.rs:37-81 | on every polling schedule of a growing file the reported lines are the complete lines of the bytes from the start to the offset |
| TailFile.PollsAreGrowing | src/palantir/tail.rs:37-64 | polls of a growing file at any lengths form such a schedule and read up to the last length |
| TailFile.NothingLost | src/palantir/tail.rs:37-81 | the lines with their newlines, then the buffer, are exactly those bytes |
| TailFile.SchedulesAgree | src/palantir/tail.rs:37-81 | schedules that read equally far have reported the same lines |
| TailFile.TruncationRestarts | src/palantir/tail.rs:42-46 | a file found shorter is read again from the top, as by a tailer that starts there |

## Left out

- BpeMerge.Drain: symbol indices are unbounded integers; the original's `i32` indices overflow for chunks of more than 2^31 code points.
- BpeMerge.Pop: the library's binary heap is a multiset whose `pop` removes some least entry; its array layout is not modelled.
- RoundTrip.DecodeEncode: requires every final piece to be in the vocabulary, because fallback tokens hold the literal text `<0xNN>` and decode to that text; `ClosedVocabulary.EveryTextComesBack` says when that is so.
- Viterbi.EncodeSentencepiece: which of several equally good segmentations is returned is not stated; scores are finite reals.
- StealingRuns.StealingComputes: requires chunks plus threads to fit the `i32` counter, without which the original's `fetch_add` wraps.
- PoolProgress.EveryRunFinishes: about continuations without spurious wake-ups; as they start in any reachable state, finitely many earlier spurious wake-ups are covered.
- StealingProgress.EveryRunFinishes: likewise; `BarrierProgress.StepsBounded` counts spurious wake-ups one by one.
- GraphPool.StepInv: shutdown and `Drop` are not modelled; the thread count is below 65536, what the packed field can hold.
- Sampler.Sample: logits and settings are reals, so NaN (on which the original's sort panics), infinities and rounding are not modelled; an allocation the system refuses, which aborts, is not either; of `exp` and `ln` it is only used that `exp` is positive, monotone and turns sums into products, and that exp(ln p) is p for positive p.
- KvCache.Cache.Store: the original's slice bounds and modulo by the window panic on a full global layer or a zero window; here they are preconditions.
- Forward.ForwardBatch: logits and attention results are not modelled; during a prefill longer than the window all rows are stored before attention runs, so only the cache contents are claimed equal across ubatch sizes.
- Generate.PanicFreeIff: covers the assertions of `forward_batch`, the cache and RoPE bounds and the sampler; not a malformed model file (a zero window, an unsupported weight type, a BOS id outside the vocabulary).
- Generate.Generate: the logits after a list of tokens are a parameter; text output, thinking markers and timing are left out.
- Repack.RepackFourRows: a row count that is not a multiple of four only trips a debug assertion in the original; the rows of full quads are repacked, as in a release build.
- TailFile.Tailer.Poll: the file path and the system calls are replaced by what a poll finds.
- SIMD kernels, quantization, RMS norm, RoPE trigonometry, f16 conversion and softmax rounding: uninterpreted or over the reals.
- Weak memory orderings and the futex system call: steps are sequentially consistent, and blocking is an atomic compare-and-block with spurious wake-ups.
- The Llama 3 pretokenizer, GPT-2 byte mapping and greedy score merge in the tokenizer: separate paths that the Gemma 4 model does not take.
- The GEMM work-stealing drivers and the Q3K, Q5K and BF16 kernels: the same chunk and remainder pattern again.
- The layer's norm, PLE and residual steps between matrix products: they only add more barrier-separated writes.
- HTTP and WebSocket framing, PTY and terminal emulation, WhatsApp bridge, vault, router and daemon, GGUF loading, tool-call parsing: I/O or glue.
