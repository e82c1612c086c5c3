# Yuki core model

A Dafny model of the core of Yuki, an engine for an 8x8 board game in the
Leela Zero line, and of its training-data reader.

- **Training records** (`train/parse.py`):
  - a record is five text lines: two 16-hex-digit bitboards, a side-to-move digit, 65 policy numbers and the game result;
  - the record is decoded into planes and tensors;
  - one of the eight board symmetries is applied to every tensor;
  - a chunk of lines is grouped into records, and the converted ones are pushed in order.
- **Engine-side symmetry and network input** (`src/Network.cpp`):
  - `rotate_nn_idx` is the index remap;
  - `gather_features` builds the 18 input planes by walking the game record back up to eight moves and then forward again.
- **Game bookkeeping** (`src/KoState.cpp`, `src/GameState.cpp`):
  - the append-only list of position hashes;
  - the record of saved positions, with its move cursor, undo, redo, rewind, truncate-on-play, anchor and trim;
  - reading a move given as text.
- **Random numbers and hashing keys** (`src/Random.cpp`, `src/Zobrist.cpp`):
  - the xoroshiro128+ generator over two 64-bit words, its seeding and its bounded draws;
  - the Zobrist key tables, each key built from two 32-bit draws.
- **Transposition table** (`src/TTable.cpp`, `src/TTable.h`): buckets indexed by the low 32 bits of a hash, with `update` and `sync`.

Every operation is a pure function over immutable values; `gather_features` and the per-chunk loop are methods with loops. Mutable engine state becomes a value passed in and returned. Several things enter as parameters:

- the random symmetry;
- the float parser;
- the board rules (`FastState`/`FastBoard`, whose source is not part of this model), as the functions of a `Board.Engine` value.

Modules, one per source component:

| file | module | models |
|---|---|---|
| symmetry.dfy | Symmetry | `remap_vertex`, `apply_symmetry` |
| text.dfy | Text | white-space stripping (`str.strip`, as `int` and `float` apply it) and `str.split`, whose separators include the control characters 0x1C to 0x1F |
| bitboard.dfy | Bitboard | `int(s, 16)` and the 64-digit binary rendering |
| train_data.dfy | TrainData | `convert_train_data`, the record loop of `ChunkParser.task` |
| random.dfy | Xoroshiro | `Random` |
| zobrist.dfy | ZobristInit | `Zobrist::init_zobrist` |
| ttable.dfy | TransTable | `TTable`, `TTEntry` |
| board.dfy | Board | the board interface the bookkeeping calls |
| ko_state.dfy | KoHistory | `KoState` |
| text_move.dfy | TextMove | the text parsing inside `GameState::play_textmove` |
| game_state.dfy | GameHistory | `GameState` |
| network.dfy | NetworkInput | `rotate_nn_idx`, `gather_features` |
| wrappers.dfy | Wrappers | `Option` |

## Where the design description and the code differ

In each of these cases the model follows the code.

- **A malformed record.** The design description says a malformed record is dropped. In the code, `convert_train_data` raises on a failed assertion or a bad `int`/`float`, and `task` has no handler, so the worker stops at that record. Before any of this, `task` decodes each line as ASCII, and a byte of 0x80 or more raises there (`TrainData.NonAsciiFails`). `TrainData.ParseChunk` ends the chunk at the first failing record and reports the error.
- **Where a single-hot policy lands.** The design description says a policy weight on square k moves to `remap_vertex(k, s)`. `apply_symmetry` gathers (`out[v] = plane[remap_vertex(v, s)]`), so the weight lands on `remap_vertex(k, s')`, where s' is the inverse symmetry. This differs for the quarter turns 5 and 6 (`Symmetry.ApplySingleHot`, `Symmetry.SingleHotQuarterTurn`).
- **The side-to-move planes.** They are built with 361 entries. `apply_symmetry` reads only the first 64 of them and returns 64, so the converted sample is well shaped (`Symmetry.ApplyUniform`).

## Model

| member | source | states |
|---|---|---|
| Symmetry.RemapVertex | train/parse.py:33-47 | every vertex of the 64 maps to a vertex of the 64; symmetry 0 maps each vertex to itself |
| Symmetry.RemapStructure | train/parse.py:40-46 | 4..7 transpose and then act as 0..3; 1 mirrors the column, 2 mirrors the row, 3 mirrors both |
| Symmetry.RemapInverse | train/parse.py:33-47 | remapping by s and then by its inverse (5 and 6 swap, the rest are involutions) returns the vertex |
| Symmetry.RemapBijective | train/parse.py:33-47 | each symmetry is one-to-one and onto on the 64 vertices |
| Symmetry.ApplySymmetry | train/parse.py:49-63 | square v of the output is square remap(v, s) of the input; the output has 65 entries with the pass copied when the input has 65, and 64 otherwise |
| Symmetry.ApplyIdentity | train/parse.py:49-63 | symmetry 0 leaves a 64- or 65-entry plane unchanged |
| Symmetry.ApplyInverse | train/parse.py:49-63 | applying s and then its inverse restores a 64- or 65-entry plane |
| Symmetry.ApplyUniform | train/parse.py:84-105 | a uniform plane of 361 entries comes out as a uniform 64-entry plane |
| Symmetry.ApplySingleHot | train/parse.py:93-106 | a weight on square k alone moves to remap(k, inverse of s); pass and every other square are unchanged |
| Symmetry.SingleHotQuarterTurn | train/parse.py:57-59 | under symmetry 5 a weight on square 0 lands on 56, not on remap(0, 5) = 7 |
| Text.StripSpec | train/parse.py:78 | stripping removes exactly the white space at both ends and leaves an infix |
| Text.Strip | train/parse.py:78 | the stripped text is no longer than the input; `Text.StripSpec` states the rest |
| Text.SeparatorNotStripped | train/parse.py:78 | the control character 0x1C is not white space to stripping: "\x1c1" is left as it is |
| Text.Split | train/parse.py:94 | the pieces of a line; `Text.SplitWords`, `Text.SplitKeeps` and `Text.SplitJoin` state what they are |
| Text.SplitWords | train/parse.py:94 | every piece of a split is a non-empty word without a separator, where the separators are ASCII white space and 0x1C to 0x1F |
| Text.SplitKeeps | train/parse.py:94 | the pieces, put back to back, are exactly the line's non-separator characters in order |
| Text.SplitJoin | train/parse.py:94 | splitting words joined by spaces, followed by any run of separators (0x1C to 0x1F included), gives back the words |
| Text.SplitAtSeparator | train/parse.py:94 | two words with 0x1C between them split into the two words |
| Bitboard.ParseHex | train/parse.py:78 | base-16 parsing succeeds exactly on hex digits inside optional white space, with their value |
| Bitboard.BitPlaneDigits | train/parse.py:79-82 | square i of the 64-digit rendering is 1.0 exactly when bit 63 - i of the number is set, else 0.0 |
| Bitboard.DecodeBitboard | train/parse.py:77-82 | a decoded bitboard has 64 squares; `Bitboard.DecodeBitboardAccepts` and `Bitboard.DecodeBitboardDigits` state when it decodes and to what |
| Bitboard.DecodeBitboardAccepts | train/parse.py:77-78 | a bitboard line is accepted exactly when its first 16 characters parse as hex |
| Bitboard.DecodeBitboardDigits | train/parse.py:77-82 | square i of a decoded bitboard is 1.0 exactly when bit 63 - i of the parsed number is set |
| Bitboard.ShortHexLeftPadded | train/parse.py:79-82 | fewer than 16 hex digits leave the leading squares zero |
| Bitboard.AllFDecodesToOnes | train/parse.py:77-82 | sixteen 'F' digits decode to 64 ones |
| Bitboard.DecodeEncode | train/parse.py:75-83 | decoding the hex rendering of any 0/1 plane gives the plane back |
| TrainData.StmPlanes | train/parse.py:84-91 | '0' gives 361 ones then 361 zeros, anything else the reverse |
| TrainData.DecodeRecord | train/parse.py:74-102 | fails with the ASCII error exactly when a line holds a byte of 0x80 or more; a decoded record is ASCII and has two 64-square planes |
| TrainData.NonAsciiFails | train/parse.py:129 | a byte of 0x80 or more anywhere in the five lines fails the conversion with the ASCII error |
| TrainData.DecodeRecordSkips | train/parse.py:93-98 | a record is skipped exactly when it is ASCII, its header is valid, and a NaN is the first non-number of the policy line |
| TrainData.DecodeRecordSucceeds | train/parse.py:74-102 | a record decodes exactly when it is ASCII, both bitboards and the side to move are valid, the policy line holds exactly 65 numbers and the result is 1.0 or -1.0 |
| TrainData.DecodeRecordFields | train/parse.py:74-102 | the decoded fields are the parsed lines of the record |
| TrainData.DecodeRecordBitboardFirst | train/parse.py:75-85 | in an ASCII record an undecodable bitboard is always the error raised, before anything else is looked at |
| TrainData.Convert | train/parse.py:65-107 | converts exactly the records that decode, skips exactly the skipped ones, and otherwise fails with the decoding error |
| TrainData.ConvertShaped | train/parse.py:65-107 | a converted record has four 64-square planes, 65 numeric probabilities and a value of plus or minus one |
| TrainData.ConvertedPlanes | train/parse.py:74-107 | the converted planes are the bitboards under the symmetry and the side-to-move planes cut to 64; the policy is the token list under the symmetry |
| TrainData.SymmetryConsistent | train/parse.py:103-107 | converting under s is converting under the identity and reorienting every tensor by s; the inverse recovers the identity sample |
| TrainData.Records | train/parse.py:125-128 | a chunk of n lines has floor(n/5) records; record k is lines 5k to 5k+4 |
| TrainData.RecordsConcat | train/parse.py:125-128 | the records, put back together, are the chunk without its partial tail |
| TrainData.ConvertItem | train/parse.py:127-130 | item k is converted from lines 5k to 5k+4 under symmetry k |
| TrainData.ParseChunk | train/parse.py:119-132 | what one chunk pushes equals the reference semantics: successes in order, skips dropped, and the worker stops at the first failure |
| TrainData.PushedIsSuccessPrefix | train/parse.py:126-132 | a chunk pushes the converted samples of the records before the first failing one, in order, and reports that failure |
| TrainData.ChunkWithoutErrors | train/parse.py:125-132 | without a failing record, a chunk pushes one sample per record that is not skipped |
| Xoroshiro.Step | src/Random.cpp:51-53 | the state update reaches the all-zero state exactly from the all-zero state |
| Xoroshiro.Seed | src/Random.cpp:70-76 | the seeded state is all-zero exactly for seed 0; any other seed makes both words non-zero |
| Xoroshiro.MultiplierKeepsNonZero | src/Random.cpp:74-75 | multiplying by the seeding constant modulo 2^64 gives zero exactly for zero |
| Xoroshiro.RandUint32 | src/Random.cpp:66-68 | the 32-bit draw is the high half of the 64-bit output, and the generator advances exactly one step |
| Xoroshiro.RandUint16 | src/Random.cpp:58-60 | the draw is below max (0 for max 0) and the generator advances exactly one step |
| Xoroshiro.RandUint32Below | src/Random.cpp:62-64 | the draw is below max (0 for max 0) and the generator advances exactly one step |
| Xoroshiro.FloatNumerator | src/Random.cpp:78-84 | the integer behind a float draw is below 2^24, and the generator advances exactly one step |
| Xoroshiro.ZeroFixpoint | src/Random.cpp:46-56 | the all-zero state outputs zero and stays all-zero |
| Xoroshiro.StepNonZero | src/Random.cpp:46-56 | a non-zero state never steps to the all-zero state |
| Xoroshiro.IterateNonZero | src/Random.cpp:46-56 | a non-zero state stays non-zero over any number of steps |
| Xoroshiro.SeedZero | src/Random.cpp:70-76 | seeding gives the all-zero state exactly for seed 0; any other seed makes both words non-zero |
| Xoroshiro.IterateAdd | src/Random.cpp:46-56 | m steps followed by n steps are m + n steps |
| Xoroshiro.WordShift | src/Random.cpp:66-68 | the k-th 32-bit draw after m steps is the (m + k)-th draw of the stream |
| ZobristInit.Combine | src/Zobrist.cpp:31-32 | the high 32 bits of the key are the first draw and the low 32 bits the second |
| ZobristInit.CombineParts | src/Zobrist.cpp:31-32 | the two 32-bit halves of a key can be read back, and the XOR of the halves equals their OR |
| ZobristInit.FillKeys | src/Zobrist.cpp:29-33 | n keys are built from 2n consecutive draws, in order, and the generator ends 2n steps on |
| ZobristInit.InitZobrist | src/Zobrist.cpp:27-40 | row i of the piece table holds the keys from draw 2*maxSq*i on; the pass keys follow all four rows; the generator ends after 2*(4*maxSq + 5) draws |
| ZobristInit.DrawIndices | src/Zobrist.cpp:27-40 | piece key (i, j) is built from draws 2(i*maxSq + j) and the one after; pass key i from draws 2(4*maxSq + i) and the one after |
| TransTable.Create | src/TTable.cpp:31-34 | a new table holds size buckets, each zeroed |
| TransTable.Index | src/TTable.cpp:39-40 | the bucket index of a hash is below the bucket count |
| TransTable.Update | src/TTable.cpp:36-48 | the table keeps its size |
| TransTable.UpdateBuckets | src/TTable.cpp:36-48 | update writes the hash, visits and evaluation sum into the hash's bucket and leaves every other bucket unchanged |
| TransTable.Sync | src/TTable.cpp:50-73 | the synced node never has fewer visits, and is either the node itself or the bucket's statistics when the bucket holds the same hash |
| TransTable.SyncCases | src/TTable.cpp:50-73 | sync changes the node only when the bucket holds the same hash and more visits, and then copies the stored statistics |
| TransTable.SyncMonotone | src/TTable.cpp:66-72 | sync never lowers the node's visit count |
| TransTable.SyncIdempotent | src/TTable.cpp:50-73 | syncing twice is syncing once |
| TransTable.UpdateThenSync | src/TTable.cpp:36-73 | after storing a, syncing b gives the larger visit count, and a itself when a has more visits |
| TransTable.UpdateOtherBucket | src/TTable.cpp:36-73 | storing under a hash does not affect a sync whose hash is in another bucket |
| TransTable.FreshSync | src/TTable.h:27-34 | a fresh table leaves a node with non-negative visits unchanged |
| TransTable.DefaultTable | src/TTable.cpp:31-34 | the default table has 500000 buckets and leaves a node unchanged for any non-zero hash |
| KoHistory.InitGame | src/KoState.cpp:31-39 | the hash list holds exactly one hash, recomputed from the new position |
| KoHistory.ResetGame | src/KoState.cpp:42-48 | the hash list holds exactly one hash, recomputed from the reset position |
| KoHistory.PlayPass | src/KoState.cpp:50-54 | the position is the passed one and exactly its hash is appended |
| KoHistory.PlayMove | src/KoState.cpp:60-68 | the old hashes are kept and exactly the hash of the new position is appended |
| KoHistory.PlayMoveToMove | src/KoState.cpp:56-58 | the same append, playing for the side to move |
| KoHistory.PlayMoveStone | src/KoState.cpp:61-64 | a vertex that is neither pass nor resign is played as a stone |
| KoHistory.PassCodes | src/KoState.cpp:65-67 | the pass and resign codes behave exactly as a pass, whatever the colour |
| KoHistory.HistoryGrows | src/KoState.cpp:56-68 | over any sequence of moves the hash list keeps its prefix and grows by exactly one per move |
| GameHistory.Resize | src/GameState.cpp:110-111 | resizing keeps the first slots and pads with empty slots |
| GameHistory.InitGame | src/GameState.cpp:36-46 | the record holds exactly one slot: the new position |
| GameHistory.ResetGame | src/GameState.cpp:48-55 | the record holds exactly one slot: the reset position |
| GameHistory.ForwardMove | src/GameState.cpp:57-65 | succeeds exactly when the record holds a slot past the cursor; it never changes the record, and on failure changes nothing |
| GameHistory.UndoMove | src/GameState.cpp:67-82 | succeeds exactly when the cursor is past the start; it never changes or shrinks the record, and on failure changes nothing |
| GameHistory.Rewind | src/GameState.cpp:84-87 | the cursor becomes 0, the record is unchanged and the first slot's hash list is restored |
| GameHistory.ShiftIn | src/GameState.cpp:103-105 | the recent-move list keeps its length; the vertex comes first and every other entry moves one place back |
| GameHistory.AfterMove | src/GameState.cpp:97-108 | a stone appends its position's hash; a pass is the hash-list pass; a resign is a pass that also enters the resign in the recent moves and clears the capture flag |
| GameHistory.PlayMove | src/GameState.cpp:97-113 | the cursor advances by one; the record is cut to the new cursor, keeps the slots before it, and ends with the new position |
| GameHistory.PlayPass | src/GameState.cpp:93-95 | a pass for the side to move, with the record cut after it |
| GameHistory.PlayMoveToMove | src/GameState.cpp:89-91 | a stone for the side to move, with the record cut after it |
| GameHistory.PlayTextMove | src/GameState.cpp:115-160 | succeeds exactly when the colour word and the vertex text both read; it then plays at the looked-up vertex, and on failure changes nothing |
| GameHistory.PlayTextMoveChecked | src/GameState.cpp:145-157 | the corrected text move plays only at a column and row on the board |
| GameHistory.TextMoveRowZero | src/GameState.cpp:145-157 | "a0" is played at row -1 as written, and rejected by the corrected version |
| GameHistory.AnchorHistory | src/GameState.cpp:196-200 | the cursor becomes 0 and the record holds exactly one slot: the current position |
| GameHistory.TrimHistory | src/GameState.cpp:202-205 | the cursor becomes lastmove - 1 and the hash list is kept; for lastmove >= 0 the record is resized to lastmove slots with the first ones unchanged; a negative lastmove fails, as `resize` throws, leaving the record as it was |
| GameHistory.InitConsistent | src/GameState.cpp:36-55 | starting or resetting a game gives a consistent record |
| GameHistory.ForwardConsistent | src/GameState.cpp:57-65 | redoing a move keeps the record consistent |
| GameHistory.UndoConsistent | src/GameState.cpp:67-82 | undoing a move keeps the record consistent |
| GameHistory.RewindConsistent | src/GameState.cpp:84-87 | rewinding keeps the record consistent and restores the first position exactly |
| GameHistory.PlayConsistent | src/GameState.cpp:97-113 | playing keeps the record consistent and keeps every slot up to the old cursor |
| GameHistory.AnchorConsistent | src/GameState.cpp:196-200 | anchoring gives a consistent record |
| GameHistory.TrimConsistent | src/GameState.cpp:202-205 | trimming just past the cursor succeeds, keeps the record consistent and leaves nothing to redo |
| GameHistory.UndoForward | src/GameState.cpp:57-82 | a successful undo followed by a redo gives back the same game |
| GameHistory.ForwardUndo | src/GameState.cpp:57-82 | a successful redo followed by an undo gives back the same game |
| GameHistory.ForwardNLands | src/GameState.cpp:57-65 | n redo steps land on the slot n past the cursor, or on the last slot |
| GameHistory.ReplayFromStart | src/GameState.cpp:57-87 | rewinding and redoing k moves reaches the game saved at k |
| TextMove.ParseColor | src/GameState.cpp:120-124 | "w" and "white" read as white, "b" and "black" as black, and nothing else reads |
| TextMove.Column | src/GameState.cpp:131-143 | a lower-case letter names a column below 25, and the letter written for that column (skipping 'i'); an upper-case letter names a column of 25 or more |
| TextMove.LeadingDigits | src/GameState.cpp:145-149 | the longest all-digit prefix of the row text |
| TextMove.ReadInt | src/GameState.cpp:145-150 | the row number is the value of the leading digits, capped at the largest int |
| TextMove.ParseVertex | src/GameState.cpp:126-153 | text is accepted exactly when it has at least two characters, a letter other than 'i', then a digit, and the column and the row read are below the board size; the column read is then non-negative and the row at least -1 |
| TextMove.TrailingIgnored | src/GameState.cpp:145-150 | leading zeros of the row and anything after its digits are ignored: "b007" reads as "b7", "c5xyz" as "c5" |
| TextMove.RowZeroAccepted | src/GameState.cpp:145-153 | "a0" passes every check and reads as column 0, row -1 |
| TextMove.ParseVertexChecked | src/GameState.cpp:145-153 | the corrected reading accepts exactly what the engine accepts with a row of at least 0, so every accepted vertex is on the board |
| TextMove.UpperCaseRejected | src/GameState.cpp:131-153 | an upper-case column letter is always rejected on a board of at most 25 lines |
| TextMove.VertexRoundTrip | src/GameState.cpp:126-153 | writing an on-board vertex as a letter and a row number and reading it back gives the same column and row |
| NetworkInput.RotateNnIdx | src/Network.cpp:575-606 | the remapped index of any of the 64 squares is one of the 64 |
| NetworkInput.RotateAsRemap | src/Network.cpp:583-605 | the engine's remap is the training pipeline's remap with symmetries 1 and 2, and 5 and 6, renumbered |
| NetworkInput.ConventionsDiffer | src/Network.cpp:591-600 | the conventions differ: symmetry 1 sends 0 to 56 in the engine and to 7 in training |
| NetworkInput.RotateIdentity | src/Network.cpp:588-590 | symmetry 0 leaves every index in place |
| NetworkInput.RotateInverse | src/Network.cpp:575-606 | rotating by s and then by its inverse gives back the index |
| NetworkInput.RotateBijective | src/Network.cpp:575-606 | each symmetry permutes the 64 indices |
| NetworkInput.ResizePlanes | src/Network.cpp:529 | 18 planes: those present are kept and the new ones are clear |
| NetworkInput.Features | src/Network.cpp:528-567 | the 18 planes, read straight off the record: h moves back for each h the record reaches, up to eight |
| NetworkInput.GatherFeatures | src/Network.cpp:528-573 | the undo/redo walk yields exactly the planes read off the record; it steps back min(cursor, 8) times and restores the game exactly |
| NetworkInput.Replay | src/Network.cpp:569-572 | n redo steps move the cursor n on, keep the record consistent and restore the slot saved there |
| NetworkInput.MarkedExclusive | src/Network.cpp:551-559 | a square goes into at most one of the two planes; an empty square into neither; a stone of the side to move into ours, an opponent's into theirs |
| NetworkInput.SideToMovePlanes | src/Network.cpp:532-541 | plane 16 becomes full when black is to move, plane 17 when white is, and every other plane is unchanged |
| NetworkInput.AddBoard | src/Network.cpp:547-559 | a set square stays set, and a clear square becomes set exactly when it holds a stone for this plane |
| NetworkInput.FreshSideToMove | src/Network.cpp:533-541 | on fresh planes exactly one side-to-move plane is full (17 for white, 16 for black) and the other is clear |
| NetworkInput.FreshHistory | src/Network.cpp:543-567 | on fresh planes, bit (i, j) of plane h (or 8 + h) is set exactly when the record reaches h moves back and that position holds the side to move's stone (or anything else but an empty square) there |

## Left out

- **The I/O and concurrency of `ChunkParser`**: gzip, the chunk shuffle, the worker processes and the queue. `TrainData.ParseChunk` models one pass over one chunk; the queue is the returned sample list.
- **Floating point.**
  - Python's `float` is a parameter (`floatOf`), returning a number, NaN or a parse error.
  - `randflt`'s scaling to a float is left out; `Xoroshiro.FloatNumerator` models its integer part.
- **`random.randrange(8)`** is the `symmetry` parameter, and the per-record symmetries of a chunk are a parameter list.
- **`int(s, 16)` corner forms**: a sign, a `0x` prefix and underscores. They are not accepted by `Bitboard.ParseHex`, because 16 characters of a bitboard line never use them.
- **`Random`'s constructor and the thread-local instance**: they read the thread id and a configuration value.
- **The mutex locks in `TTable`**: the model is sequential.
- **The time control in `GameState`** (`m_timecontrol`): clocks are outside the core.
- **The board rules**: placing stones, captures, the hash, the move counter and vertex lookup.
  - They live in `FastState`/`FastBoard`, which is not part of this model.
  - They are the functions of `Board.Engine`, and the maximum board size is its field `maxBoardSize`.
  - The number of board squares is the parameter `maxSq` of `ZobristInit.InitZobrist`.
  - `Board.Counts` states the move-counter behaviour the record relies on: starting a game sets it to 0, and each move or pass adds one.
- GameHistory.PlayMove: requires `Board.Counts` and a cursor of at least -1. Together these make the move number after the move non-negative, which `resize` needs: a negative count would become a huge `size_t`. The same holds for `PlayPass`, `PlayMoveToMove` and `PlayTextMove`.
- GameHistory.ForwardMove: requires that the slot it restores is a saved position. The same holds for `UndoMove` and `Rewind`. Restoring an empty slot, which `resize` can leave, dereferences a null pointer in the engine.
- GameHistory.ShiftIn: on an empty recent-move list it returns the empty list. The engine's list is a fixed-size array, whose size is not part of this model.
- NetworkInput.GatherFeatures: requires a consistent record. The walk relies on every slot it restores being saved at its own move number.
- **The Zobrist tables' fixed array sizes**: `ZobristInit.InitZobrist` returns sequences of the lengths the loops fill.
- Xoroshiro.Step: no inverse of the step is stated. The proved facts are that only the all-zero state steps to the all-zero state and that non-zero states stay non-zero; the bit-level inverse is too costly to prove here.
- Xoroshiro.Gen: has no contract of its own. Its output is the wrapping sum of the two words, as defined; `Xoroshiro.ZeroFixpoint`, `Xoroshiro.RandUint32` and the bounded draws state its consequences.
- GameHistory.TrimHistory: a positive count too large to allocate, on which `resize` throws `bad_alloc`, is not modelled.
- Text.Split: non-ASCII Unicode white space, which Python's `str.split` also splits on, is not modelled. Such a line fails its ASCII decoding before it is split.

## Findings

| source | as written | input that shows it | evidently intended | confidence | as-written member | corrected member |
|---|---|---|---|---|---|---|
| src/GameState.cpp:145-153 | the row read from the text is decremented and only checked against the board size from above | vertex text "a0" (or "a00") on any board: row 0 - 1 = -1 passes both checks and reaches `get_vertex(0, -1)` | reject a row below 0, as a column below 0 cannot occur | not executed | TextMove.RowZeroAccepted | TextMove.ParseVertexChecked |
