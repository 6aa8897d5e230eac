# FTI: a verified model

FTI is a multilevel checkpointing library for MPI programs. This project models the parts of it that rest on layout,
coding and protocols rather than on I/O, in Dafny, and proves what they keep.

| part | files | main results |
|---|---|---|
| FTI-FF block list | `Datasets`, `Layout*`, `BlockList`, `VariableOrder` | over any history of sizes and new variables the chunks tile the variables, containers are disjoint and never move |
| differential checkpoints | `BlockHashes`, `DirtyRuns`, `ChunkWriter`, `DataPass`, `Checkpoint*` | after every checkpoint of every run the file holds all of memory, although only changed blocks were written |
| FTI-FF restart | `Metadata`, `FtiffRecovery` | any checkpoint of any run is read back to its block list, and every byte is restored |
| level 3 | `Gf16`, `LinearAlgebra`, `Cauchy`, `Survivors`, `Ring*`, `GroupRecovery`, `Level3*` | the ring exchange delivers the code in every interleaving; any k losses out of 2k files are repaired exactly |
| level 2 | `Rendezvous`, `BlockTransfers`, `PartnerRing`, `PartnerRecovery` | no ring of two or more ranks gets stuck with synchronous sends; every copy and every repaired file is exact |
| staging | `StageFields`, `StageTable`, `Staging*` | in any interleaving every look at a status is answered truly, no identifier is reused early, and every request ends |
| heads and processes | `Head*` | every result is received once, the levels are those the calls decide, requests and file information are of their round, no run gets stuck even without buffering, every run ends |
| levels and restart | `Multilevel`, `Restart*` | a lower level is always newer, also after a stop between two steps |
| ini files | `Slots`, `Dictionary`, `Ini*`, `Decimals`, `Ckpt*` | slots refine a map; the metadata file says exactly what was last written for each checkpoint, and which one it reports |
| MD5 | `Md5*`, `WordBits` | the streamed digest is that of RFC 1321, for every split; its steps on numbers and two digests of the standard |
| topology | `NodeList`, `NodeOrder`, `Topology` | node lists are permutations by host; shared-file parts tile the file |

Code that changes state is a class or a method with loops, proved against functions on values; protocols are state
machines whose runs are arbitrary interleavings. `dafny verify dfyconfig.toml` checks everything.

## Where the code falls short

For each of these the exact condition is proved, and an input that fails is given where the source has one.

- A dCP write is complete if and only if no skipped block has the hash of different content (`ChunkWriter.DirtyRunsSuffice`).
- `Checkpoint.fti` reports the id most recently written for the first time, which is the last checkpoint if and only if its id was not first written before that of another one (`CkptHistory.LastWriteFoundIff`, `CkptHistory.ReusedIdIsNotFound`).
- Keeping the last checkpoint at the end flushes the level of the latest success and moves the metadata of the level of the latest call, so files and metadata belong together if and only if these are the same level (`Restart.SavedConsistentIff`). A level 3 call whose encoding fails after a level 2 success leaves files without metadata (`Restart.KeptWithoutMetadata`); after a failed inline write the level is 6, which is no index of the table of levels; without any success nothing is kept (`Restart.NothingToKeep`).
- Between that move and the final cleaning a stop leaves an older checkpoint in front of the newer one if and only if a level in between exists (`Restart.SavedOrderedIff`, `Restart.OlderFoundFirst`).
- Between the removal of old metadata and the rename of new ones only higher levels can be recovered (`Restart.StopLeaves`).
- Building the node list stays inside the list if and only if there are no more hosts than nodes (`NodeList.WritesInRangeIff`, `NodeList.Nodes.BuildNodeList`).
- A partner exchange in a ring of one waits for itself (`PartnerRing.RingOfOneStuck`).
- Printing and reading an ini dictionary keeps it if and only if keys follow their own section (`IniOrder.OrderKeptIffGrouped`).

One place relies on an assumption that is proved to hold: the status reported for staging is that of the first entry a
search finds, which is right exactly for lists of at most one entry (`StagingProtocol.SearchNeedsShortList`), and no
reachable list is longer (`StagingProtocol.EveryInterleavingOrderly`).

Where code and comments differ the code is modelled: src/stage.c:71-85 says that the identifier index takes the most
significant bits of a table word, and the code uses the least significant ones.

## Model

| member | source | states |
|---|---|---|
| Datasets.ProtectedVariables.Protect | src/api.c:686-799 | A protected id gets its new size in place, a new id takes the next index while there is room; the call fails, without change, exactly when the table is full and the id is new |
| Datasets.ProtectKeepsIds | src/api.c:686-799 | Protecting keeps all ids distinct and at their index, and afterwards the id has the requested size whenever there was room |
| BlockList.FileLayout.UpdateDatastruct | src/ftiff.c:503-852 | The walk over blocks and variables, with its overflow, validity and container tallies, leaves exactly the block list of the specification for the present sizes; an empty set of variables changes nothing |
| BlockList.FirstBlock | src/ftiff.c:530-587 | The first call makes one block with one full container per variable, placed one behind the other after the metadata |
| BlockList.FillContainer | src/ftiff.c:668-723 | A container of a still valid variable gets its share of the remaining bytes; its hash array is created, shrunk, grown or left alone so that it fits the new chunk |
| BlockList.AdjustChunk | src/ftiff.c:644-726 | One container: its variable is found by id, the four tallies advance, and only the chunk of this container changes |
| BlockList.AdjustBlock | src/ftiff.c:642-732 | All containers of one block are adjusted while the tallies carry on from the blocks before it |
| BlockList.FlagVariables | src/ftiff.c:735-747 | New variables and those with bytes left are flagged, no others, and the count of flags is right |
| BlockList.AppendBlock | src/ftiff.c:749-835 | The new block has one container for each flagged variable, in index order, behind everything in the file |
| BlockList.AppendToList | src/ftiff.c:596-837 | All existing blocks are adjusted and at most one block is appended |
| LayoutInvariants.UpdateKeepsLayout | src/ftiff.c:503-852 | If a list is in order for the old sizes, the updated list is in order for the new ones: chunks continue each other, every variable fits, blocks follow each other without a gap; and the update only appends: no offset, container size, id or block size already in the list changes |
| LayoutTheorems.ChunksTileVariables | src/ftiff.c:668-723 | After any update every byte of every variable lies in exactly one non-empty chunk |
| LayoutTheorems.FullBeforeNext | src/ftiff.c:668-722 | A chunk is non-empty only if all earlier containers of the variable are full |
| LayoutTheorems.ChunksStayInside | src/ftiff.c:668-722 | No chunk reaches past the end of its variable |
| LayoutTheorems.ContainersApart | src/ftiff.c:558-576 | No two containers of the file share a byte |
| LayoutTheorems.ContainerClearOfMetadata | src/ftiff.c:749-797 | No container shares a byte with the file metadata or with the metadata of any block |
| LayoutTheorems.HeadsApart | src/ftiff.c:727-750 | The metadata of two blocks never meet |
| LayoutTheorems.NothingMoves | src/ftiff.c:503-852 | Over any sequence of size changes and new variables no container moves or changes its size and no block changes its size |
| VariableOrder.UpdateKeepsOrder | src/ftiff.c:735-810 | If variables first appear in the file in index order, they still do after an update |
| VariableOrder.RunKeepsOrder | src/ftiff.c:735-810 | In every run the first containers of the variables appear in the file in index order, which recovery by index relies on |
| BlockHashes.CalcNumHashes | src/diff-checkpoint.c:472-479 | The quotient, plus one for a remainder, is the number of blocks |
| BlockHashes.NumHashesUnique | src/diff-checkpoint.c:472-479 | The number of blocks is the only one with which the blocks cover the chunk and each holds a byte of it |
| BlockHashes.NumHashesCovers | src/diff-checkpoint.c:472-479 | The blocks cover the chunk, the last one holds at least one byte, and only the empty chunk has none |
| BlockHashes.InitBlockHashArray | src/diff-checkpoint.c:242-280 | The loop makes one invalid entry per block, whose sizes tile the chunk |
| BlockHashes.CollapseBlockHashArray | src/diff-checkpoint.c:295-372 | The loop over the shrunken chunk yields the specified array |
| BlockHashes.CollapseIsExact | src/diff-checkpoint.c:295-372 | After shrinking the entries tile the chunk, and an entry is valid exactly if it was valid and its block keeps its size; valid entries are unchanged |
| BlockHashes.ExpandBlockHashArray | src/diff-checkpoint.c:387-460 | The loop over the grown chunk yields the specified array |
| BlockHashes.ExpandIsConservative | src/diff-checkpoint.c:387-460 | After growing the entries tile the chunk, and exactly the valid entries before the old last one stay valid and unchanged |
| DirtyRuns.RunsAreExact | src/diff-checkpoint.c:622-685 | The runs of flagged blocks ascend, are separated by at least one clean block, contain flagged blocks only and cover all of them |
| DirtyRuns.HashCmp | src/diff-checkpoint.c:497-537 | The comparison reports clean, dirty-or-invalid, or past the end, and marks exactly this block; no hash or validity changes |
| DirtyRuns.DataChunkIterator.ReceiveDataChunk | src/diff-checkpoint.c:622-685 | Each call returns the next run of the chunk as offset and size, and after the last one reports the end and is ready for another chunk; without differential checkpointing the whole chunk is returned once |
| DirtyRuns.SkipClean | src/diff-checkpoint.c:649-654 | The first inner loop stops at the next block to write, or past the last |
| DirtyRuns.TakeDirty | src/diff-checkpoint.c:662-672 | The second inner loop takes exactly the blocks up to the next clean one, with their sizes |
| DirtyRuns.UpdateDcpChanges | src/diff-checkpoint.c:550-602 | The pass over all chunks leaves every hash valid and equal to the hash of the present bytes, computing only those of dirty or invalid blocks |
| DirtyRuns.CheckedIsMarked | src/diff-checkpoint.c:497-537 | After a whole chunk was iterated, the marks are those of the specification: dirty exactly where a valid hash differs |
| ChunkWriter.DirtyRunsSuffice | src/diff-checkpoint.c:497-685 | If every valid hash is that of its block in the file at the present size, the differential write leaves the whole chunk in its container if and only if no skipped block collides |
| ChunkWriter.ChangedBytesWritten | src/diff-checkpoint.c:622-685 | A byte of the chunk is replaced exactly if its block is invalid or changed |
| ChunkWriter.OtherBytesKept | src/ftiff.c:1161-1212 | Nothing outside the chunk is written |
| ChunkWriter.WriteBuffer | src/ftiff.c:1181-1207 | Writing in pieces of at most 16 MB equals one write of the buffer |
| ChunkWriter.WriteChunk | src/ftiff.c:1161-1212 | The loop over the iterator writes the flagged blocks of the chunk, or the whole chunk without differential checkpointing, and nothing else |
| CheckpointFile.HeadWritten | src/ftiff.c:984-1098 | After the metadata pass the head of every block that is marked for update is on file, and every other one is as it was |
| CheckpointFile.EntryWritten | src/ftiff.c:1020-1078 | After the metadata pass the metadata of every chunk that needs it is on file, whatever other writes were made |
| CheckpointFile.ContainersKept | src/ftiff.c:984-1098 | The metadata pass does not touch any container |
| DataPass.ChunksHeld | src/ftiff.c:1152-1233 | After the data pass over all blocks a container holds its chunk if and only if none of the skipped blocks of the chunk collides |
| DataPass.OnlyChangedBlocksWritten | src/ftiff.c:1152-1233 | The data pass changes only bytes of blocks that changed or had no valid hash |
| DataPass.OutsideContainers | src/ftiff.c:1152-1233 | A stretch of the file outside all containers is untouched by the data pass |
| CheckpointTheorems.ResizeKeepsCache | src/ftiff.c:668-723 | Resizing keeps the cache invariant: a valid hash is that of the block in the file at the present block size |
| CheckpointTheorems.ChunkInContainer | src/ftiff.c:896-1244 | After a whole checkpoint a chunk is in its container if and only if none of its skipped blocks collides |
| CheckpointTheorems.CheckpointSaves | src/ftiff.c:896-1244 | Whatever blocks and metadata one checkpoint skips, the file afterwards has the metadata of every block and chunk and, in every container, the bytes in memory |
| CheckpointRuns.RefreshedAgrees | src/diff-checkpoint.c:550-602 | After the refresh every valid hash is the hash of its block in the file: the cache invariant is restored |
| CheckpointRuns.SavedIsReady | src/api.c:1139-1156 | The state after a differential checkpoint satisfies everything the next one on the same file relies on |
| CheckpointRuns.RunInvariant | src/ftiff.c:896-1244 | The layout, the cache invariant and the record of what is on file hold before every checkpoint of every run |
| CheckpointRuns.EveryCheckpointComplete | src/ftiff.c:896-1244 | In every run of content changes, resizes and new variables, all checkpoints differential or none, the file after each checkpoint holds all of memory and its metadata, although only changed blocks were written |
| CheckpointRuns.EveryByteOnFile | src/ftiff.c:896-1244 | Any byte of any variable at any checkpoint of a run is in the file at the place the block list gives |
| CheckpointFlags.AlwaysSettled | src/api.c:1139-1158 | After every differential checkpoint of every run each chunk counts as written, is no more marked for update and has a valid hash of its present bytes for each block; of the blocks only the first is no more marked |
| CheckpointFlags.MetadataExact | src/ftiff.c:984-1098 | A checkpoint writes the metadata of a chunk, with all its fields and the hash of its present bytes, exactly if it is marked, has no content or has other bytes than its hash says; otherwise they stay as they were |
| CheckpointFlags.RoomIsExact | src/ftiff.c:735-835 | After an update the containers of a variable hold as many bytes as before or as it has now, whichever is more, and it gets one container more exactly if it has outgrown them |
| Checkpointer.WriteMetadata | src/ftiff.c:984-1098 | The pass over blocks and chunks, with its offset arithmetic, writes exactly the metadata that needs writing, returns the updated marks and ends at the end of the last block |
| Checkpointer.WriteData | src/ftiff.c:1152-1233 | The pass over all chunks writes what the specification of the data pass writes and marks the blocks it looked at |
| Checkpointer.FinishBlocks | src/api.c:1139-1156 | Only the first block is marked as written, all chunks are, and hashes are refreshed |
| Checkpointer.Process.Checkpoint | src/ftiff.c:896-1244 | One call of the writer, from layout update to hash refresh, takes the process to exactly the specified new state |
| Metadata.BytesRoundTrip | src/ftiff.c:2997-3183 | A number written in w bytes is read back if and only if it fits in w bytes |
| Metadata.SerializeFile | src/ftiff.c:3095-3126 | The copied fields are the byte layout of the file metadata |
| Metadata.FileRoundTrip | src/ftiff.c:2997-3126 | The file metadata read back is what was written, for all values that fit their machine types |
| Metadata.FilePositions | src/ftiff.c:3103-3116 | Checksum, hash, both sizes, partner and largest size and time stand at bytes 0, 33, 49, 57, 65, 73 and 81, the lowest byte of each number first |
| Metadata.SerializeBlock | src/ftiff.c:3128-3150 | The copied fields are the byte layout of the block metadata |
| Metadata.BlockRoundTrip | src/ftiff.c:3031-3150 | The same for the metadata of a block |
| Metadata.BlockPositions | src/ftiff.c:3136-3139 | The number of variables stands at byte 0, the size of the block at byte 4 |
| Metadata.SerializeChunk | src/ftiff.c:3152-3183 | The copied fields are the byte layout of the chunk metadata |
| Metadata.ChunkRoundTrip | src/ftiff.c:3055-3183 | The same for the metadata of a chunk |
| Metadata.ChunkPositions | src/ftiff.c:3159-3179 | Each of the ten fields of the metadata of a chunk stands at its byte, the lowest byte of each number first |
| FtiffRecovery.ReadDb | src/ftiff.c:75-317 | On a file that describes a block list, reading rebuilds this list and stops exactly at the recorded checkpoint size |
| FtiffRecovery.AddChunk | src/ftiff.c:258-276 | The search by id adds the chunk to its variable or starts a new variable behind the others |
| FtiffRecovery.SizesLineUp | src/ftiff.c:258-303 | The sizes added up while reading are those of the protected variables, at the same index |
| FtiffRecovery.Recover | src/ftiff.c:1349-1533 | Recovery succeeds exactly if the variables are those of the checkpoint and every chunk has its recorded hash; then memory holds the chunks of the file |
| FtiffRecovery.RecoveryRestores | src/ftiff.c:1349-1533 | From a saved file recovery finds matching sizes and intact chunks and restores every variable byte for byte |
| FtiffRecovery.SavedFileDescribes | src/ftiff.c:1256-1270 | After a checkpoint the file describes its own block list; what is read back of the file metadata has the size of the checkpoint in both size fields and every other field as given |
| FtiffRecovery.RunRestores | src/ftiff.c:75-317 | After any checkpoint of any run, the file is read back to the block list it was written with, its metadata record both sizes and are as given otherwise, and recovery returns every variable as it was |
| Gf16.GfIsField | deps/jerasure/src/gf_w16.c:2354-2354 | Carry-less multiplication modulo the polynomial 0x1100b with the norm-based inverse satisfies all field laws |
| LinearAlgebra.InvertMatrix | deps/jerasure/src/jerasure.c:382-467 | Gauss-Jordan elimination with row swaps returns a two-sided inverse of every regular matrix and fails exactly on the singular ones |
| LinearAlgebra.Pivot | deps/jerasure/src/jerasure.c:404-426 | A nonzero pivot is brought to the diagonal and scaled to one exactly if some row has one; the working pair still tracks the original matrix |
| LinearAlgebra.EliminateBelow | deps/jerasure/src/jerasure.c:428-448 | The column below the pivot is cleared and the rows still track the original matrix |
| LinearAlgebra.EliminateAbove | deps/jerasure/src/jerasure.c:453-465 | Back substitution clears the columns above the diagonal |
| LinearAlgebra.MissingPivotGivesKernel | deps/jerasure/src/jerasure.c:404-406 | A column without a pivot yields a nonzero vector that the matrix maps to zero |
| Cauchy.CauchyRegular | src/postckpt.c:318-324 | A square system with coefficients 1/(a + b), for pairwise distinct points, has only the zero solution |
| Survivors.SurvivorMatrixRegular | src/postreco.c:78-108 | For every group size and every choice of k survivors among 2k files, the matrix of unit and coding rows the decoder builds is regular |
| Arithmetic.PaddedSize | src/postckpt.c:329-332 | The rounded size is a whole number of blocks, covers the size, and one block less does not |
| RingEncoding.RingSumIsDot | src/postckpt.c:366-406 | Adding the blocks in the order in which they arrive at any rank gives the full row product |
| RingEncoding.ExchangePairsUp | src/postckpt.c:377-383 | In step cnt rank s sends to rank r exactly if r receives from s in that step |
| RingEncoding.EveryBlockArrivesOnce | src/postckpt.c:366-405 | In the steps of one block a rank gets the block of every rank, and of each once |
| RingEncoding.Contribute | src/postckpt.c:385-401 | The loop over the words of a block copies, adds, or multiplies and adds, by factor and first-contribution flag; the sum is right in all cases |
| RingCode.Encoder.FillBlock | src/postckpt.c:341-371 | Reading a block, short if it is the last, and copying it to the first half takes the rank to the specified state |
| RingCode.Encoder.PostBoth | src/postckpt.c:377-383 | Except in the last step, one send of the own block and one receive into the other half are posted, to and from the specified ranks |
| RingCode.Encoder.Arrive | src/postckpt.c:382-382 | A message is written to the half that was named when the receive was posted |
| RingCode.Encoder.MultiplyOne | src/postckpt.c:385-405 | The current half is multiplied into the coding words and the halves are swapped |
| RingCode.Encoder.WriteBlock | src/postckpt.c:408-414 | The coding words of the block are appended to the encoded file |
| RingSteps.FillKeeps | src/postckpt.c:340-371 | A new block may be started while other ranks still encode the last one: the invariant of the rank holds again |
| RingSteps.PostKeeps | src/postckpt.c:377-383 | After posting, the receive is for the block that the next step multiplies, into the half that is not read |
| RingSteps.MultiplyKeeps | src/postckpt.c:385-405 | Whether or not the next block has arrived in the other half, the coding words are the sum of the blocks so far |
| RingSteps.ArrivedKeeps | src/postckpt.c:372-383 | An arriving block does not touch the half that is being multiplied, and is the one the next step needs |
| RingSteps.WriteKeeps | src/postckpt.c:408-413 | What is written for a block is the slice of the row product of the whole files |
| RingRuns.MatchedToBlock | src/postckpt.c:377-383 | A message that a receive gets is always the block of its sender that the receiver is encoding |
| RingRuns.StepKeepsInv | src/postckpt.c:340-414 | Every step of any rank and every delivery keeps the invariant of the group: channels hold the blocks sent and not received, in order |
| RingRuns.EveryRankEncodes | src/postckpt.c:328-414 | In every interleaving of ranks and deliveries, without any barrier between blocks, a rank that is done has written exactly the row product of the padded files |
| RingRuns.NothingLeft | src/postckpt.c:340-414 | When all ranks are done no message is left over |
| RingProgress.NeverStuck | src/postckpt.c:367-383 | As long as a rank is not done some step is possible, even if no message is buffered and every send waits for its receive |
| RingProgress.SendBufferUntouched | src/postckpt.c:372-381 | If every send waits for its receive, what was sent and not received is still unchanged in the send buffer |
| RingProgress.EveryRunEnds | src/postckpt.c:340-414 | No run of the group is longer than a bound computed from group size, file size and block size |
| GroupRecovery.ChooseSurvivors | src/postreco.c:88-94 | The search takes the first k surviving indices and stays within the 2k flags |
| GroupRecovery.DotProduct | deps/jerasure/src/jerasure.c:583-642 | The two passes, unit factors first, compute the row product over the given sources |
| GroupRecovery.Decode | src/postreco.c:207-315 | The block loop restores the data and coding words of all lost files from any k survivors and leaves the others alone |
| GroupRecovery.SourceColumn | src/postreco.c:95-108 | What the survivors hold is the survivor matrix applied to the original data |
| Level3.RecoverL3 | src/postreco.c:778-836 | Recovery succeeds if and only if at most k of the 2k files are lost, and then all 2k files are byte for byte the originals; otherwise nothing is changed |
| Level3.RecoverL3Gf16 | src/postreco.c:778-836 | The same with the concrete field of 2^16 elements that the library uses |
| Level3.TruncateUndoesPadding | src/postreco.c:409-409 | Truncating the decoded file to its recorded size undoes the padding |
| Level3.CountErasures | src/postreco.c:807-818 | The loop over both halves counts the lost files |
| Level3.RSencDelivers | src/postckpt.c:256-414 | In every run of the exchange the encoded file of a rank that is done is its row of the code of the group, byte for byte, and truncation undoes the padding of the checkpoint file |
| Level3.RSencEnds | src/postckpt.c:328-414 | Every run of the exchange is bounded and can go on until all ranks are done, buffered or not |
| Level3.RSencStarts | src/postckpt.c:312-340 | The exchange can start with anything in its buffers |
| Level3Code.FieldIsStandard | deps/jerasure/src/gf_w16.c:2354-2354 | Sums are bitwise, 1 is the unit, and doubling reduces by 0x1100b, which fixes all products |
| Level3Code.EntryIsInverse | src/postckpt.c:318-324 | Entry (i, j) of the encoding matrix is the inverse of i xor (k + j) |
| Level3Code.PointOfBits | src/postckpt.c:318-324 | The word of a number has its binary digits |
| Level3Code.WordOfBytes | src/postckpt.c:385-399 | A word of a file is its low byte plus 256 times its high byte |
| Rendezvous.StepKeepsGood | src/postckpt.c:76-177 | With synchronous sends every step keeps the two ends of every message in step and every file an exact prefix of what it is meant to hold |
| Rendezvous.NeverStuck | src/postckpt.c:76-239 | If the operations of all processes can be timed so that matching ends meet and each program ascends, some step is possible until all are done |
| Rendezvous.EveryRunDelivers | src/postckpt.c:76-239 | In a well-timed system every run is finite, extends to completion, and then every received file equals the file sent |
| BlockTransfers.SendFile | src/postckpt.c:76-120 | The send loop sends the file block by block, the last one short |
| BlockTransfers.RecvFile | src/postckpt.c:137-177 | The receive loop receives as many blocks of the same sizes |
| PartnerRing.PartnerCopiesExact | src/postckpt.c:194-239 | With fully synchronous sends no run of the exchange gets stuck, and at the end every rank holds an exact copy of each file of its left neighbour |
| PartnerRing.Ptner | src/postckpt.c:194-239 | Odd ranks send first and even ranks receive first, for every process of the node in turn |
| PartnerRing.SlotsFollowRank | src/postckpt.c:217-236 | For every ring size from two on, odd or even, the order of send and receive on each rank agrees with one common timing |
| PartnerRing.RingWellTimed | src/postckpt.c:194-239 | The whole partner exchange is well timed for every ring size from two on, any rounds and any file sizes |
| PartnerRing.RingOfOneStuck | src/postckpt.c:194-239 | A ring of one process waits for itself for ever |
| PartnerRing.RingNeighbours | src/topo.c:355-356 | Left and right are inverse to each other |
| PartnerRecovery.RecoveryExact | src/postreco.c:623-761 | If no file is lost together with its copy, recovery never gets stuck and afterwards every checkpoint and every partner copy equals the original |
| PartnerRecovery.Decide | src/postreco.c:669-697 | The counting and voting decide as specified |
| PartnerRecovery.VotesAgree | src/postreco.c:682-697 | The vote of all ranks is good if and only if no file is lost together with its copy |
| PartnerRecovery.RecoverL2 | src/postreco.c:700-758 | The two phases with their odd and even orders perform the specified transfers |
| PartnerRecovery.BackSlotsFollowRank | src/postreco.c:700-758 | The reverse transfers agree with one common timing for every ring size |
| StageFields.StatusFieldLaws | src/stage.c:1102-1202 | Setting a field of the status byte is read back, leaves the other field and all free bits alone, refuses values out of range, and the two setters commute |
| StageFields.TableFieldLaws | src/stage.c:997-1089 | The same for the two fields of a table word |
| StageTable.RequestTable.InitStageRequestApp | src/stage.c:322-354 | A request for a free ID is appended and indexed; the table stays a bijection |
| StageTable.RequestTable.FreeStageRequest | src/stage.c:421-488 | The request of an ID is removed, the others keep their order, and all indices are right again |
| StageTable.RequestTable.Reindex | src/stage.c:480-485 | The loop corrects the index of every request behind the gap |
| StageTable.RequestTable.GetRequestIdx | src/stage.c:558-566 | An ID is found exactly if it has a request, at the position of the request |
| StagingProtocol.StepKeepsInv | src/stage.c:753-987 | Every single step of either process, with reads and writes of the status byte split, keeps the protocol invariant |
| StagingProtocol.EveryInterleavingOrderly | src/stage.c:798-987 | In every interleaving no update of a status byte is lost; an ID is issued only when free, then activated once and ended once; it is told to be pending exactly between issue and activation and active exactly between activation and end; its end is told once, and then it counts as not initialized; the head list has at most one entry |
| StagingProtocol.NewIdIsFree | src/stage.c:1212-1239 | A newly issued ID has no request in flight, none in the table, and its previous end was reported |
| StagingProtocol.FindAvailable | src/stage.c:1227-1235 | The loop returns the least ID that is available, and -1 exactly if there is none |
| StagingProtocol.SearchNeedsShortList | src/stage.c:490-503 | The list search that looks at the first entry only is right for every ID if and only if the list has at most one entry |
| StagingProtocol.FreedIsWithout | src/stage.c:421-488 | Removing by ID in the protocol is the removal of the request table |
| StagingProtocol.RunKeepsInv | src/api.c:490-601 | The invariant holds in every state of every run |
| StagingTheorems.EveryLookIsAnswered | src/api.c:490-530 | In every interleaving every look at a status is answered by the state of the request: not initialized, pending, active, or its end, which is told when the ID is released; no step forges an event |
| StagingTheorems.RequestKept | src/api.c:504-523 | A request stays in the table from its issue until a look at its status that finds its message sent or the request no longer pending |
| StagingTheorems.NewIdIff | src/stage.c:1222-1237 | Between two calls a new request gets an ID if and only if some ID is not in use; IDs never issued go first, in order, and after that it is the least one not in use |
| StagingTheorems.CallsEnd | src/api.c:551-601 | Every call of the application goes on to its end by its own steps, at most six, whatever the head does; every step of the head reduces its work |
| StagingTheorems.EveryRequestEnds | src/stage.c:798-987 | From every reachable state the head alone can end every request that was issued |
| HeadCalls.CheckpointLevel | src/checkpoint.c:475-496 | Counting the tokens by kind yields 6 if any process rejects, the common level if all agree, and the old level otherwise |
| HeadCalls.Application.Collect | src/api.c:1120-1130 | The blocking receive updates the last level exactly if post-processing succeeded |
| HeadCalls.Application.Checkpoint | src/api.c:1133-1192 | The fields and the token sent after the write are those of the protocol step, inline or offline, success or failure |
| HeadCalls.Application.Postprocess | src/api.c:1194-1197 | After inline post-processing the last level changes exactly if all processes succeeded |
| HeadInvariant.AppStepKeeps | src/api.c:1119-1199 | Every step of an application process keeps what is in its channels and what it has received in agreement with the plan of the run |
| HeadInvariant.AllAgree | src/checkpoint.c:226-231 | With FTI-FF every process of every node takes the same for the result of a write: that all files are written |
| HeadSteps.HeadStepKeeps | src/checkpoint.c:384-560 | Every step of a head keeps its node in agreement with the plan of the run |
| HeadSteps.StepKeepsInv | src/checkpoint.c:384-560 | Every step of any process or head keeps the invariant of the whole system |
| HeadSteps.LevelFits | src/checkpoint.c:482-496 | The tokens of one round always determine its level, or a reject |
| HeadSteps.AllForWrote | src/checkpoint.c:535-545 | When the heads have all voted, the sum of their votes says whether every process of every node wrote its file |
| HeadTheorems.EveryResultOnce | src/api.c:1119-1199 | In every interleaving a process has, before its next request or end token, received the result of each of its earlier offline checkpoints exactly once and in order, none is under way, and its last level is that of the latest checkpoint whose post-processing succeeded |
| HeadTheorems.RequestsNotMixed | src/checkpoint.c:471-496 | In every handled round a head has read one request from each process, all of the same checkpoint, and reports the result of that checkpoint |
| HeadTheorems.PostOnlyIfAllWrote | src/checkpoint.c:535-550 | A head post-processes only if every process of every node has written its file |
| HeadTheorems.StoppedIsDone | src/checkpoint.c:425-457 | A head that stops has handled every offline checkpoint and received one end token per process, the average test succeeds, and no message is left |
| HeadTheorems.InfosOfTheirRound | src/checkpoint.c:498-521 | With FTI-FF, in every handled round that is not rejected the head has read one file information from each process, all of the checkpoint of this round |
| HeadTheorems.DcpAgreed | src/checkpoint.c:504-542 | The processes of a node ask for a differential checkpoint all together or not at all, so a head never rejects a round because they disagree |
| HeadOutcomes.LevelsShown | src/api.c:1119-1199 | In every state of every run the level of the latest call and that of the latest success are those that the calls made so far decide |
| HeadOutcomes.ShownIs | src/api.c:1133-1193 | The level shown is that of the latest call that was written, or 6 if a later inline call failed; a failed call for the heads leaves it as it was |
| HeadOutcomes.LatestIs | src/api.c:1120-1197 | The last level is that of the latest call whose post-processing succeeded |
| HeadOutcomes.SucceededIff | src/checkpoint.c:294-301 | A call succeeds if and only if all files and, except with FTI-FF, all metadata were written, and all processes or all heads post-processed it |
| HeadOutcomes.RoundsAreOfflineCalls | src/api.c:1160-1167 | The rounds of the heads are exactly the calls of levels that are not inline, in order |
| HeadOutcomes.RoundOutcome | src/checkpoint.c:471-558 | In every handled round the tokens are 990 plus the level, or 996 from a process that could not write; the level is that of the call, or 6; and the result is the level if everything succeeded and -1 otherwise |
| HeadOutcomes.PostAtLevel | src/checkpoint.c:545-549 | A head post-processes at the level of the call, when all files and metadata were written |
| HeadOutcomes.AlwaysTogether | src/checkpoint.c:226-231 | In every reachable state no process is past a write, or past inline post-processing, that some other process has not come to |
| HeadOutcomes.WroteByCodes | src/checkpoint.c:226-231 | The write is good for a process if and only if the sum of all return codes is 0 and, except with FTI-FF, its own metadata were created |
| HeadOutcomes.InlineByCodes | src/checkpoint.c:294-301 | Inline post-processing succeeds if and only if the sum of all return codes is 0 |
| HeadOutcomes.HeadsByCodes | src/checkpoint.c:543-545 | The heads go on if and only if the sum of their return codes is 0 |
| HeadProgress.NeverStuck | src/checkpoint.c:384-560 | In every reachable state in which some head has not stopped some step is possible, even if no message is buffered and every send waits for its receive |
| HeadProgress.HeadAdvances | src/checkpoint.c:384-560 | Every step of a head ends a round or advances within it |
| HeadProgress.AppAdvances | src/api.c:1119-1199 | Every step of a process advances towards a fixed end |
| HeadRuns.EveryRunEnds | src/checkpoint.c:384-560 | Every run is bounded and can be continued until all heads have stopped, without buffering any further message |
| HeadRuns.RunsUnbuffered | src/checkpoint.c:384-560 | The whole protocol can be run without any buffering; then every head has handled every offline checkpoint, every process has ended, and no message is left |
| Multilevel.StepKeepsOrder | src/checkpoint.c:295-356 | Every removal, rename, stop, node loss and clean-up keeps the order of levels |
| Multilevel.AlwaysOrdered | src/checkpoint.c:295-356 | In every reachable state, also between any two removals or renames, a lower existing level holds a newer checkpoint than a higher one |
| Multilevel.InterleavingIrrelevant | src/checkpoint.c:321-356 | The final directories do not depend on how the processes interleave |
| Multilevel.CleansUpTo | src/tools.c:798-841 | A clean-up removes the metadata and local directories of exactly the levels up to its own, and the global files for levels 4 and 5 only |
| Restart.Directories.Clean | src/tools.c:798-841 | The conditional removals of one process leave exactly the specified directories |
| Restart.CompletedReplacement | src/checkpoint.c:321-356 | When all processes are done the new checkpoint is that of its level on every node, lower levels are gone and higher ones as before |
| Restart.HigherLevelsSurvive | src/checkpoint.c:321-356 | A stop at any point of a replacement leaves the files and metadata of all higher levels as they were |
| Restart.Recovery.RecoverFiles | src/recover.c:170-281 | The ascending loop stops at the lowest existing level that recovers and sets the three fields, and fails exactly if there is none |
| Restart.FirstIsNewest | src/recover.c:181-268 | In every reachable state, with the files that the directories then hold, the first level that can be recovered has the newest checkpoint of all that can |
| Restart.CompletedWorks | src/checkpoint.c:321-356 | A completed replacement can be recovered at its level |
| Restart.StopLeaves | src/checkpoint.c:321-356 | A stop at any point leaves every higher level as recoverable as before; between the last removal and the last rename of metadata nothing at or below the level of the call can be recovered |
| Restart.SavedConsistentIff | src/api.c:2073-2097 | When the last checkpoint is kept, its files and its metadata belong together if and only if there was a success, its files are on all nodes, and the latest call was of its level; without a success level 0 is flushed, and nothing names what it holds |
| Restart.NothingToKeep | src/api.c:2073-2083 | Without a success and with the temporary directories clean nothing is kept, and the old level 4 files are gone |
| Restart.NothingIsFlushed | src/api.c:2073-2083 | Where no temporary directory is left, as after a failed call, a flush of level 0 finds nothing |
| Restart.SavedOrderedIff | src/api.c:2073-2100 | Between keeping the last checkpoint and cleaning, restart finds the newest first if and only if no level in between exists |
| Restart.FailOne | src/checkpoint.c:295-301 | A call whose write or post-processing fails, run to its end, leaves every level and the level of the latest success as they were, and records its own level when it was written |
| Restart.OlderFoundFirst | src/api.c:2073-2100 | A reachable instance: level 3, then level 1, then keeping the last checkpoint; the older level 3 comes before the newer level 4 |
| Restart.KeptWithoutMetadata | src/api.c:2089-2097 | A reachable instance: level 2, then a level 3 call whose encoding fails; the level 2 files are kept and have no metadata |
| RestartSteps.CompletedCleanUp | src/tools.c:798-841 | A clean-up run to its end by all processes, in any interleaving, removes exactly the directories of the levels up to its own |
| RestartSteps.LastLevelIs | src/api.c:1119-1199 | In every state of every run the level of the latest success is that of the latest checkpoint or recovery, and 0 after a restart |
| RestartSteps.LevelIs | src/api.c:1133-1199 | In every state of every run the level of the latest call is that of the latest one that was written, or 6 after an inline one that was not |
| RestartLevels.RightOfIsRight | src/topo.c:355-356 | The neighbour that level 2 relies on is the right one in the ring of the group |
| RestartLevels.ErasuresOfNodes | src/postreco.c:807-818 | Every lost node of a group counts as two lost files, one checkpoint and one encoded file |
| Slots.SetRefinesMap | deps/iniparser/dictionary.c:221-276 | Setting a key is a map update, keys stay unique, and the count grows exactly for new keys, whatever gaps removals left |
| Slots.UnsetRefinesMap | deps/iniparser/dictionary.c:288-323 | Removing a key removes it from the map and nothing else |
| Slots.RoomIsFree | deps/iniparser/dictionary.c:248-270 | The insertion loop always finds a free slot |
| Slots.SetKeepsOrder | deps/iniparser/dictionary.c:221-276 | Without removals slots keep the order of first insertion |
| Dictionary.Dictionary.Get | deps/iniparser/dictionary.c:175-194 | The lookup by hash and string is the lookup in the map |
| Dictionary.Dictionary.Set | deps/iniparser/dictionary.c:221-276 | Search, growth and wrapping insertion perform exactly the specified change of slots, which is a map update |
| Dictionary.Dictionary.Unset | deps/iniparser/dictionary.c:288-323 | The removal performs exactly the specified change of slots |
| Dictionary.Dictionary.FreeIndex | deps/iniparser/dictionary.c:262-267 | The wrapping search terminates at the first free slot from n on |
| Dictionary.Dictionary.Grow | deps/iniparser/dictionary.c:248-261 | Doubling keeps all entries in their slots |
| IniFile.Dump | deps/iniparser/iniparser.c:206-268 | The loops print exactly the lines of the specification, section by section in slot order |
| IniFile.Load | deps/iniparser/iniparser.c:655-756 | Reading fills the slots from the front with the entries of the specification |
| IniOrder.PrintedThenRead | deps/iniparser/iniparser.c:206-268 | Whatever the slots held, each section comes back once, followed by its keys in slot order |
| IniOrder.PlainThenRead | deps/iniparser/iniparser.c:214-223 | Without any section every key is printed with its value, and comes back once, in order, under a section without a name |
| IniOrder.OrderKeptIffGrouped | deps/iniparser/iniparser.c:655-756 | Printing and reading back is the identity if and only if every key with a value follows its own section |
| Decimals.NumberRoundTrip | src/meta.c:516-516 | Scanning a printed number gives the number |
| CkptMetaData.WriteCkptMetaData | src/meta.c:564-638 | The file becomes the printed form of the old entries with the six entries of the checkpoint set |
| CkptMetaData.LoadCkptMetaData | src/meta.c:486-545 | Loading reports what the section six slots before the end says, and fails on short or incomplete files |
| CkptHistory.FileHoldsRecords | src/meta.c:564-638 | After any history of writes the file has one record per id, in the order of first writes, each as last written |
| CkptHistory.LastFreshIsFound | src/meta.c:512-516 | Loading reports the id that was most recently written for the first time, with what was last written for it |
| CkptHistory.LastWriteFoundIff | src/meta.c:512-516 | The last write is reported if and only if its id is the one most recently written for the first time |
| CkptHistory.GrowingIdsFound | src/meta.c:512-516 | With ids that only grow the last checkpoint is always reported |
| CkptHistory.ReusedIdIsNotFound | src/meta.c:512-516 | Writing an older id again after a newer one leaves the newer one reported |
| CkptContents.DecimalIsPlain | src/meta.c:608-608 | Numbers are written in decimal, highest digit first and without leading zeros |
| CkptContents.FileSays | src/meta.c:600-619 | After any history the entries of the file are exactly, for the latest write of each id, the section and under it timestamp, level, nb_procs, io_mode and is_dcp with the texts of the fields of those names; each key stands once |
| CkptContents.LastWriteSays | src/meta.c:600-619 | The six entries of the checkpoint just written are in the file |
| CkptContents.OthersKept | src/meta.c:564-638 | A write leaves every entry of every other checkpoint as it was |
| Md5Functions.ChooseIsRfc | deps/md5/md5.c:51-55 | The rewritten F and G equal those of section 3.4 of RFC 1321 |
| Md5Functions.MixIsRfc | deps/md5/md5.c:51-55 | In each of the 64 steps the function used is the one the standard prescribes |
| Md5Rounds.WordsFollowRules | deps/md5/md5.c:119-197 | The words listed for the 64 steps follow the index rules of the four rounds |
| Md5Rounds.Transform | deps/md5/md5.c:100-205 | The unrolled rounds on one block compute the block function of the standard |
| Md5Numbers.StepOnNumbers | deps/md5/md5.c:60-63 | One step on numbers, by section 3.4 of RFC 1321: a becomes b + ((a + f + x + t) <<< s) modulo 2^32, the shift given by multiplication and division; the other registers change places |
| Md5Numbers.RoundsOnNumbers | deps/md5/md5.c:119-197 | The same for each of the 64 steps, with its word, constant and shift |
| Md5Numbers.BlockOnNumbers | deps/md5/md5.c:191-194 | After a block each register is added to its saved value modulo 2^32 |
| Md5Vectors.EmptyDigest | deps/md5/md5.c:291-315 | The digest of the empty message is d41d8cd98f00b204e9800998ecf8427e, as in section A.5 of RFC 1321 |
| Md5Vectors.AbcDigest | deps/md5/md5.c:291-315 | The digest of "abc" is 900150983cd24fb0d6963f7d28e17f72, as in section A.5 of RFC 1321 |
| Md5.Body | deps/md5/md5.c:100-205 | The body processes all whole blocks of its input |
| Md5.Context.AddToCount | deps/md5/md5.c:223-226 | The two counters are updated with the carry right for every size |
| Md5.Context.Update | deps/md5/md5.c:218-256 | An update appends its data to the message the context stands for, in all cases of partial blocks |
| Md5.Context.Final | deps/md5/md5.c:258-289 | Finishing returns the digest of the padded message and clears the context |
| Md5.BitLength | deps/md5/md5.c:277-279 | The counters give the length in bits modulo 2 to the 64 |
| Md5.CountersAdd | deps/md5/md5.c:223-226 | hi * 2^29 + lo stays the byte count modulo 2^61 |
| Md5.PaddedSplits | deps/md5/md5.c:262-281 | The padded message of sections 3.1 and 3.2 of RFC 1321 is the whole blocks of the message and a tail of one or two blocks |
| Md5.Md5OfPieces | deps/md5/md5.c:207-289 | However a message is split into updates, the digest is the one-shot digest of the concatenation |
| Md5.Md5Of | deps/md5/md5.c:291-315 | The one-shot function returns the digest of its message |
| NodeList.Nodes.BuildNodeList | src/topo.c:239-299 | The list is overrun if and only if there are more hosts than nodes; otherwise each rank fills the next slot of its host, and building succeeds if and only if every host has exactly as many ranks as a node has slots |
| NodeList.Nodes.Check | src/topo.c:286-294 | The search for an empty slot finds one exactly if some host has not as many ranks as a node has slots |
| NodeList.EveryRankOnce | src/topo.c:256-294 | In a complete list every rank has exactly one slot, on the node of its host |
| NodeList.FilledExactly | src/topo.c:286-294 | All slots can be filled if and only if every host has a node full of ranks |
| NodeList.WritesInRangeIff | src/topo.c:256-285 | Every rank is put on a node of the list if and only if there are no more hosts than nodes |
| NodeOrder.MatchNames | src/topo.c:169-185 | Every old host that is still there is matched with its present position, the others with none |
| NodeOrder.FillGaps | src/topo.c:189-203 | Every new host gets a position that no surviving host has, the result is a permutation, and the search never runs past the end |
| NodeOrder.ReorderNodes | src/topo.c:129-221 | Whole node rows are permuted so that every surviving host returns to its old position |
| Topology.PlaceIdentifies | src/topo.c:417-453 | Sector, slot in the node and rank in the group identify a process uniquely |
| Topology.GroupOnDistinctNodes | src/topo.c:425-453 | The members of a group sit in the same slot of pairwise different nodes, and a process finds itself at its group rank |
| Topology.SplitRankIsRank | src/postckpt.c:852-864 | The rank a head works out for a process is the real rank of the process among the application processes |
| Topology.ListUserProcs | src/topo.c:318-340 | The loop lists exactly the application processes in order |
| Topology.ComputeOffset | src/postckpt.c:872-877 | The loop adds up the sizes of all parts before the own one |
| Topology.PartsTileSharedFile | src/postckpt.c:872-877 | Every byte of the shared file belongs to the part of exactly one process |
| Topology.OwnPartReadBack | src/postreco.c:1072-1081 | After all parts are written every process reads back its own |

## Left out

- MPI, POSIX, CUDA, HDF5, SIONlib and Lustre: messages are steps on channels, files are byte sequences, directories hold the number of a checkpoint.
- Failing memory allocation, failing reads and writes, printing, path names, timing, fault injection, the incremental checkpoint interface, the Fortran interface and the examples.
- FTIFF_RecoverVar and the scans that look for FTI-FF files of level 1 to 4 before recovery, including the exchange of file existence at level 2.
- Runs that mix differential and full checkpoints, and a differential checkpoint after a failed write: the source does not keep its cache right there.
- CheckpointRuns.EveryCheckpointComplete: assumes for each checkpoint that no hash of a skipped block collides; ChunkWriter.DirtyRunsSuffice shows that this is exactly what is needed.
- CheckpointFile.EntryWritten: the hash of a chunk without content is read uninitialised in the source; here such metadata is always rewritten and its hash is unspecified.
- Checkpointer.Process.Checkpoint: checksum, hash, time and group sizes of the file metadata are arguments; computing and checking them is not modelled.
- FtiffRecovery.RunRestores: assumes that every number of the metadata fits its machine type; Metadata.BytesRoundTrip says when one does.
- BlockHashes.CalcNumHashes: the 16-bit type of the differential block size is not modelled.
- DirtyRuns.HashCmp: the two digest modes are one arbitrary hash function.
- Level3.RecoverL3: the largest file size of a group has to be even and block sizes are counted in 16-bit words, which src/tools.c:66-68 asks for; erasures are given, finding them is not modelled.
- GroupRecovery.ChooseSurvivors: the collective exchange of blocks is one step.
- RingRuns.EveryRankEncodes: the multiplication of a block is one step, so a delivery comes before or after it; it goes to the other half in any case.
- PartnerRecovery.RecoveryExact: the decision of the group is one collective step.
- StageTable.RequestTable.FreeStageRequest: the request array is a sequence that shrinks, so reallocation is not modelled; the table word is a number of 32 bits split by division.
- StagingProtocol.EveryInterleavingOrderly: one application process and its head, asynchronous staging only; a synchronous transfer that fails never gives its identifier back.
- HeadTheorems.EveryResultOnce: FTI_PostCkpt leaves its result unset for a rejected inline checkpoint; it is modelled as failure, which the caller intends.
- HeadProgress.NeverStuck: the collective calls of one write, with those that create the metadata, are one collective step, and so are those of one inline post-processing.
- HeadCalls.Application.Checkpoint: staging requests, which a head serves between two rounds, are modelled on their own.
- Restart.FirstIsNewest: a file is present or not; which losses a level makes up for follows the conditions proved for levels 2 and 3. Recovery of level 4 also puts copies into the directory of level 1, without metadata.
- Restart.StopLeaves: removal of one directory is one step.
- Restart.Recovery.RecoverFiles: the branch for FTI-FF, which tries levels without metadata files, is left out.
- Dictionary.Dictionary.Set: characters are taken modulo 256 in the hash, which only has to be a function of the key.
- IniFile.Load: lines are given as section and key lines; lower-casing, stripping, comments and continuation lines are not modelled.
- IniFile.Dump: printing a missing value without any section is undefined in the source and prints an empty value here.
- CkptMetaData.LoadCkptMetaData: numbers are unsigned decimals.
- NodeList.Nodes.BuildNodeList: the list is an array of nodes with slots; what the source does after it wrote outside of the list is not modelled, the method then returns `Overrun`.
- Topology.OwnPartReadBack: the parts are written one after the other.
- FTI_UpdateIterTime: wall-clock time and rounding have no exact specification.
