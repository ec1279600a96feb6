# A model of r7z

r7z reads and writes 7z archives. This project models the parts of it whose correctness is an argument
rather than a reading exercise, and proves that argument, in five groups of modules.

* **Folder graphs and decoder plans** (`Folder`, `FolderGraph`, `Dataflow`, `Chain`, `Bcj2`, `Sizes`,
  `ChannelSizes`, `CompleteSizes`, `LateSizes`, `Plan`, `CoderPlan`, `Compile`, `Methods`). A folder is a set of
  coders with numbered input and output streams, bind pairs and packed inputs. Coders are uninterpreted functions
  on byte sequences. A graph means the value of its final output in the one solution of its equations; compiled
  pipes are shown to compute it.
* **The header codec** (`Parsers`, `Digests`, `FolderCodec`, `Tables`, `PackInfo`, `StreamInfo`,
  `FilesInfo`, `Headers`, `CoderWriter`, `HeaderWriter`, `EncodedHeader` and the `...RoundTrip` files). The
  parser that builds tables, the scanner that only walks the bytes, the writer, and the header scan that
  can be suspended for external data.
* **Layout, cursor and read session** (`Layout`, `Preflight`, `PackedRanges`, `FileStreams`, `PlannedFolder`,
  `ReadSession`, `Session`). Flat tables are carved into folders and streams, a lazy cursor finds the stream of
  an entry, and a session keeps one live decoder and reports what it has verified.
* **Streaming transformers** (`Readers`, `ByteSwap`, `Cbc`, `Aes`, `Signature`), each shown to equal a
  whole-buffer function for any chunking.
* **Wildcards and volumes** (`Wildcard`, `Volumes`).

Loops and objects of the source are methods and classes here, proved against functions of the same
module; the properties are lemmas about those functions. External codecs, CRC-32 and the AES block
function are parameters. Readers and sinks may read short or fail at any call, and count their failures,
so that a method can say that it fails only when one of its calls did.

Bytes are integers below 256, `u32` and `u64` are bounded integers, and every sum that the source checks is
checked. The target is taken to have 64-bit addresses. The format is the one of `7zFormat.txt` in the LZMA
SDK; the chaining mode is CBC, section 6.2 of NIST SP 800-38A.

## Where the code decides

Six facts about the code that its comments or the format description do not suggest. All are modelled as
the code has them.

* Substream digests cover every stream, not only those whose digest the folder does not already supply
  (`src/stream_info.rs:84-90`, `src/write/header.rs:204-208`).
* The FilesInfo scanner accepts more than the parser. A listing parses exactly when it scans, no file property is
  repeated, and each block that is looked into has the data its kind calls for (`ListingParses`);
  `ScannerAcceptsMore` gives an input.
* Resuming is sound but not complete: a header may be refused without external data and accepted from the start
  with it. It is accepted without exactly when each section up to the first that suspends has inline tables only,
  and that one comes after the additional streams (`ResolvableIffSupplied`). So three kinds of header fail: an
  external table behind an inline first one (only the first is asked, `src/stream_info.rs:244-246`), an external table
  in the additional streams, and a section that needs external data before there are additional streams.
  `OnlyTheFirstTableSuspends` gives a header of the first kind.
* The writer bounds neither the header nor its digest table, the reader bounds both. What is written reads back
  exactly when the header has at most 2^32 bytes and either no file CRC is present or there are at most 2^23
  substreams (`HeaderRoundTrip`, `IsReadable`).
* A BCJ2 channel is compiled forward only, so it knows less than the two-pass inference of a chain: a size is known
  exactly when the coders up to it force it (`KnownIffForcedSoFar`). What the whole channel forces stays unknown
  exactly when it is declared only further on, past coders that preserve sizes (`UnknownThoughForced`).
  `LateSizes` follows a folder from its coders through its compiled plan to such a size. It takes a table that leaves
  sizes out together with four packed streams, which only tests of `prepare_folder_decoder` (`src/codec.rs:253-267`)
  combine: its other caller passes one packed stream, and an archive folder gives every size, which leaves nothing
  unknown (`CompletePlanKnows`).
* A zero volume size ends the split early. `WriteVolumes` says exactly when (`StopsEarly`) and what has been
  written by then.

A folder that declares output but no stream never completes, whatever it decodes to; `ActiveFolder.Finish`
names this case (`Unstreamed`).

## Model

| member | source | states |
|---|---|---|
| `Folders.StreamOwnersFromCoders` | src/folder.rs:314-342 | owner tables are built exactly when every arity agrees with the registry and both stream totals stay within 16384 |
| `Folders.Bindings.Bind` | src/folder.rs:380-421 | a pair is accepted exactly when the pairs so far with it are still in range, cross-coder and without a repeated input or output; the flags, source, edge and indegree columns describe the pairs accepted |
| `Folders.Bindings.PackedInputs` | src/folder.rs:435-469 | explicit packed inputs are accepted exactly when they are the unbound inputs, each once; none are needed when there is one |
| `Folders.Bindings.ExecutionOrder` | src/folder.rs:471-497 | succeeds exactly when the bind relation has no cycle, and then gives every coder once with the source of each pair before its target |
| `Folders.StuckSortHasCycle` | src/folder.rs:492-496 | when the ready stack runs dry early the coders left over contain a closed walk of bind pairs |
| `FolderGraphs.LinkedCounts` | src/folder.rs:423-433 | with one pair fewer than outputs exactly one output stays unbound, and unbound inputs and pairs together number the inputs |
| `FolderGraphs.Graph` | src/folder.rs:579-593 | a folder resolves exactly when it is accepted (arities, pairs, packed inputs, acyclicity), and the graph then describes it |
| `Dataflow.EvaluationSolves` | src/folder.rs:471-497 | running coders in execution order solves the equations of the bind pairs |
| `Dataflow.SolutionIsEvaluation` | src/folder.rs:471-497 | every solution agrees with that run, so a graph has one meaning |
| `Dataflow.MeaningIsTheSolution` | src/folder.rs:471-497 | the meaning of a graph is the final output of any solution of its equations |
| `ChainPlans.ChainIsPath` | src/codec/plan.rs:131-136 | an accepted graph of single-stream coders is one Hamiltonian path that starts at the only packed input and ends at the final output |
| `ChainPlans.ChainComputesMeaning` | src/codec/plan.rs:502-507 | opening the steps in execution order over the one packed stream computes the meaning of the graph |
| `ChainPlans.WrittenChainAccepted` | src/write/header.rs:55-99 | a chain as the writer emits it is accepted, whatever its coders |
| `ChainPlans.WrittenChainOrder` | src/write/header.rs:94-97 | the execution order of a written chain is the order in which it was written |
| `Bcj2Plans.TraceChannel` | src/folder.rs:229-278 | the backward walk ends (the execution rank drops at each step) and finds the path that feeds an input, or the graph does not end in one merging coder over single-stream coders |
| `Bcj2Plans.ChannelsDisjoint` | src/folder.rs:209-216 | no coder stands in two channels or twice in one |
| `Bcj2Plans.EveryCoderInChannel` | src/folder.rs:217-222 | following outputs from any other coder ends in some channel |
| `Bcj2Plans.FourPackedStreams` | src/codec/plan.rs:350-355 | the four channels start at four packed streams, and there are no others |
| `Bcj2Plans.Layout` | src/folder.rs:175-227 | a layout is found exactly for one BCJ2 coder that owns the final output over single-stream coders; its channels split the other coders and its slots are all the packed streams |
| `Bcj2Plans.LayoutUnique` | src/folder.rs:175-227 | a graph has at most one layout |
| `Bcj2Plans.Bcj2ComputesMeaning` | src/codec/plan.rs:509-545 | merging the four piped channels computes the meaning of the graph |
| `OutputSizes.BackwardPass` | src/codec/plan.rs:279-299 | the backward pass fails only if the size equations have no solution or a coder needs a size that they do not force |
| `OutputSizes.ForwardPass` | src/codec/plan.rs:301-309 | the forward pass fails only if the equations have no solution |
| `OutputSizes.InferSizes` | src/codec/plan.rs:268-309 | both passes succeed exactly when declared, final and packed sizes have a common solution and every PPMd size is forced; a size is then known exactly when all solutions agree on it |
| `OutputSizes.AesTailHasFolderSize` | src/codec/plan.rs:461-479 | an AES step followed by length-preserving steps only has the declared folder size |
| `OutputSizes.EagerOutputSize` | src/codec/plan.rs:465-478 | the search from the last step back finds the step that is charged early |
| `ChannelSizes.CompileSteps` | src/codec/plan.rs:332-349 | one BCJ2 channel compiles exactly when its size equations have a solution and PPMd sizes are declared |
| `ChannelSizes.DeliveredIffForced` | src/codec/plan.rs:367-371 | the size a compiled channel delivers is known exactly when all solutions agree on it |
| `ChannelSizes.KnownIffForcedSoFar` | src/codec/plan.rs:334-348 | a size inside a compiled channel is known exactly when all solutions for the coders up to it agree on it |
| `ChannelSizes.UnknownThoughForced` | src/codec/plan.rs:334-348 | a forced size stays unknown exactly when a coder that does not preserve sizes is undeclared, and the size is declared only further on, past coders that do |
| `LateSizes.ForwardOnlyKnowsLess` | src/codec/plan.rs:343-346 | a BCJ2 folder that is accepted and compiles, within its working-set limit and from a partial table, to a plan that does not know a size which its main channel forces |
| `CompleteSizes.KnownSizesDecide` | src/codec/sizes.rs:36-47 | where every size is given, the equations have a solution exactly when each filter keeps the size, and every need is met |
| `CompleteSizes.NothingTooLate` | src/codec/plan.rs:334-348 | where every size is given no channel declares one too late, and each compiled step has the given size |
| `CompleteSizes.CompletePlanKnows` | src/codec/plan.rs:233-243 | a plan compiled from a complete table knows the size before and after each of its steps, chain or BCJ2 |
| `CompleteSizes.CompleteChainAccepted` | src/codec/plan.rs:268-321 | with a complete table a chain is accepted exactly when its filters keep the given sizes and its decoders are admitted |
| `CompleteSizes.CompleteChannelCompiles` | src/codec/plan.rs:332-349 | with a complete table a BCJ2 channel compiles exactly when its filters keep the given sizes |
| `ChannelSizes.SizeChannels` | src/codec/plan.rs:323-377 | the four channels size exactly when each compiles and the main, call and jump channels together deliver the declared folder size |
| `ChannelSizes.CompileBcj2` | src/codec/plan.rs:323-398 | a BCJ2 folder compiles exactly when its sizes do, its output is at most 256 MiB, and output, decoders and reader fit the working-set limits |
| `DecoderPlans.DecoderTopology` | src/codec/plan.rs:115-141 | a chain exactly for registered single-stream coders without BCJ2, BCJ2 exactly for one merging BCJ2 coder without properties, and then with its layout; an error otherwise |
| `DecoderPlans.CompileChain` | src/codec/plan.rs:268-321 | the chain of an accepted graph compiles exactly when its size equations have a solution, every PPMd size is forced and the working sets add up within the limit |
| `DecoderPlans.ChainEagerSize` | src/codec/plan.rs:461-479 | the last eager step of a compiled chain is its AES tail, with exactly the declared folder size; without one there is none |
| `DecoderPlans.Admit` | src/codec/plan.rs:310-315 | working sets are admitted exactly when each is known and their checked sum stays within the limit |
| `CoderPlans.Lzma2DictionaryAccepted` | src/codec.rs:85-115 | an LZMA2 dictionary is accepted exactly when one property byte announces it and is at most 32, which is 256 MiB |
| `CoderPlans.WrittenAesAccepted` | src/codec/plan.rs:697 | properties as the writer encodes them are accepted by the decoder plan, whatever cost, salt and vector |
| `CoderPlans.WorkingSetsFit` | src/codec/plan.rs:702-725 | each working set is bounded, so that the checked sum over the coders of a folder never overflows |
| `PlanCompilers.CompilePlan` | src/codec/plan.rs:244-266 | a folder compiles exactly when it has at most 64 coders, a size for each packed stream, and coders that form a chain or a BCJ2 arrangement which compiles; the steps of the plan are those that its sizes determine |
| `PlanCompilers.EagerIsFolderSize` | src/codec/plan.rs:461-479 | BCJ2 plans and chains with an AES tail report exactly the declared folder size for early charging, other plans nothing |
| `PlannedFolders.PlanFolder` | src/folder_decode.rs:283-300 | a laid-out folder is planned exactly when its sizes are complete and its plan compiles; the plan knows every size, and what is charged early is nothing or the very output size that the read session counts |
| `DecoderPlans.BoundInputs.Take` | src/codec/plan.rs:183-190 | a slot can be taken once; a second take or a missing slot fails and changes nothing |
| `DecoderPlans.BindBcj2` | src/codec/plan.rs:400-441 | once the packed sizes agree all four takes succeed, each channel with the reader of its own slot |
| `Parsers.DecodeEncode` | src/parsers.rs:49-102 | decoding an encoded integer gives it back and leaves the rest |
| `Parsers.EncodingIsMinimal` | src/parsers.rs:49-102 | no accepted encoding of a value is shorter than the written one |
| `Parsers.EncodeVarintLoop` | src/parsers.rs:49-67 | the encoder's loop computes the recursive encoding |
| `Parsers.DecodeVarintLoop` | src/parsers.rs:74-102 | the decoder's loop, least significant byte first, computes the recursive decoding, end of input included |
| `Parsers.DecodeManyLoop` | src/pack_info.rs:490-493 | the loop over a count of integers computes the recursive decoding, first error included |
| `Digests.BitmapRoundTrip` | src/parsers.rs:138-142 | bit i of a written bitmap is value i, and bits past the end are clear |
| `Digests.BoolsToBytes` | src/write/header.rs:365-373 | setting bits in place yields that bitmap |
| `Digests.DigestScanAgrees` | src/parsers.rs:113-136 | the digest scanner and both digest parsers accept the same inputs and stop at the same place |
| `Digests.DigestRoundTrip` | src/write/header.rs:220-234 | parsing a written digest block gives back which digests are present and their values |
| `FolderCodec.FolderScanAgrees` | src/folder.rs:510-547 | on every byte string the folder scanner and parser accept the same inputs with the same remainder, and the scanner reports the sum of the parsed output counts |
| `FolderCodec.FolderLocal` | src/folder.rs:600-648 | a folder depends only on the bytes it consumes |
| `FolderCodec.ReadFolder` | src/folder.rs:600-648 | the parser's three loops compute the recursive parser |
| `FolderCodec.WalkFolder` | src/folder.rs:510-547 | the scanner's loops compute the recursive scanner and stop where the parser stops |
| `PropertyTables.TablesAgree` | src/stream_info.rs:357-447 | a scanner that keeps two running totals accepts exactly the property tables that the parser accepts |
| `PropertyTables.TableLocal` | src/stream_info.rs:32-114 | a property table depends only on the bytes it consumes |
| `PropertyTables.ReadTable` | src/stream_info.rs:32-114 | the property loop of the parsers computes the recursive one |
| `PropertyTables.WalkTable` | src/stream_info.rs:357-447 | the property loop of the scanners computes the recursive one |
| `PackInfos.PackInfoAgrees` | src/pack_info.rs:399-461 | packed-stream scanner and parser accept the same inputs and stop at the same place |
| `PackInfos.IndexingAccepts` | src/pack_info.rs:103-131 | of the blocks that counting alone accepts, recording 32-bit offsets rejects exactly those that reach four gigabytes, and otherwise changes nothing |
| `PackInfos.FolderBlocksLoop` | src/pack_info.rs:103-131 | the block loop computes offsets and output counts of the recursive form, errors included |
| `PackInfos.BlocksParse` | src/pack_info.rs:103-131 | two neighbouring offsets delimit bytes that are exactly one folder |
| `PackInfos.UnpackInfoAgrees` | src/pack_info.rs:467-514 | with the same external data, what the folder-section parser accepts the scanner accepts with the same remainder and number of folders, and the converse for every section that ends below four gigabytes |
| `PackInfos.FoldersParseOnDemand` | src/pack_info.rs:267-296 | after a successful parse every folder can be parsed on demand from its recorded bytes |
| `PackInfos.UnpackInfoWithoutExternal` | src/pack_info.rs:58-73 | a folder section accepted without external data reads the same with any |
| `PackInfos.ScansAloneIffInline` | src/pack_info.rs:58-73 | a folder section that scans with external data scans without exactly when its table is inline |
| `StreamInfos.StreamsAgree` | src/stream_info.rs:453-497 | with the same external data, what the streams parser accepts the scanner accepts with the same remainder, and the converse for every section that ends below four gigabytes |
| `StreamInfos.StreamsLocal` | src/stream_info.rs:286-355 | a streams section depends only on the bytes it consumes |
| `StreamInfos.ReadStreams` | src/stream_info.rs:286-355 | the section loop of the parser computes the recursive one |
| `StreamInfos.WalkStreams` | src/stream_info.rs:453-497 | the section loop of the scanner computes the recursive one |
| `StreamInfos.LazyStreamsNeverFail` | src/headers.rs:358-378 | after a scan that consumed less than four gigabytes, parsing just the scanned bytes succeeds, with the value of parsing in place |
| `StreamInfos.ScansAloneIffAllInline` | src/stream_info.rs:453-497 | a section that scans with external data scans without exactly when every folder table in it is inline |
| `StreamInfos.AcceptedMeansInline` | src/stream_info.rs:239-262 | a section accepted without external data is never reported as needing it |
| `StreamInfos.FindExternal` | src/stream_info.rs:239-262 | the search for external folders computes the recursive form, which looks at the first folder table only |
| `FilesInfos.NamesRoundTrip` | src/files_info.rs:60-88 | terminated names without a null unit are valid and split back into themselves |
| `FilesInfos.ValidNamesAreTerminated` | src/files_info.rs:428-443 | data is valid for n names only if it is n terminated names and nothing else |
| `FilesInfos.ValidateNames` | src/files_info.rs:428-443 | the check of the source decides exactly that |
| `FilesInfos.NameSlices.Next` | src/files_info.rs:67-88 | the iterator yields the names in order and then ends |
| `FilesInfos.ReadValues` | src/files_info.rs:445-512 | the value loop reads one value for each defined entry and refuses left-over bytes |
| `FilesInfos.ParsedFilesScan` | src/files_info.rs:524-583 | whatever the parser accepts the scanner accepts, with the same remainder and count |
| `FilesInfos.ListingParses` | src/files_info.rs:188-291 | the parser accepts a listing exactly when the scanner does, no file property is repeated, names are terminated and complete, and every value block has its bitmap, its external data and one value for each defined entry |
| `FilesInfos.ScannerAcceptsMore` | src/headers.rs:541-550 | an input where that condition fails: the scanner accepts it and the parser refuses it |
| `FilesInfos.FilesIgnoreExternal` | src/files_info.rs:524-583 | if the scanner reports no external use the parse result does not depend on external data |
| `FilesInfos.FilesLocal` | src/files_info.rs:188-291 | a file listing depends only on the bytes it consumes |
| `FilesInfos.ReadFilesInfo` | src/files_info.rs:188-291 | the listing's property loop computes the recursive parser, duplicates and name counts included |
| `FilesInfos.WalkFilesInfo` | src/files_info.rs:524-583 | the property loop of the scanner computes the recursive scanner |
| `FilesInfos.FillOrdinals` | src/files_info.rs:293-306 | the running counter gives each empty entry its rank among the empty entries |
| `FilesInfos.OrdinalsIncrease` | src/files_info.rs:293-306 | a later empty entry has a greater ordinal |
| `FilesInfos.StreamExactlyWhenNotEmpty` | src/files_info.rs:156-170 | in a parsed listing an entry owns a stream exactly when its empty-stream bit is clear |
| `Headers.StepUnaffected` | src/headers.rs:177-279 | a section read without external data, without suspending, is read the same with any |
| `Headers.ResumeIsRestart` | src/headers.rs:113-123 | resuming a suspended scan with external data gives what scanning on from the start with it gives: sections, file count, end, or error |
| `Headers.CompleteWithoutExternal` | src/headers.rs:487-502 | a scan that completes without external data completes with the same sections and end with any |
| `Headers.AcceptedIffSupplied` | src/headers.rs:177-279 | from any position a scan that succeeds with external data succeeds without, complete or suspended, exactly when the sections up to the first that suspends have inline tables only and that one comes after additional streams |
| `Headers.ResolvableIffSupplied` | src/headers.rs:114-122 | the same from the start: which headers that can be read with external data are found to need it or not |
| `Headers.OnlyTheFirstTableSuspends` | src/stream_info.rs:244-246 | a header where that condition fails: refused without external data, accepted from the start with it |
| `Headers.ScanLocates` | src/headers.rs:226-265 | recorded ranges are exactly the bytes that the section scanners consumed |
| `Headers.StreamsAccessNeverFails` | src/headers.rs:358-378 | lazy access to the streams section of a scanned header succeeds and gives what parsing in place gives; only the section has to end below four gigabytes |
| `Headers.FilesAccessIsParsing` | src/headers.rs:395-415 | lazy access to the listing succeeds exactly when the parser accepts it in place, with the same value |
| `Headers.HeaderScan.Run` | src/headers.rs:177-279 | the scan loop, which keeps its state when it suspends, computes the recursive scan |
| `Headers.ResolveArchive` | src/headers.rs:330-332 | a header resolves, suspends or fails as the scan from its start does, and must be consumed exactly |
| `Headers.ResolveWith` | src/headers.rs:114-122 | completing a suspended header gives what a restart with the external data gives |
| `CoderWriter.SimpleCoderRoundTrip` | src/coder_info.rs:33-72 | parsing a written coder gives back identifier, arity and properties |
| `CoderWriter.ChainRoundTrip` | src/folder.rs:600-648 | parsing a written chain gives back its coders, bound one behind the other |
| `CoderWriter.EncodeCoderInfoAesThen` | src/write/header.rs:55-99 | the encrypted writer emits the chain of the AES coder and the given coders, which parses back |
| `CoderWriter.EncodeCoderInfo` | src/write/header.rs:5-53 | the unencrypted writers emit chains that parse back |
| `HeaderWriter.HeaderBuffer.WritePackInfo` | src/write/header.rs:156-168 | appends the packed-stream section of all folders |
| `HeaderWriter.HeaderBuffer.WriteUnpackInfo` | src/write/header.rs:170-186 | appends the folder section: blocks, coder sizes and folder digests |
| `HeaderWriter.HeaderBuffer.WriteSubstreamsInfo` | src/write/header.rs:188-210 | appends counts, explicit sizes and digests, each table only when the source writes it |
| `HeaderWriter.HeaderBuffer.WriteEmptyProperties` | src/write/header.rs:249-280 | appends the empty bitmap and the bitmaps of empty files and anti items over empty entries only |
| `HeaderWriter.HeaderBuffer.WriteValues` | src/write/header.rs:311-363 | appends times, positions or attributes with the size it announces, or nothing when no entry has any |
| `HeaderWriter.BuildHeader` | src/write/header.rs:110-125 | builds the section bytes that the round-trip lemmas are about |
| `StreamsRoundTrips.PackInfoRoundTrip` | src/pack_info.rs:154-232 | parsing a written packed-stream section gives back position and every size |
| `StreamsRoundTrips.UnpackInfoRoundTrip` | src/pack_info.rs:318-393 | parsing a written folder section gives back the blocks, their offsets, every coder size and every digest |
| `StreamsRoundTrips.WrittenFolderAt` | src/pack_info.rs:267-296 | the recorded offsets give back each folder's own block |
| `StreamsRoundTrips.SubstreamsRoundTrip` | src/stream_info.rs:32-114 | parsing a written substream section gives back counts, explicit sizes and digests, absent tables equal to defaults, or is refused exactly when digests are present for more than 2^23 streams |
| `StreamsRoundTrips.StreamsRoundTrip` | src/write/header.rs:114-120 | parsing the written streams section gives back all three tables, whatever the external data, exactly when its digests fit |
| `FilesRoundTrips.FilesRoundTrip` | src/write/header.rs:236-247 | parsing the written listing gives back names, bitmaps, times, positions and attributes |
| `FilesRoundTrips.RankCompresses` | src/write/header.rs:262-267 | the ordinal of an empty entry is its place in the bitmaps that list empty entries only |
| `FilesRoundTrips.KindRoundTrip` | src/files_info.rs:156-170 | every entry is classified as it was written: file, directory, anti item, symlink |
| `LayoutRoundTrips.KindsRoundTrip` | src/files_info.rs:156-170 | the kinds of a whole written listing come back in order |
| `FilesRoundTrips.EntryRoundTrip` | src/write/header.rs:236-363 | name, times, start position, attributes and kind of every entry come back |
| `HeaderRoundTrips.HeaderRoundTrip` | src/write/header.rs:110-125 | the written header scans to its exact end and lazy access gives back streams and files if and only if the header has at most 2^32 bytes and its digests fit |
| `HeaderRoundTrips.WriteAndResolve` | src/headers.rs:330-332 | building a header and resolving it gives back what was written |
| `LayoutRoundTrips.LayoutRoundTrip` | src/folder_decode.rs:549-722 | planning the written tables yields, for each folder, its own sizes, packed range, streams and digests |
| `LayoutRoundTrips.EntryFindsItsData` | src/write/header.rs:204-208 | the locations of the written tables give each stream-owning entry the folder, byte range and CRC that the writer recorded for it |
| `ArchiveRoundTrips.WrittenOpens` | src/file_streams.rs:56-79 | the tables read back pass the checks in front of the cursor, announce as many streams as entries own, and lead to the written locations without an error |
| `ArchiveRoundTrips.WriteThenOpen` | src/file_streams.rs:56-79 | building a header, resolving it and opening the cursor over what was read starts in step with the written locations |
| `ArchiveRoundTrips.WriteThenFind` | src/file_streams.rs:131-141 | through the header bytes, their resolution and the cursor, the entry recorded as a file of a folder gets that folder, byte range and CRC |
| `EncodedHeaders.BuildEncodedHeaderDescriptor` | src/write/header.rs:127-154 | builds the descriptor: a packed-stream section and a folder section of one folder |
| `EncodedHeaders.DescriptorRoundTrip` | src/headers.rs:68-99 | the descriptor is recognised as an encoded header and parses back to the folder it was written for |
| `EncodedHeaders.PlainHeaderRecognised` | src/headers.rs:87-98 | a header that was not encoded is recognised as plain |
| `EncodedHeaders.HeaderStreamFound` | src/headers.rs:46-61 | the folder found in a written descriptor is the written chain over the one packed stream, and decodes to the length of the header that was packed; nothing is found exactly when one of the two lengths exceeds the metadata limit |
| `EncodedHeaders.EncodedHeader.FindFolder` | src/headers.rs:46-61 | finds the folder exactly when there is one packed stream, one folder, and the preflight of its tables passes |
| `Preflights.Preflight` | src/folder_decode.rs:467-503 | passes exactly when every folder can be laid out, the tables are used up, and neither packed nor decoded bytes exceed the limit; reports the decoded total |
| `FolderLayouts.NewStreamLayoutTiles` | src/folder_decode.rs:168-190 | an accepted stream layout tiles the folder's output: explicit sizes and the implicit last one sum to it |
| `FolderLayouts.FoldSizes` | src/folder_decode.rs:531-537 | the fold with checked additions fails exactly when the whole sum exceeds 64 bits |
| `FolderLayouts.Substreams.Next` | src/folder_decode.rs:216-240 | the iterator yields the streams in order with their ranges and digests; its unchecked additions fit |
| `FolderLayouts.SubstreamsTile` | src/folder_decode.rs:216-240 | stream ranges are adjacent, start at zero and end at the folder's output size |
| `FolderLayouts.FolderPlans.Next` | src/folder_decode.rs:549-566 | the iterator yields layouts in order up to the end or the first error, and then nothing |
| `FolderLayouts.PlanningConserves` | src/folder_decode.rs:588-608 | if planning ends without error every pack size, coder size, stream size and digest is owned by exactly one folder, in order |
| `FolderLayouts.StreamCountMatches` | src/folder_decode.rs:521-539 | the announced number of streams is the number of streams of all folders |
| `PackedRanges.ListStreams` | src/folder_decode.rs:72-88 | lists a folder's packed ranges; the unchecked additions fit |
| `PackedRanges.PackedStreamsTile` | src/folder_decode.rs:72-88 | the packed streams of all folders together tile the packed bytes from zero in table order, each with its own digest, below 2^64 |
| `FileCursors.StreamLocations.Nth` | src/file_streams.rs:184-217 | passes n locations across folder boundaries and delivers the next, or the pending error |
| `FileCursors.StreamLocations.Finish` | src/file_streams.rs:154-174 | succeeds exactly when no location and no error is left |
| `FileCursors.SkipIsDiscard` | src/file_streams.rs:131-141 | skipping n entries at once is discarding them one by one |
| `FileCursors.FileStreams.Next` | src/file_streams.rs:143-150 | delivers the next entry with its own location, and checks that nothing is left at the end |
| `FileCursors.FileStreams.Nth` | src/file_streams.rs:131-141 | equals n discarded calls of next followed by next, result and position, keeping entries and locations in step |
| `FileCursors.EntryGetsItsLocation` | src/entries.rs:160-171 | the entry that owns the k-th stream gets the k-th location, and no other entry gets one |
| `FileCursors.LocationsInOrder` | src/file_streams.rs:184-217 | the k-th location is the k-th pair of folder and stream, across folders with no, one or many streams |
| `FileCursors.LeftInOrder` | src/file_streams.rs:184-217 | whatever the tables say, locations come in lexicographic order of folder and stream |
| `Sessions.LeftIsLocated` | src/file_streams.rs:184-217 | every location that the cursor yields names a folder of the archive and a stream of that folder |
| `FileCursors.OpenFiles` | src/file_streams.rs:56-79 | opens exactly when the tables agree and announce as many streams as entries own, and starts in step |
| `FileCursors.SelectEntries` | src/entries.rs:218-246 | a selection is accepted exactly when its indices are valid and distinct, and is then their ascending permutation |
| `FileCursors.MapSelected` | src/file_streams.rs:91-105 | mapping a selection gives each selected entry what mapping every entry would |
| `ReadSessions.Budget.NextDecoded` | src/resources.rs:439-456 | a charge is accepted exactly when all bytes ever charged stay within the limit |
| `ReadSessions.Budget.Remaining` | src/resources.rs:397-401 | what remains is the limit less all bytes charged; the subtraction cannot underflow |
| `ReadSessions.Budget.WithEagerDecodedOutput` | src/resources.rs:463-488 | eager output is charged once in full, unless refused before decoding began |
| `ReadSessions.ActiveFolder.ReadContent` | src/folder_decode.rs:869-914 | a read delivers the next bytes of the stream, never past its end or the limit, and fails only if hindered or if the decoder has run dry |
| `ReadSessions.ActiveFolder.ReadStream` | src/folder_decode.rs:757-788 | the callback sees the beginning of its stream, all of it if it read to the end; success means the whole stream decoded and its CRC matched; without interference a verified stream never fails |
| `ReadSessions.ActiveFolder.SkipTo` | src/folder_decode.rs:745-755 | streams in front are decoded and verified; a position behind is refused |
| `ReadSessions.ActiveFolder.Finish` | src/folder_decode.rs:790-818 | CompleteFolders means exact length and all CRCs matching; SelectedEntries only without folder CRC and with a tail left; failure means interference or a folder that does not verify; the charge is all or exactly what was read |
| `ReadSessions.EntryDecoder.Open` | src/archive.rs:1847-1853 | each opening is recorded once and charged either in full or as it is read |
| `ReadSessions.EntryDecoder.Read` | src/archive.rs:1819-1860 | an entry's callback sees that entry's slice; a failed read makes the verification Incomplete for good and has a cause |
| `ReadSessions.EntryDecoder.Complete` | src/archive.rs:1870-1888 | completing the live folder never widens what is claimed, and a failure withdraws it |
| `ReadSessions.CombineKeepsNarrower` | src/archive.rs:1870-1888 | combining two scopes claims no more than either |
| `ReadSessions.EntryDecoder.Finish` | src/archive.rs:1862-1867 | reporting CompleteFolders means that every folder opened decoded to its length with all CRCs matching |
| `Sessions.ArchiveReadSession.ReadEntry` | src/archive.rs:287-308 | an index out of order changes nothing; a valid one is consumed even if it fails; a readable entry is read unless the decoder is hindered or a folder opened so far is not sound; no folder is opened but its own |
| `Sessions.ArchiveReadSession.FinishFolder` | src/archive.rs:332-334 | releases the decoder on success and failure and reports the scope verified so far |
| `Sessions.Run` | src/archive.rs:1818-1889 | over any run: callbacks see their own bytes, only folders of requested entries are opened and none twice absent failures, a failed read is remembered, CompleteFolders is earned; and increasing requests all succeed where the folders opened for them are sound, whatever the others hold |
| `ByteSwaps.SwapGroupsScalar` | src/byte_swap.rs:135-147 | reverses every group of an array in place |
| `ByteSwaps.SwapTwice` | src/byte_swap.rs:121-133 | swapping twice gives the input back, trailing partial group included |
| `ByteSwaps.WholeByDivision` | src/byte_swap.rs:135-147 | the bytes of a buffer that are swapped are the greatest multiple of the group width in it |
| `ByteSwaps.ByteSwapReader.Read` | src/byte_swap.rs:73-119 | for any short reads, failures and buffer sizes what has been returned is a prefix of the swapped input; zero bytes mean all of it; no byte is lost across a failure, and only an inner failure fails |
| `Cbc.DecryptEncrypt` | src/aes.rs:340-354 | CBC deciphering inverts CBC enciphering for any block permutation |
| `Cbc.EncryptAppend` | src/aes.rs:390-405 | enciphering continues from the last block |
| `Cbc.EncryptZeroPadInverts` | src/aes.rs:340-354 | the padded ciphertext has the padded length and deciphers to the plaintext followed by padding |
| `Cbc.AesPropertiesRoundTrip` | src/aes.rs:319-338 | parsing written properties gives back cost, salt and the zero-filled vector |
| `AesStreams.Aes256CbcEncryptWriter.Write` | src/aes.rs:419-439 | accepts all bytes however they are cut, keeping the block buffer below 8192 bytes; fails only with the sink or at 2^64 bytes |
| `AesStreams.Aes256CbcEncryptWriter.Flush` | src/aes.rs:441-444 | flushing in between changes nothing of what is finally emitted |
| `AesStreams.Aes256CbcEncryptWriter.Finish` | src/aes.rs:381-388 | what was written in the end is the one-shot zero-padded ciphertext, one block for empty input |
| `AesStreams.Aes256CbcDecryptReader.Read` | src/aes.rs:275-299 | what has been returned is a prefix of the cut plaintext; zero bytes mean exactly the expected length and all of it; a failure means an inner failure or a wrong length, and the reader can go on exactly when the inner reader stands between two blocks |
| `AesStreams.DecryptsWhatWasEncrypted` | src/aes.rs:187-222 | the sizes of an encrypted stream are accepted, and its plaintext is what was encrypted |
| `AesStreams.EncryptThenDecrypt` | src/aes.rs:275-299 | the reader over what the writer emitted gives the plaintext back, for any cut into writes and reads and any flushes, unless the sink or the source fails |
| `Signatures.ScanFindsTheFirst` | src/archive.rs:2096-2119 | the scan finds the smallest offset with magic bytes and a matching start-header CRC |
| `Signatures.FindSignatureInSlice` | src/archive.rs:2096-2119 | the loop over magic offsets computes the scan of the whole slice, CRC and parse errors included |
| `Signatures.FindSignature` | src/archive_source.rs:210-259 | for every chunk size the chunked scan equals the whole scan, unless a read that it issues fails before any valid signature |
| `Signatures.LimitBeyondTheEnd` | src/archive_source.rs:210-213 | a limit that covers the source makes chunked and slice scan equal |
| `Wildcards.PrefixesDecide` | src/bin/r7z.rs:2021-2054 | the last cell of the table means the recursive meaning of `*` and `?` |
| `Wildcards.FillStarRow` | src/bin/r7z.rs:2035-2040 | a row under `*` spreads to the right while it is read, and still hands on what prefix matching means |
| `Wildcards.FillSymbolRow` | src/bin/r7z.rs:2041-2047 | a row under any other symbol moves diagonally |
| `Wildcards.WildcardMatch` | src/bin/r7z.rs:2021-2054 | the table decides the recursive match for all patterns and texts |
| `Volumes.WriteVolumes` | src/bin/r7z.rs:1801-1840 | volumes stay within their sizes and join to a prefix of the input, to all of it exactly if no zero size stops the split |
| `Volumes.OpenVolumes` | src/archive_source.rs:69-104 | opens exactly when there are at most as many volumes as may be open and their lengths sum to 64 bits; running positions make them one source of the joined length, and a single volume is not treated as split |
| `Volumes.ReadExactAt` | src/archive_source.rs:117-166 | reading any span in range through volumes, empty ones included, slices their concatenation, unless the file of a volume in the span fails; out of range fails |
| `Volumes.SplitThenRead` | src/bin/r7z.rs:1801-1840 | splitting into positive sizes and reading back any span gives that span of the input, unless too many volumes are needed or a read fails |

## Left out

* External codecs (LZMA, LZMA2, PPMd, Deflate, BZip2, BCJ filters, BCJ2 internals), CRC-32, SHA-256 and the
  AES block function are parameters; no property of theirs is used but that the block function has an inverse.
* The memory that the LZMA library announces for its decoders is a parameter (`LzmaMemory`). Metadata and
  key-derivation budgets are left out: counters like the decoded one.
* nom's Error and Failure severities and error positions, reservation failures and small-vector capacities.
* `bytes_subslice` and its containment check: retained bytes are taken to lie in their backing buffer.
* External folder plans and collectors: external data is a parameter of the header scan.
* `io::copy`, `read_exact` and `read_one` retrying interrupted reads: one read of the model stands for the attempt
  that is not interrupted. The chunking by `buffer_size`: covered by arbitrary short reads.
* Progress reports: only cancellation is modelled.
* File access, temporary files and renames around volumes and extraction; listing, switches and passwords.
* `signature_at`: the overflow check of offset and header length, which no source length below 2^64 reaches.
* File times are taken in file-time ticks, so the conversion from system time is not modelled.
* UTF-16 conversion: names are unit sequences.
* AesStreams.Aes256CbcEncryptWriter.Write: nothing is promised after the sink has failed; the source does not
  resume either.
* AesStreams.Aes256CbcDecryptReader.Read: after a failure inside a block, whose bytes the source loses, no further
  call is described.
* Sessions.Run: at-most-once opening is stated for runs without finish_folder in between, which releases the
  decoder on purpose.
* Volumes.OpenVolumes: opening a file or asking for its length is taken to succeed.
* HeaderRoundTrips.WriteAndResolve: asks for the limits under which HeaderRoundTrip holds.
