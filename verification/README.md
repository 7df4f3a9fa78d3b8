# Verification of the LZMA codec, its match finder, the dispatch protocol and parts of the YAML library

This project models four parts of the upload monitor and proves properties of them:

- the LZMA codec in `archive/Lzma`: range coder, probability cells, packets, the resumable decoder
  with its circular dictionary, the fast mode of the encoder, and the one-call interfaces on top;
- the binary-tree match finder in `LzFind.c`: hash heads, a search tree of suffixes in a cyclic
  array, a sliding input block and renumbered positions;
- the dispatch protocol of `monitor.c`, `servers.c` and `utils/encapsulate_queue.c`: a scheduler and
  workers over shared reference-counted nodes, with completion recorded in marker files;
- the YAML library: octets and characters in the reader and the writer, the scanner's queue of tokens
  with its simple keys and indents, the parser and the emitter as pushdown machines over events, the
  loader and the dumper between events and possibly cyclic graphs, and double-quoted scalars, which the
  emitter writes and the scanner reads.

The central law is `RoundTrip.EncodeThenDecode`: for every input and every setting of the encoder in
fast mode, decoding the encoded stream gives the input back. It rests on `Stream.CodecRoundTrip`, which
holds for every admissible list of packets and so for any parser of the text.

## How it is organised

Classes and array algorithms follow the C code; each is proved against functions that the theorems are
about.

| part | files, from the bottom up |
|---|---|
| range coder | `Bytes`, `Cells`, `RangeSpec` (exact intervals, the decoder's reader), `RangeEncoder` (the object with cache and pending run) |
| packets | `Slots`, `Packets` (the encoder's script of bits for a packet), `DecSpec` (the decoder's reading), `CoderChoice` (which contexts share probabilities), `PacketRoundTrip`, `Stream` |
| decoder | `Locality`, `InputBound`, `DryRun`, `Dummy` (dry-run reader), `Decoder` (the object), `Slicing`, `Header`, `OneCall` |
| encoder | `Encoder`, `OptimalChain`, `FastMode`, `RoundTrip` |
| match finder | `Suffixes`, `SuffixTree`, `BinTree`, `LzHash`, `MatchIndex`, `MatchFinder` |
| dispatch | `Dispatch` (the state machine), `DispatchMemory`, `DispatchFiles`, `DispatchRemoval`, `DispatchShared`, `DispatchTurns` (whole turns of the scheduler and the workers) |
| YAML octets | `YamlChars`, `YamlOctets` (UTF-8, UTF-16, one character), `YamlReader`, `YamlWriter`, `YamlStream` (a scalar on its way through octets) |
| YAML tokens | `YamlQueue` (what tokens with marks must be like), `YamlFetching` (the scanner's step), `YamlNesting` (the invariant), `YamlScanning` (whole runs), `YamlSimpleKeys`, `YamlLines`, `YamlFetcher` (the object) |
| YAML scalars | `YamlQuoted`, `YamlRoundTrip`, `YamlReading` (what a quoted text denotes, apart from the scanner), `YamlEmitter`, `YamlScanner` |
| YAML events | `YamlEvents` (the grammar), `YamlTrees` (the grammar against trees), `YamlTokens` (tokens and the parser's step), `YamlParser`, `YamlSyntax` (documents as they are written), `YamlParsing` and `YamlAccepting` (the parser against them), `YamlEmission`, `YamlPipe` |
| YAML documents | `YamlGraph` (trees with anchors, graphs, the dumper's walk), `YamlLoader`, `YamlDumper`, `YamlReload` |

`dafny verify dfyconfig.toml` checks the whole project.

## Findings

- With the success branch of the worker as written (`servers.c:321-323`), a file whose source is removed
  after the first OK is never finished: the scheduler drops its node because the source is missing
  (`monitor.c:1069-1074`), and the mark stays behind. `DispatchRemoval.NeverFinishes` proves that no run in
  which removals work reaches `do_upload_file_finish_all`; `DispatchTurns.OrdinaryEnd` follows such an upload to
  its end.
- Two server groups whose first primaries have the same name share a flag file. A file may then be finished
  although the second group was never called, if the source cannot be removed. `DispatchShared.SafeExactly`
  states the exact condition.
- The check of values handed to the emitter (`yaml/api.c:619-656`) lets surrogates and numbers above 0x10FFFF
  through. The emitter writes them as escape sequences, which the scanner refuses (`yaml/scanner.c:3232-3236`):
  `YamlRoundTrip.QuotedRoundTrip` holds exactly for values without them.
- The writer leaves too many bits in the low surrogate (`yaml/writer.c:119`). `YamlWriter.ReadBack` states which
  characters are lost, `YamlWriter.FaceLost` that U+1F600 is; `YamlStream.ThroughOctets` shows that quoted scalars
  never contain one, since the emitter escapes everything above U+FFFF.
- The assertion in `yaml/scanner.c:1113`, marked as impossible to fail, does fail for " - [", a line break and
  "]b": `YamlLines.ExampleFails`. `YamlLines.FailsOnlyThere` shows that it holds on all lines that begin in the
  block context.
- A pair of a flow sequence may have an empty key by the grammar in `yaml/parser.c:1008`, but the parser skips
  the token after KEY then (`yaml/parser.c:1028-1033`) and may be stuck later: `YamlAccepting.EmptyKeyLost`. Apart
  from such keys the parser accepts exactly what can be written: `YamlAccepting.AcceptsExactly`.
- The grammar in `yaml/parser.c:823-831` lets a value of a block mapping stand without a key; the code refuses it
  (`yaml/parser.c:880-885`). `YamlSyntax` follows the code.

## Model

| member | source | states |
|---|---|---|
| Bytes.CarryRun | archive/Lzma/LzmaEnc.c:509-528 | adding a carry to a byte below 255 and the 0xFF run after it is the same as adding 1 to the number the bytes denote |
| RangeEncoder.RangeEnc.WritePending | archive/Lzma/LzmaEnc.c:513-523 | writing out the cached byte and its run with a carry keeps the base-256 value exactly; a carry is only ever added to a byte below 0xFF, and bytes written before stay as they are |
| RangeEncoder.RangeEnc.ShiftLow | archive/Lzma/LzmaEnc.c:509-528 | written bytes, cache, pending run and low always denote the exact start of the interval, which a shift multiplies by 256; a cached 0xFF leaves no room for a later carry |
| RangeEncoder.RangeEnc.EncodeBit | archive/Lzma/LzmaEnc.c:552-573 | the object's interval is narrowed to the part of the bit and normalized once; the probability adapts |
| RangeEncoder.RangeEnc.EncodeDirectBits | archive/Lzma/LzmaEnc.c:537-550 | the interval after all bits of the value, most significant first, is that of the script of direct bits |
| RangeEncoder.RangeEnc.FlushData | archive/Lzma/LzmaEnc.c:530-535 | after five shifts the bytes written denote exactly the start of the interval, and nothing is pending |
| RangeEncoder.EncodeAll | archive/Lzma/LzmaEnc.c:483-573 | for any sequence of adaptive and direct bits, encoded and flushed, the first byte is 0 and the decoder reads back every bit, to the last byte, ends with code 0 and holds the same probabilities |
| RangeSpec.NormMirrors | archive/Lzma/LzmaDec.c:17 | the decoder's normalization before a bit keeps it in step with the encoder's after the bit before: same range, code equal to bytes read minus low |
| RangeSpec.BitStepInStep | archive/Lzma/LzmaDec.c:19-25 | IF_BIT_0 with its updates reads the bit the encoder wrote and leaves both sides with the same interval and the same probability in the same cell |
| RangeSpec.OpsRoundTrip | archive/Lzma/LzmaDec.c:17-25 | from any two states in step, every sequence of adaptive and direct bits is read back and leaves the two sides in step |
| RangeSpec.BoundKeepsRange | archive/Lzma/LzmaDec.c:17-21 | since probabilities stay within 31 and 2017, one 8-bit shift always brings the range back to at least 2^24 |
| Cells.LayoutAgrees | archive/Lzma/LzmaDec.c:80-115 | the decoder's flat table holds every probability of the encoder's arrays once, without overlap, and the literals start at 1846 |
| Cells.LayoutOnto | archive/Lzma/LzmaDec.c:80-115 | and has no address without such a probability |
| DecSpec.TreeFollow | archive/Lzma/LzmaDec.c:27-29 | the TREE_DECODE loop, at any node and level, reads the symbol whose bits the encoder's tree loop writes there |
| Slots.FastPosInit | archive/Lzma/LzmaEnc.c:107-121 | fills the table with the true slots of all distances below 2^13 |
| Slots.GetPosSlot | archive/Lzma/LzmaEnc.c:123-133 | table and branch-free shift give the true slot of every distance below 2^31 |
| Slots.SlotUnique | archive/Lzma/LzmaDec.c:297-353 | the range of distances that slot and footer bits can rebuild determines the slot |
| PacketRoundTrip.FooterSplit | archive/Lzma/LzmaEnc.c:1838-1854 | slot, direct bits and four reversed align bits make up the distance again |
| Packets.PacketOpsValid | archive/Lzma/LzmaEnc.c:1749-1863 | every packet addresses only cells inside the encoder's arrays, for every state, position and context |
| CoderChoice.LiteralSharing | archive/Lzma/LzmaEnc.c:927 | literals share a coder exactly when their positions agree modulo 2^lp and the bytes before them agree in their lc high bits; different coders lie at least 768 cells apart |
| CoderChoice.LiteralSharingAfter | archive/Lzma/LzmaDec.c:164-168 | the same for the literals that follow any two texts |
| CoderChoice.FirstLiteral | archive/Lzma/LzmaDec.c:164-168 | the first literal shares the coder of one at a multiple of 2^lp after a byte without high bits |
| CoderChoice.PositionSharing | archive/Lzma/LzmaDec.c:158 | packets share the cells that depend on the position exactly when their positions agree in the pb low bits |
| CoderChoice.Adaptation | archive/Lzma/LzmaDec.c:20-21 | exchanging the bits mirrors the probability; every 0 raises it and every 1 lowers it until 2017 and 31 are reached |
| CoderChoice.Division | archive/Lzma/LzmaDec.c:19 | the parts of a probability and of its mirror make up the range but for the remainder, and a larger probability has a larger part |
| PacketRoundTrip.PacketFollow | archive/Lzma/LzmaEnc.c:1749-1863 | reading what the encoder writes for a packet (literal, matched literal, short rep, rep 0 to 3, match, end marker) gives back the packet |
| Stream.SameNextView | archive/Lzma/LzmaDec.c:131-426 | both sides reorder states and recent distances alike (the decoder's are larger by 1) and extend the text alike |
| Stream.CodecRoundTrip | archive/Lzma/LzmaEnc.c:1733-1892 | for any admissible list of packets, with or without end marker, the decoder reproduces packets and text, reads every byte and ends with code 0 |
| InputBound.TwentyBytesSuffice | archive/Lzma/LzmaDec.h:45-48 | a packet with the normalization after it never consumes more than 20 bytes, and never runs short while 20 are left |
| InputBound.CostBound | archive/Lzma/LzmaDec.h:45-48 | 23 adaptive bits, or 22 and 26 direct ones, narrow the range by less than 20 bytes' worth |
| Locality.StepLocal | archive/Lzma/LzmaDec.c:131-426 | a completed step depends only on the bytes it consumed |
| DryRun.PacketAlike | archive/Lzma/LzmaDec.c:487-675 | reading a packet without adapting the probabilities gives the same packet and the same position as reading it for real, and runs short exactly when that does |
| Decoder.LzmaDec.TryDummy | archive/Lzma/LzmaDec.c:487-675 | reports a shortage exactly when the real step would need more input, else the kind of the packet; changes nothing |
| Decoder.LzmaDec.DecodeReal | archive/Lzma/LzmaDec.c:131-426 | carries out whole packets on the flat table and the circular dictionary exactly as the reference decoder does on an unbounded text, up to the output limit |
| Decoder.LzmaDec.WriteRem | archive/Lzma/LzmaDec.c:428-452 | continues an interrupted match: the rest of the copy is the same as if it had not been interrupted |
| Decoder.LzmaDec.DecodeToDic | archive/Lzma/LzmaDec.c:719-838 | consumes a prefix of the input, writes text into the dictionary that continues the text before, and explains its status; an error means that the stream itself refuses |
| Decoder.LzmaDec.DecodeToBuf | archive/Lzma/LzmaDec.c:840-878 | the same for output of any size, handed out piece by piece through the dictionary |
| Slicing.SlicingIndependent | archive/Lzma/LzmaDec.c:719-838 | two decoders fed parts of the same stream in any slices have written texts one of which continues the other |
| Slicing.DrainedSame | archive/Lzma/LzmaDec.c:719-838 | with the same bytes taken over and everything drained, they have written the same text |
| Header.WriteProperties | archive/Lzma/LzmaEnc.c:2191-2218 | the header decodes to the same lc, lp and pb and to the least dictionary size of the form 2^n or 3 * 2^n that is large enough |
| OneCall.LzmaDecode | archive/Lzma/LzmaDec.c:969-999 | delivers the text of every stream the encoder can write, with the right status and source length; every answer says how far decoding went and why |
| OptimalChain.DecisionsCover | archive/Lzma/LzmaEnc.c:891-925 | the decisions of a parse, composite entries expanded, cover the text from the start to the end without gap |
| OptimalChain.Parser.Backward | archive/Lzma/LzmaEnc.c:891-925 | turning the links round in place leaves the same decisions, in forward order, to be replayed |
| OptimalChain.Parser.ReplayAll | archive/Lzma/LzmaEnc.c:937-944 | the lengths returned by Backward and all later calls add up to optimumEndIndex |
| Encoder.LzmaEnc.CodePacket | archive/Lzma/LzmaEnc.c:1749-1863 | every truthful choice is written as its packet and keeps bytes, text, state and recent distances consistent |
| Encoder.LzmaEnc.Flush | archive/Lzma/LzmaEnc.c:1597-1632 | the finished stream decodes to the text coded so far |
| FastMode.Coder.GetOptimumFast | archive/Lzma/LzmaEnc.c:1489-1595 | the choice is truthful: a literal, or a repeat that is really in the text; a recent distance with numFastBytes bytes is always taken, and a literal is chosen only where no recent distance has two bytes or, after looking ahead, the next byte begins a repeat; the match finder is ahead by the length of the choice, or by one more with what it found kept |
| FastMode.Coder.CodeOneBlock | archive/Lzma/LzmaEnc.c:1733-1892 | codes at least one packet; at the end of the text the stream reproduces all of it |
| RoundTrip.EncodeThenDecode | archive/Lzma/LzmaEnc.c:2248-2268 | for every input and every setting, LzmaDecode of what LzmaEncode wrote returns SZ_OK and the input |
| SuffixTree.SplitKeeps | archive/Lzma/LzFind.c:353-406 | re-rooting at the current position loses a node only to the new one that stands for it |
| SuffixTree.FindsLongest | archive/Lzma/LzFind.c:353-406 | a search that is not cut short meets a repeat as long as any the tree covers |
| SuffixTree.PathBound | archive/Lzma/LzFind.c:353-406 | positions drop along the path, so a search takes no longer than the window |
| BinTree.GetMatchesSpec1 | archive/Lzma/LzFind.c:353-406 | the loop on the cyclic array leaves the links of the re-rooted tree and reports the growing repeats on its path, although every comparison starts at the smaller of the two lengths known |
| BinTree.SkipMatchesSpec | archive/Lzma/LzFind.c:408-456 | leaves exactly the links that GetMatchesSpec1 leaves |
| BinTree.RelinkRep | archive/Lzma/LzFind.c:353-456 | these links represent the split tree: a search tree in suffix order with children older than parents |
| LzHash.SecondByte | archive/Lzma/LzHash.h:22-26 | equal first bytes and equal 2-byte hashes force equal second bytes |
| LzHash.ThirdByte | archive/Lzma/LzHash.h:22-26 | equal first bytes and equal 3-byte hashes force equal second and third bytes |
| MatchIndex.AgreesWithNaive | archive/Lzma/LzFind.c:353-406 | a complete search finds a repeat as long as a naive search of the window does, from length 4 on |
| MatchFinder.Finder.GetMatches | archive/Lzma/LzFind.c:539-584 | every pair reported is a real repeat in the window and lengths rise strictly; the last place with the same 2-byte hash and the last with the same 3-byte hash are reported at full length if they begin with the current byte, and pairs of up to three bytes come from nowhere else; the index stays intact, and while no search was cut short no repeat of four bytes or more is longer than the last one |
| MatchFinder.Finder.Skip | archive/Lzma/LzFind.c:688-702 | skipping keeps the index as intact as searching |
| MatchFinder.Finder.Normalize | archive/Lzma/LzFind.c:285-309 | renumbering keeps the distance of every hash and tree link in the window, keeps the others outside, and keeps the index |
| MatchFinder.Finder.CheckLimits | archive/Lzma/LzFind.c:311-320 | renumbers before the position can pass 0xFFFFFFFF, moves and refills the block, and restores all limits |
| DispatchMemory.CountersExact | utils/encapsulate_queue.c:47-71 | in every run, with any interleaving and any crashes: no freed node is used, every live node is in exactly one place, retain_count is the number of live copies, and an original about to be freed has none |
| DispatchFiles.CompletionSafe | monitor.c:1076-1085 | with distinct names, do_upload_file_finish_all begins only after a call returned OK for every group, in every run, crashes included |
| DispatchRemoval.NeverFinishes | servers.c:321-323 | if every removal of a source works, no run ever gets to do_upload_file_finish_all |
| DispatchShared.CanFinish | monitor.c:1040-1115 | where every group has a server with a worker, some run does get there, having called exactly the groups whose name is new |
| DispatchShared.SafeExactly | monitor.c:805-824 | where every group has a server with a worker: finishing is safe in all runs if and only if the names are distinct or removals never fail |
| DispatchTurns.GoneLeaves | monitor.c:1069-1074 | from every reachable state in which the scheduler has taken a node without copies whose source is gone: the node leaves memory and queues with the third step of the scheduler, whatever happens between but a crash or the arrival of the source |
| DispatchTurns.GoneDrain | monitor.c:1057-1074 | a queue of such nodes is emptied in four steps each, and all of them are freed |
| DispatchTurns.PresentStays | monitor.c:1069-1076 | a node whose source is there is kept, with its path, and gets past the check |
| DispatchTurns.BusyReturns | monitor.c:1064-1067 | a node with copies about goes back to the end of the queue at once |
| DispatchTurns.FirstTime | monitor.c:805-824 | the first time, a flag is written for every group and then the mark, which is not there at any moment before |
| DispatchTurns.StillFlagged | monitor.c:963-993 | one flag left is enough for the node to go round again, and nothing is touched |
| DispatchTurns.Finishes | monitor.c:923-945 | with the mark there and no flag left, watched file and mark are deleted, the source as configured, and the node is freed |
| DispatchTurns.HandsOut | monitor.c:1087-1110 | a group whose flag is gone, or that has no server available, is passed over; any other gets one counted copy at the end of the queue of the server chosen |
| DispatchTurns.Refuses | servers.c:294-309 | a copy whose server is not available or whose source is gone is freed, and its flag stays |
| DispatchTurns.Fails | servers.c:360-370 | after a failed call the copy goes to the end of its server's queue while retries are left, or else is freed; its flag stays |
| DispatchTurns.Succeeds | servers.c:321-358 | after a call that returned OK the source is removed if that works, the flag of the group is deleted and the copy freed |
| DispatchTurns.OrdinaryEnd | servers.c:321-323 | the call for the only copy succeeds and removes the source: the node is freed when the scheduler takes it again, while mark and watched file stay |
| YamlOctets.SameTests | yaml/yaml_private.h:244-322 | the tests on octets for printable characters, line breaks and the byte order mark say what those on characters do |
| YamlOctets.CheckUtf8 | yaml/api.c:619-656 | accepts octets exactly if they are UTF-8 in shortest form of numbers below 2^21 |
| YamlReader.Accepts | yaml/reader.c:196-415 | octets decode to characters without a problem exactly if they are the UTF-8 (RFC 3629, sections 3 and 4) or UTF-16 (RFC 2781, section 2) of these characters and all are allowed |
| YamlReader.RefusedForever | yaml/reader.c:196-415 | octets that are refused are the beginning of no text |
| YamlReader.Reader.DetermineEncoding | yaml/reader.c:94-132 | finds the encoding that the byte order mark of the whole stream tells, from however little the handler delivers at a time |
| YamlReader.Reader.UpdateBuffer | yaml/reader.c:141-464 | the buffer gets enough characters, or all there are and NUL; what has been decoded is the beginning of what the stream says, a problem is the one of the stream, and the buffer does not outgrow its size |
| YamlReader.SlicesDoNotMatter | yaml/reader.c:141-464 | however the handler slices a stream, of what two readers have decoded one continues the other, and at the end both are the same |
| YamlReader.ReadToTheEnd | yaml/reader.c:425-446 | a stream read to its end is the encoding of the characters; UTF-8 has gone through the buffer byte for byte |
| YamlWriter.Recode | yaml/writer.c:70-125 | decodes the UTF-8 of the buffer and writes every character in UTF-16, but for the bits of low surrogates; no more than twice the octets |
| YamlWriter.ReadBack | yaml/writer.c:104-124 | the reader gets all characters back exactly if each is below U+10000 or among the first 1024 of its plane; otherwise it stops at the first that is not |
| YamlWriter.FaceLost | yaml/writer.c:119 | U+1F600 is not read back |
| YamlWriter.WriteThenRead | yaml/emitter.c:1753-1763 | with the mark that the emitter puts first the reader finds the encoding by itself |
| YamlWriter.PassedOn | yaml/writer.c:53-66 | UTF-8 is read back exactly if the text does not begin with the byte order mark itself |
| YamlStream.ThroughOctets | yaml/emitter.c:2020-2174 | for every checked value, all settings and all output encodings: printed in quotes, written as octets, read and scanned, the value comes back if and only if it consists of characters |
| YamlNesting.FetchKeeps | yaml/scanner.c:859-1047 | every lexeme keeps the invariant: the numbers of possible keys rise with the flow levels and lie in the queue at tokens before which KEY can be put, indents grow from -1, and the tokens so far nest |
| YamlScanning.TokensRight | yaml/scanner.c:1096-1757 | the tokens of a text are its lexemes in order; every implied token stands directly before what it is for, and entries and keys exactly at the column of their collection; every KEY made up has its value in the same line within 1024 characters; at the end no block collection is open unless a flow collection is |
| YamlSimpleKeys.KeyFound | yaml/scanner.c:1681-1757 | where a key may begin, with the parts of a node and a value in one line within 1024 characters, KEY is put directly before the first part |
| YamlSimpleKeys.NoSecondKey | yaml/scanner.c:1703-1757 | another value in that line is refused in the block context and has no KEY in a flow collection |
| YamlLines.FailsExactly | yaml/scanner.c:1096-1134 | the assertion fails exactly where what may be a key stands at the level of the block context and no key is allowed |
| YamlLines.FailsOnlyThere | yaml/scanner.c:1107-1113 | that happens only in a line that began inside a flow collection or a token |
| YamlLines.ExampleFails | yaml/scanner.c:1113 | over " - [", a line break, "]b" the assertion fails |
| YamlFetcher.Fetcher.FetchValue | yaml/scanner.c:1681-1757 | KEY and BLOCK-MAPPING-START go in front of the key's first token, which is still in the queue |
| YamlFetcher.Fetcher.FetchMoreTokens | yaml/scanner.c:799-853 | fetches until no key can still be put before the head of the queue, and no further; a problem is that of the whole text |
| YamlFetcher.Fetcher.ScanAll | yaml/scanner.c:741-769 | the tokens handed out one by one are those of the specification, whenever they are taken, or its problem is met |
| YamlRoundTrip.EscapeRead | yaml/emitter.c:2036-2134 | the scanner undoes every escape sequence the emitter writes for a character, and refuses one for any other number |
| YamlRoundTrip.FoldRead | yaml/scanner.c:3280-3345 | a line break of any style and the margin after it are read as one space |
| YamlRoundTrip.QuotedRoundTrip | yaml/scanner.c:3011-3373 | for every checked value, width, unicode setting and line break, at any place in any text, the scanner returns the value and stops after the right quote if the value consists of characters, and refuses the scalar otherwise |
| YamlReading.ReadsExactly | yaml/scanner.c:3011-3373 | the scanner returns a value and a position exactly if the text up to there is a quoted scalar (characters, all escape sequences, runs of blanks and line breaks, escaped line breaks, no document indicator at the beginning of a line) that denotes the value |
| YamlReading.BlankLines | yaml/scanner.c:3320-3345 | of k line feeds with any blanks between them all but one are kept; a single one is read as a space |
| YamlReading.LettersKnown | yaml/emitter.c:2060-2122 | the emitter's short escapes are those of the scanner's table, for every character that has one but the space and the single quote |
| YamlEmitter.Emitter.WriteIndent | yaml/emitter.c:1764-1783 | breaks the line unless it holds no more than a part of the margin, and fills up the margin |
| YamlEmitter.Emitter.WriteDoubleQuotedScalar | yaml/emitter.c:2020-2174 | writes exactly the text of the specification; every fold does break the line |
| YamlEmitter.Emitter.EmitStreamStart | yaml/emitter.c:495-530 | brings indent, width and line break into range |
| YamlEmitter.Emitter.EmitQuotedScalar | yaml/emitter.c:1016-1035 | indents the scalar by one level more than the node around it and restores the indent |
| YamlScanner.Scanner.ScanFlowScalar | yaml/scanner.c:3011-3373 | the three nested loops compute the specified scan of the text, errors included; a value is returned exactly for a quoted scalar that denotes it, and the scanner stops after it |
| YamlScanner.PrintThenScan | yaml/emitter.c:2020-2174 | whatever the emitter wrote before, its settings and what follows: scanning the printed value returns the value if and only if it consists of characters |
| YamlTrees.GrammarExact | yaml/parser.c:225-304 | the complete event streams the grammar accepts are exactly those of lists of documents, each a tree whose mappings hold keys and values in turn |
| YamlParser.Parser.ParseNode | yaml/parser.c:528-694 | a node adds exactly what the grammar expects and returns to the state on top of the stack, which is never empty; event, state and tokens left are those of the specified step |
| YamlParser.Parser.Parse | yaml/parser.c:169-190 | for any tokens, every event continues the stream of events, no stack is popped empty, and at the end of the stream both stacks are empty; every event is that of the specified step, which `YamlParsing` and `YamlAccepting` are about |
| YamlParsing.NodeRead | yaml/parser.c:528-1203 | over the tokens of any node (alias, scalar, bare properties, block, indentless and flow collections, with nodes left out) the parser delivers the events of its tree and returns to the state on top of the stack |
| YamlParsing.StreamRead | yaml/parser.c:225-1203 | over the tokens of any documents, implicit or with directives, the parser delivers the events of their trees without an error and is at the end of the stream then |
| YamlParsing.ParseDocuments | yaml/parser.c:169-190 | calling Parse to the end over these tokens gives exactly these events |
| YamlAccepting.AcceptsExactly | yaml/parser.c:225-1203 | without an empty key in a pair of a flow sequence, the parser gets through tokens to the end exactly if they are those of some documents, and its events are those of their trees |
| YamlAccepting.EmptyKeyLost | yaml/parser.c:1028-1033 | with such a key it may not: over the tokens of [? : a] it stops after the end of the pair |
| YamlEmission.EndFlushes | yaml/emitter.c:308-357 | once the end of the stream is in the queue, nothing is held back |
| YamlEmission.LookAhead | yaml/emitter.c:1101-1122 | when the start of a collection is taken up, the queue shows whether the collection is empty |
| YamlEmission.Machine.StateMachine | yaml/emitter.c:423-488 | in every stage, every event the grammar allows is expected, and the stage that follows stands for the same open nodes; a collection is begun in flow style exactly if it lies within one in flow style, is empty, or is to be, and within a flow collection there are flow collections only |
| YamlEmission.Machine.Emit | yaml/emitter.c:280-357 | for any stream of events, none is unexpected and no stack is popped empty; at most three events are held after a call, and after the end of the stream everything is written and closed |
| YamlPipe.ParseThenEmit | yaml/emitter.c:280-299 | for any tokens, the events of the parser are taken by the emitter without an unexpected event |
| YamlPipe.DocumentAccepted | yaml/dumper.c:111-157 | the events of a document with anchors are what the grammar expects of a root node |
| YamlLoader.Loader.LoadNode | yaml/loader.c:200-222 | loading consumes exactly the events of the node and builds its nodes in the order in which they begin; it fails exactly on an undefined alias or an anchor met twice |
| YamlLoader.Loader.LoadMapping | yaml/loader.c:376-431 | loading a mapping takes keys and values in turn up to its end, although the node under construction can be referred to meanwhile |
| YamlDumper.Dumper.AnchorNode | yaml/dumper.c:206-238 | on every graph, cyclic or not, the walk ends; every node is counted once for each visit, and has an anchor, different from all others, exactly if it is counted twice or more |
| YamlDumper.Dumper.DumpNode | yaml/dumper.c:263-294 | a node is written at its first visit and as an alias at every other, in the order of the same walk |
| YamlDumper.DumpDocument | yaml/dumper.c:111-157 | every node is taken up exactly as often as it was counted |
| YamlReload.LoadShape | yaml/loader.c:319-431 | the graph loaded has the shape of the document: every node where it begins, every alias an index given before |
| YamlReload.DumpLoaded | yaml/dumper.c:263-393 | the dump of a loaded graph begins every node where the document has it and writes an alias exactly where the document has one |
| YamlReload.TraceCount | yaml/dumper.c:206-238 | a node is visited once where it is defined and once for every alias that stands for it |
| YamlReload.LoadThenDump | yaml/dumper.c:111-157 | for every document, aliases into an enclosing node included: loading and dumping gives the same events, with anchors renamed consistently, used ones kept apart and unused ones dropped |

## Left out

- Price estimation and GetOptimum's search for the cheapest parse: they affect only the compression ratio;
  any truthful choice is covered by `Stream.CodecRoundTrip` and `Encoder.LzmaEnc.CodePacket`.
- The finders Hc4, Bt2, Bt3 and those for Zip, the multithreaded finder and the direct input mode.
- Allocation failures, read and write errors, progress callbacks, and the 32-bit limit of the buffer sizes.
- LZMA2's partial resets of dictionary and state (LzmaDec_InitDicAndState with false arguments).
- The state after SZ_ERROR_DATA: only the reason of the refusal is stated.
- 64-bit counters (nowPos64, the encoder's low) are unbounded numbers; 32-bit values are bounded and wrap
  as in the code.
- The encoder's probability arrays are one map from cells, with 1024 where nothing was written yet; the
  output stream and tempBuf are byte sequences.
- Hash heads and tree links are two arrays, renumbered one after the other; in the code they lie in one block.
- The distances array is a sequence of pairs. The crc table and the size of the hash are parameters, with the
  property of the table that the finder's initialisation gives it.
- Bit operations on disjoint bits (`|`, `<<`, masks) are written as arithmetic.
- In the dispatch model the linked lists under their spin locks are sequences and a push or pop is one step;
  reading a counter, creating, deleting or testing a file is one step each. The model is a state machine on
  values, since what is stated is about all interleavings.
- A path enters a monitored directory once between two crashes, and every file arrives once. Truncation of
  file names, several monitor groups over the same servers, shutdown and the timing of retries (cur_rc,
  cur_fst) are not modelled; the outcome of retries, the choice among a group's servers and the result of
  the library call are left to the environment.
- Of the YAML library: block, plain and single-quoted scalars, comments, directives, and tags and anchors in
  the text. The scanner's queue takes lexemes with their marks, in the order of the text; how the dispatcher
  tells them apart by their characters is not modelled.
- The reader's buffers, the queue and the stacks are sequences; capacity is stated for the reader only. Emitter
  and scanner of quoted scalars work on characters; `YamlStream` links them to octets.
- Read and write errors of the handlers.
- The loader's default tags and the implicit flags of the dumper: what an event carries besides its anchor is one
  value that loading and dumping keep. Generated anchors are their numbers, which determine their text.
- YamlAccepting.AcceptsExactly: says nothing about runs that meet an empty key in a pair of a flow sequence, because
  the parser skips a token there; balance is what `YamlParser.Parser.Parse` claims for them.
- The parser's events and tokens carry neither text nor marks; handles of tag directives are numbers. Whether
  the emitter refuses an anchor, a tag or a scalar, and whether a key is simple, is left open.
