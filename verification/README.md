# Verified model of the media receive path

moonlight-common-c receives audio and video as RTP packets over a lossy network. This project models
the parts of it that decide what the decoders get, and proves what they promise: the Reed-Solomon
codec with its arithmetic and kernels, the two receive queues built on it, the depacketizer behind the
video queue, and three smaller pieces (the blocking queue between threads, batching of relative mouse
motion, and the RTSP messages).

`dafny verify dfyconfig.toml` checks everything.

- **Field and kernels.** `Gf256` defines multiplication in GF(2^8) with polynomial 285 by shift and xor,
  and proves the ring laws. `Gf256Tables` transcribes LOG, EXP and INV and proves that they are the
  logarithm, the powers of 2 and the inverse. `Oblas` models `obl_axpy` and `obl_scal`: the nibble-split
  kernel for registers of 16, 32 or 64 bytes with its scalar tail is the byte-wise product.
- **Codec.** `Elimination` is the theory behind eliminating without pivoting: no pivot of a Cauchy matrix
  is zero. `Systems` says what elimination and back substitution do to a system of equations.
  `ReedSolomon` is the codec on its buffers, in place, up to the theorem that encoding, losing shards and
  decoding gives the data back.
- **Audio.** `AudioControl` is the control state of the audio queue with its invariant and the order of
  what is played over whole runs; `AudioRuns` and `AudioExact` say which blocks are played without a gap;
  `AudioFec` is the fixed parity matrix and the sender's packets; `AudioQueue` the queue itself, which
  refines the control state and keeps the contents the sender's; `AudioPlaces` and `AudioDelivery` tie
  what is played to the sender's stream, of whose positions the packets only tell 16 bits.
- **Video.** `VideoWindow` is the bookkeeping of one FEC block, `VideoStaging` the loop that puts packets
  in order, `VideoRecovery` and `VideoCompletion` what recovery gives back, `VideoQueue` the queue,
  `VideoDelivery` what it makes of an honest sender's packets over whole runs, and `VideoRuns` which
  frames it is sure to pass on.
- **Depacketizer.** `AnnexB` cuts byte streams at start codes; `DepacketizerControl` is the state machine
  for lost frames, IDR frames and reference frame invalidation; `Depacketizer` the object that carries it
  out; `DepacketizerRuns` what the decoder is to be guaranteed, `DepacketizerGuarantee` exactly when it is,
  and `DepacketizerFrames` which frames are passed on, with which bytes.
- **The rest.** `BlockingQueue` is the linked list under its mutex and the interleavings of any number of
  threads; `MouseBatching` the callers and the send thread that share the motion deltas; `RtspMessage` and
  `RtspParser` writing and reading RTSP messages.

Findings about the code:

- The scratch space of the codec suffices exactly if not all of D = P > 1 data shards are lost
  (`ScratchFits`); in that case `scal` at nanors/rs.c:60 runs past it.
- The audio queue uses 0 as its mark for "not synchronized". A resynchronization to a block with base 0
  before any block is complete can break its block list: `CollisionBreaksInvariant` says exactly when,
  `CollisionRun` gives three packets that do it.
- The signalling of the blocking queue is right for one consumer, and for no larger number
  (`WakeupsExact`).
- The audio queue hands the next packet in order to the player before it looks whether its block is now
  complete (src/RtpAudioQueue.c:600-620). So four of the six shards of a block do not always suffice: if
  the fourth is the next packet in order, the others are not recovered, and a stand-in is played for a
  packet that could have been. `BlockExact` says exactly when a block is played whole, `FourNotPlayed`
  gives the run.
- If an IDR frame that the decoder has asked for is found corrupt half way, and the decoder supports
  reference frame invalidation, the depacketizer settles for an invalidation. From then on some whole frame
  makes it pass on what the decoder cannot use; `GuaranteeExact` and `RunExact` say that this is the only
  way, `NeededIdrLost` gives a run. Frames whose packet numbers follow one another and whose length field is
  right cannot be lost that way (`TidyIsSound`).

## Model

| member | source | states |
|---|---|---|
| Gf256.MulAssociates | nanors/deps/obl/gf2_8_tables.h:7-80 | the shift-and-xor product modulo 285 is associative |
| Gf256.MulXorLeft | nanors/deps/obl/gf2_8_tables.h:7-80 | the product distributes over xor |
| Gf256.MulCommutes | nanors/deps/obl/gf2_8_tables.h:7-80 | the product is commutative |
| Gf256Tables.ExpIsPower | nanors/deps/obl/gf2_8_tables.h:27-60 | every entry of EXP is the power of 2 of its index |
| Gf256Tables.LogIsExponent | nanors/deps/obl/gf2_8_tables.h:7-25 | LOG of a non-zero byte is the exponent that gives the byte |
| Gf256Tables.LogExpProductIsMul | nanors/deps/obl/oblas_lite.c:10-18 | EXP of the sum of the logarithms is the product; zero factors give zero |
| Gf256Tables.InvTableInverts | nanors/deps/obl/gf2_8_tables.h:62-80 | every non-zero byte times its INV entry is 1 |
| Oblas.RegisterProductIsMul | nanors/deps/obl/oblas_lite.c:133-152 | masking a register for the low nibbles, shifting its 64-bit lanes for the high ones, and looking both up gives the product of every byte |
| Oblas.ShufAxpy | nanors/deps/obl/oblas_lite.c:133-152 | for every length, offset, factor and register width the kernel with its scalar tail adds the factor times the source, byte by byte, and touches nothing else |
| Oblas.ShufScal | nanors/deps/obl/oblas_lite.c:188-207 | the same for scaling in place |
| Oblas.OblAxpy | nanors/deps/obl/oblas_lite.c:253-262 | adds the factor times the source to the target, for any length |
| Oblas.OblScal | nanors/deps/obl/oblas_lite.c:264-267 | multiplies every byte by the factor |
| Elimination.CauchyEliminable | nanors/rs.c:58-67 | elimination without pivoting meets no zero pivot in any scaled Cauchy matrix with distinct nodes; each step leaves a scaled Cauchy matrix |
| Systems.SolvesAdded | nanors/rs.c:62-66 | adding a multiple of one equation to another keeps the solution, in every byte column in which it is one |
| ReedSolomon.Codec.InvertMat | nanors/rs.c:42-76 | with an eliminable system and enough scratch space the targets end up as the unknowns, the matrix and the other shards unchanged |
| ReedSolomon.Codec.Encode | nanors/rs.c:172-178 | every parity shard is the product of its matrix row with the data, the data unchanged; too few shards are refused |
| ReedSolomon.Codec.Decode | nanors/rs.c:128-170 | returns 0 exactly if at least ts shards are passed and as many survive behind the data as data shards are lost; if the first ts suffice, every data shard gets back the code word in every byte column in which the survivors belong to one, and survivors and matrix are unchanged |
| ReedSolomon.ScratchFits | nanors/rs.c:60 | in a buffer of the codec's own size, the square of the lost shards with the overrun of the last pivot fits exactly if not all of ds = ps > 1 are lost |
| ReedSolomon.CauchyDecodable | nanors/rs.c:98-102 | with the codec's own matrix every recoverable erasure leads to an eliminable system |
| ReedSolomon.NewStatic | nanors/rs.c:82-105 | fails exactly for shard numbers out of range or too small a buffer; else the matrix is Cauchy |
| ReedSolomon.EncodeLoseDecode | nanors/rs.c:128-178 | encoding, losing any shards as long as ds survive, and decoding gives back all data, whatever the lost buffers hold; the surviving parity shards still are the data's parity, the lost ones and the matrix are left alone |
| SequenceNumbers.BeforeMeansBehind | src/Limelight-internal.h:72-76 | "before" is at most half the circle behind; at exactly half each of two numbers is before the other; distinct numbers are always comparable |
| SequenceNumbers.BeforeInWindow | src/Limelight-internal.h:72-76 | inside half a circle the comparison is that of the distances from its origin |
| AudioFec.OpenFecDecodable | src/RtpAudioQueue.c:57-58 | with the substituted 2 x 4 matrix every recoverable erasure meets no zero pivot: all its square minors are non-zero |
| AudioFec.FourSuffice | src/RtpAudioQueue.c:399-420 | shards are recoverable exactly if at least four of the six are there |
| AudioControl.AddKeeps | src/RtpAudioQueue.c:564-658 | a packet keeps the block list sorted, 4-aligned, free of duplicates and within half a circle above the oldest number, with the next packet in the head; the next number moves only by handing that very packet out or by jumping forward to the start of the head block |
| AudioControl.AddAnchored | src/RtpAudioQueue.c:515-658 | once the head is the block of the next number, nothing moves that number until something is handed out |
| AudioControl.GetKeeps | src/RtpAudioQueue.c:660-729 | taking out yields the next number, or nothing exactly if nothing is ready, moves on by one, keeps the invariant and gets nearer to an empty list |
| AudioControl.RunKeepsInv | src/RtpAudioQueue.c:61-103 | in every run without sentinel collision and incompatible server, from any state with the invariant, every packet can be received and the invariant holds after it |
| AudioControl.RunDeliversInOrder | src/RtpAudioQueue.c:515-729 | in such runs every unit carries the number of its position, and each comes right after the one before or jumps forward by less than half a circle to the start of a block: nothing is delivered twice or backwards |
| AudioControl.StreamInOrder | src/RtpAudioQueue.c:564-729 | the same from the start of the stream, with nothing assumed about the states in between |
| AudioControl.NumberAtWraps | src/RtpAudioQueue.c:288-300 | the number that a packet carries is its position modulo 2^16 |
| AudioControl.CollisionBreaksInvariant | src/RtpAudioQueue.c:292-295 | in a sentinel collision the next packet keeps the invariant if and only if no waiting block lies before the new start and the head has not begun to play |
| AudioControl.CollisionRun | src/RtpAudioQueue.c:288-300 | three packets from the start of the stream after which the invariant does not hold |
| AudioQueue.RtpAudioQueue.AddPacket | src/RtpAudioQueue.c:564-658 | does to the blocks what the control state says, and keeps all stored data and parity the sender's |
| AudioQueue.RtpAudioQueue.RecoverBlock | src/RtpAudioQueue.c:399-505 | from any four honest shards the block ends with all four packets of the sender, header fields and payload byte for byte |
| AudioQueue.RtpAudioQueue.GetQueuedPacket | src/RtpAudioQueue.c:660-729 | returns the sender's packet of the next number, or the placeholder of one given up as lost, exactly if something is ready |
| AudioRuns.OwnShard | src/RtpAudioQueue.c:564-658 | a shard of the block that is waited for has exactly the effect of a small reference machine for one block: the next packet is handed out at once, any other shard completes the block from four shards on, and what is in order follows |
| AudioRuns.InTurnPlays | src/AudioStream.c:325-376 | in every run whose blocks come in turn, shards in any order and repeated, with late packets in between, and with nothing of a block missing when the next one begins, all packets of all blocks but the last are played in order without a gap or a stand-in |
| AudioExact.PlaysExact | src/RtpAudioQueue.c:600-650 | nothing of a block is missing exactly if all four of its packets have come, or one of its shards made four and was not the next packet itself |
| AudioExact.TurnExact | src/RtpAudioQueue.c:515-562 | while no late data has been seen, the next block begins without a stand-in for a packet of this one if and only if nothing of this one is missing |
| AudioExact.BlockExact | src/RtpAudioQueue.c:564-658 | both together, over every order in which the shards of a block come: exactly when the block is played whole |
| AudioExact.FourNotPlayed | src/RtpAudioQueue.c:600-620 | four of six shards, the first packet, both parity shards and the second packet, after which a stand-in is played |
| AudioPlaces.BlocksStay | src/RtpAudioQueue.c:194-395 | every waiting block keeps the one position in the unbounded stream that its number stands for |
| AudioDelivery.PlaySent | src/AudioStream.c:325-376 | over whole runs of an honest sender's packets in any order and with any losses, none of them half a circle too early or too late, what is played is in order and is the sender's packet of its position in a stream of any length |
| AudioDelivery.PlayInTurn | src/AudioStream.c:325-376 | when the blocks come in turn, what is played are the sender's packets from the position on, every one of them |
| VideoWindow.WindowExact | src/RtpVideoQueue.c:544-547 | in spite of wrapping numbers the comparisons accept exactly the places from the next one in order to the end of the block |
| VideoWindow.EnqueuedInv | src/RtpVideoQueue.c:728-769 | taking in an accepted packet keeps numbers distinct, parity marked, data and parity counted, the highest number known and the holes below it counted exactly |
| VideoWindow.FastIsContiguous | src/RtpVideoQueue.c:117-131 | on the fast path the packets held are exactly those from the first to the one before the next |
| VideoWindow.PredictionExact | src/RtpVideoQueue.c:209-225 | with fewer packets than needed, more holes than parity packets means exactly that no set of packets above the highest received could complete the block |
| VideoStaging.StageAll | src/RtpVideoQueue.c:465-524 | the staging loop ends for every list of distinct packets within half a circle, drops exactly the parity packets, and yields exactly the data packets in ascending order |
| VideoRecovery.DecodeBlock | src/RtpVideoQueue.c:247-345 | with enough packets and a block the codec can hold, every byte column in which all packets are the sender's comes back |
| VideoCompletion.StagedWhole | src/RtpVideoQueue.c:465-524 | staging complete data yields the packets from the first number to the last, each once, in order |
| VideoCompletion.ReachedKeeps | src/RtpVideoQueue.c:694-769 | whatever packets a block has taken in one after the other, the invariant of its window holds |
| VideoQueue.RtpVideoQueue.EnoughCompletes | src/RtpVideoQueue.c:193-235 | on a generation 5 host, with at most 255 packets in the block, exactly any D distinct packets complete it |
| VideoQueue.RtpVideoQueue.RecoverBlock | src/RtpVideoQueue.c:236-462 | if all recovered packets pass the checks the block has all its data, received packets unchanged and honest columns the sender's; with honest flags they all pass |
| VideoQueue.RtpVideoQueue.AddPacket | src/RtpVideoQueue.c:543-799 | a packet is taken in exactly if it is not behind, has its header, continues or begins a block, is inside it and new; then the block is completed exactly if it can be, staged whole and in place, and the frame passed on after its last block; the reports of lost frames, early and late, are exactly as stated |
| VideoQueue.OnwardIncreasing | src/RtpVideoQueue.c:784-795 | frame numbers passed on stay strictly increasing and below the current one |
| VideoDelivery.OutcomeHonest | src/RtpVideoQueue.c:770-799 | from honest packets no recovered packet fails the checks, and what is staged and passed on is the sender's |
| VideoDelivery.ReceiveAll | src/RtpVideoQueue.c:543-799 | over whole runs of an honest sender's packets, in any order, lost or repeated: only whole frames with all their blocks in order, every packet the sender's in flags and payload, in strictly increasing order |
| VideoDelivery.Stream | src/RtpVideoQueue.c:19-25 | the same from the start of the stream |
| VideoRuns.ReceiveBlock | src/RtpVideoQueue.c:543-799 | as soon as as many different packets of a block have come as it has data packets, in any order, repeated, and with late packets in between, the block is completed and the queue moves on; only a packet that would make the codec overflow can prevent it |
| VideoRuns.ReceiveFrame | src/RtpVideoQueue.c:543-799 | a frame of all of whose blocks enough packets come in turn is passed on, as the sender's, whatever the queue did before |
| VideoRuns.ReceiveStream | src/RtpVideoQueue.c:543-799 | of a stream of such frames, with other frames lost as a whole, exactly these frames are passed on, each once, in order |
| AnnexB.StartLengthExact | src/VideoDepacketizer.c:158-191 | a start code is found exactly where Annex B.1 of ITU-T H.264 has one, three or four bytes long, with a header byte behind it |
| AnnexB.SkipToNextNalOrEnd | src/VideoDepacketizer.c:420-439 | moves to the first start code behind the present one, or to the end |
| AnnexB.PiecesCover | src/VideoDepacketizer.c:654-713 | the slow path's pieces lie one behind the other and cover the packet; each starts on a start code and runs to the next, delimiters and SEI are left out, an IDR slice takes all the rest, and only a last piece can be empty |
| AnnexB.ProcessSlow | src/VideoDepacketizer.c:654-713 | the chain is made of exactly the pieces kept, in order; the packet's own buffer is used at most once, for the last one, and exactly if an IDR slice was met |
| Depacketizer.VideoDepacketizer.ProcessRtpPayload | src/VideoDepacketizer.c:745-1126 | does to waits, numbers, chain, requests and submitted frames what the state machine says, and keeps the chain's length the sum of its fragments |
| Depacketizer.VideoDepacketizer.NotifyFrameLost | src/VideoDepacketizer.c:1132-1156 | the same for a frame reported lost |
| DepacketizerRuns.PacketExact | src/VideoDepacketizer.c:785-1126 | a packet of a whole frame keeps the invariant behind the guarantee to the decoder if and only if it does not give up an IDR frame that had ended the wait for one while the decoder has none to go by |
| DepacketizerGuarantee.LossIsFatal | src/VideoDepacketizer.c:99-131 | after every packet that gives up such a frame some whole frame makes the depacketizer pass on what the decoder cannot use, for every codec |
| DepacketizerGuarantee.GuaranteeExact | src/VideoDepacketizer.c:785-1126 | all that the decoder gets up to the end of the next frame is in order, whatever that frame is, if and only if the packet does not give up such a frame |
| DepacketizerGuarantee.RunExact | src/VideoDepacketizer.c:469-1156 | over whole runs of whole frames and reported losses the guarantee holds at every point if and only if no such frame is given up |
| DepacketizerGuarantee.TidyIsSound | src/VideoDepacketizer.c:785-798 | frames whose packet numbers follow one another and whose length field fits are never given up half way, whatever state the depacketizer is in |
| DepacketizerGuarantee.TidyIsServed | src/VideoDepacketizer.c:469-1156 | so in every run of such frames and reported losses from the start all that the decoder gets is in order, with invalidation or without |
| DepacketizerGuarantee.ServeTidy | src/VideoDepacketizer.c:745-1156 | the same of the object |
| DepacketizerFrames.FrameExact | src/VideoDepacketizer.c:745-1126 | such a frame is passed on exactly if it is not behind, is not numbered backwards, and is an IDR frame or what is waited for; then the decoder gets it with its number, its kind and all its fragments |
| DepacketizerFrames.FrameBytes | src/VideoDepacketizer.c:960-1075 | a frame whose first packet is not taken apart is passed on byte for byte, from behind its header to the padding at its end |
| DepacketizerFrames.SteadyRun | src/VideoDepacketizer.c:1077-1126 | while nothing is waited for, every frame that follows on is passed on, with all its bytes |
| DepacketizerFrames.RecoversAfter | src/VideoDepacketizer.c:1077-1126 | after any run of such frames and losses, an IDR frame is passed on and every frame that follows on |
| DepacketizerRuns.FreshExact | src/VideoDepacketizer.c:285-297 | "fresh" means that some IDR frame was accepted and every frame since |
| DepacketizerRuns.DecoderIsServed | src/VideoDepacketizer.c:469-1156 | in every run in which no needed IDR frame is given up each frame passed on follows the one before, is an IDR frame or ended a wait for an invalidation, and frames that are no IDR frames come only while the decoder has one to go by |
| DepacketizerRuns.Serve | src/VideoDepacketizer.c:745-1156 | the same of the object that carries it out |
| DepacketizerRuns.StrictIsSound | src/VideoDepacketizer.c:99-131 | with decoders without invalidation no run loses the guarantee |
| DepacketizerRuns.NeededIdrLost | src/VideoDepacketizer.c:785-798 | a run of whole frames in which the decoder gets a frame it cannot use |
| BlockingQueue.LinkedBlockingQueue.Offer | src/LinkedBlockingQueue.c:85-131 | appends within the bound, refuses after shutdown or drain, and signals exactly when the queue was empty; the links stay those of the list |
| BlockingQueue.LinkedBlockingQueue.Wait | src/LinkedBlockingQueue.c:200-249 | the answer of a consumer that has something to wake up for: shutdown before user wake before items before drain |
| BlockingQueue.LinkedBlockingQueue.Flush | src/LinkedBlockingQueue.c:14-36 | hands out the whole chain with its links and empties the queue |
| BlockingQueue.WakeupsExact | src/LinkedBlockingQueue.c:60-131 | in all interleavings no consumer sleeps while there is something to wake up for and no signal on its way, if and only if there is at most one consumer |
| BlockingQueue.FirstInFirstOut | src/LinkedBlockingQueue.c:85-198 | in all interleavings items leave once, in the order they were accepted, and the bound is kept |
| BlockingQueue.DrainedFirst | src/LinkedBlockingQueue.c:223-227 | unless the queue is shut down, an interrupted consumer means that every item ever accepted has left |
| MouseBatching.SendAll | src/InputStream.c:378-422 | the split loop ends; its packets fit 16 bits, add up to the delta, and no shorter list of packets does |
| MouseBatching.RunKeeps | src/InputStream.c:707-771 | in all interleavings accepted motion is sent, in hand or stored; dirty holds exactly when one holder is prepared, queued or processed; nothing is left lying unless a holder was refused |
| MouseBatching.AllSent | src/InputStream.c:707-771 | whenever nothing is pending and no holder was refused, exactly the accepted motion has been sent |
| RtspMessage.RoundTrip | src/RtspParser.c:55-412 | reading a written message gives back its start line, its options in order and its payload, and the sequence number of its CSeq option |
| RtspParser.GetMessageLength | src/RtspParser.c:10-52 | one byte more than the written message takes |
| RtspParser.SerializeRtspMessage | src/RtspParser.c:295-412 | no append fails; the buffer holds the written message and has one byte to spare |
| RtspParser.Strtok | src/RtspParser.c:92-170 | cuts the next token out in place, writing only the byte behind it |
| RtspParser.ParseRtspMessage | src/RtspParser.c:55-236 | reading in place gives what the specification of reading says, malformed messages included |

## Left out

- Decode: when shards beyond the codec's own are needed, only the return value is given; the source takes them for rows beyond the parity matrix.
- Decode: with too few survivors the source reads marks past the last shard before it returns -1; the model stops at the last one.
- AddPacket: for a video block with as much parity as data of which all data is lost, nothing is promised: the source then writes past the codec's memory.
- PlaySent: runs in which a packet comes half a circle of numbers away from where the queue is are left out; its number then stands for another position.
- InTurnPlays: blocks that come interleaved, and the waiting for late data by the clock, are left out of what is sure to be played; the order and the contents are proved for them too.
- ReceiveStream: hosts before generation 5 and blocks of more than 255 packets are left out of what is sure to be passed on; these need all their data packets.
- RecoversAfter: the decoder accepts every frame of the run that is sure to be passed on.
- RunKeepsInv: runs that meet the sentinel collision or an incompatible server are left out; for the collision the exact condition is given.
- ReceiveAll: a run ends at a frame number half a circle or more away from the current one, at the last of all 32-bit frame numbers, and where the codec would overflow.
- SendAll: sums of mouse deltas are unbounded here and `int` in the source.
- ParseRtspMessage: a message that ends with a content makes the source look at one byte past its buffer; the model takes the byte for one that is no LF.
- Lists of blocks, packets and fragments are sequences; their links, free lists and allocation are modelled for the blocking queue only.
- Allocation failure, logging, statistics, receive times, presentation times other than those that guard reordering, and the FEC status reports to the host.
- The debug build's FEC validation mode.
- The duration of audio packets enters its timeout as the source has it, milliseconds times four against microseconds.
- The depacketizer with a queue between it and the decoder; here the decoder takes its frames directly, and answers that a frame is accepted or that it needs an IDR frame.
- Annex B filler and the debug checks of the NAL units met on the way to the end of an IDR packet.
- Hosts before version 7.1.350, for the guarantee to the decoder: there a wait for an invalidation ends at the next frame whatever it is.
- Sockets, ENet, threads, encryption, the RTSP handshake, SDP, control messages, and the batching of other input than relative mouse motion.
- The table `gf2_8_mul_table.h` is not part of this model; the scalar kernels are modelled in the form with LOG and EXP.
