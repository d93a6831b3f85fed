# Verified model of the group chat software

This project models six parts of the chat software in Dafny and proves properties of them.

* **The incremental MD5 engine** (`server/MD5.cpp`, `server/MD5.h`), against section 3 of RFC 1321.
  `Engine.dfy` has class `MD5` with its buffer, counter, state and digest as arrays updated in place.
  Every method is tied to a function of the part of the object that decides later digests
  (`Engine.MD5.View`), and `Stream.dfy`, `Digests.dfy`, `Compression.dfy`, `Rounds.dfy` and
  `Collision.dfy` prove what the standard and the design promise about those functions.
  `ChunkLoop.dfy` settles for which lengths the 32-bit sum in the chunk loop is right.
  `WordNumbers.dfy` says what the operations on words and bytes are as numbers, and `KnownDigest.dfy`
  proves the digest that section A.5 of the RFC publishes for "abc", step by step: between them they
  hold every operation, table and constant by something outside the model.
* **The select loop of the server** (`server/TCPServer.cpp`) together with the session bookkeeping it
  calls (`server/Connections.cpp`). `TcpServer.dfy` has classes `Connections`, `Kernel` and
  `TCPServer`; `Descriptors.dfy`, `Sessions.dfy`, `Lines.dfy` and `Server.dfy` hold the state machine
  and its invariants, from the bytes that arrive to the bytes that are written.
* **The messages of a connection** (`recv_header` to `send_data` of `server/Connections.cpp`): how
  partial reads are cut into messages and messages become partial writes (`Framing.dfy`, and the two
  halves of a connection as objects in `MessageIo.dfy`), what the messages look like (`Messages.dfy`),
  and what `parse` and the handlers find in them (`Requests.dfy`).
* **The conversation between the server and its clients.** `Client.dfy` is how
  `chat_client/TcpClient.cpp` reads what it is sent. `Protocol.dfy` says, from the bytes of a message and
  the answers of the database alone, what the message ends, whom it logs in and what every client then
  reads, and proves that the server does just that; `Conversation.dfy` carries this over whole runs.
* **The partial-I/O loops** `read_from_fd` and `write_to_fd` (`server/common.cpp`), run against an
  operating system that may interrupt, refuse, shorten or fail any call (`PartialIo.dfy`).
* **The contact list** (`chat_client/ContactsModel.cpp`) and the row signals it emits to views
  (`Contacts.dfy`).

## Conventions

Words are `bv32` and bytes `bv8`. Lengths and counters, which index memory, are integers below 2^32
whose wrap-around is written out (`Words.Add32`, `Stream.CountUp`). A method that changes an object
states its whole new state as a function of the old one; the lemmas about that function are the
properties. `hide` statements keep definitions away from proofs that do not need them.

The environment is adversarial and explicit: an operating system that answers system calls from a
script, a kernel that hands out the lowest free descriptor, ready sets chosen freely by `select`,
clients that send any bytes at any time, a database that answers anything. Other code of the process, the
database client and the system log, opens and closes descriptors of its own whenever it is called. A
script that is used up answers as if every further call would block.

## Where the code differs from what is written about it

* `server/TCPServer.h` calls `_num_fd` the number of opened files. It counts the listening
  descriptor, those below it and the clients. The constructor of `Connections` opens a database
  connection after the listening socket exists (`server/TCPServer.cpp:16-17`,
  `server/Connections.cpp:14`), and the first message to the system log may open a descriptor
  (`server/Connections.cpp:32`); neither is counted. `Descriptors.AcceptedFits` and
  `Server.TakeFits` say exactly when the next descriptor still fits an `fd_set`, and
  `TcpServer.TCPServer.AcceptAll` and `Pass` exactly when one is accepted that does not. The model
  stops there with the verdict `Overflowed`.
* A client's bytes can end the process, by an assertion, an exception that nothing catches or a read
  where there is nothing. `Sessions.ReceiveAborts` is the exact condition over every request, and
  `Server.EndsWhen` the one over the bytes of a call. The kinds are: a request for users only from a
  client that has not logged in; a second login on a descriptor, unless it succeeds for the user that
  is logged in there; a first login of a user that is online; a login when the database gives fewer
  users than are then online, as it does when its query fails; a public text, saved, to one user who is
  offline; a file message to one who is offline; a text shorter than the number of its receiver, unless
  the database refuses it first; a text without a body, and file data without a body on a descriptor
  over which no body has come yet (`Sessions.BodylessMessages`); and, when it is sent, a message of more
  than 65535 bytes.
* `push_userlist` fixes the sizes of its two lists before it fills them. A login writes past the end of
  a list if and only if it is not of the kinds above and the lists do not fit (`Sessions.ReceiveAborts`);
  with every user listed once, that is when the database misses a user that is online
  (`Sessions.ListsFill`). The model stops there with the verdict `Overrun`.
* `recv_msg` treats a read of no bytes as the end of the stream. `read_from_fd` also returns 0 when a
  read would block, so a client is closed although it is alive, if one call completes its header before
  any byte of the body has arrived. `Framing.GivenUpExactly` and `Framing.LiveClientGivenUp` are the exact
  conditions; `Framing.EndsExactly` and `Framing.LiveReaderGivenUp` are those for writing.
* A header that announces less than its own size is answered in every later call, and nothing more is
  read from that client (`Framing.Cut`). A message without a body is parsed with the data of the
  message before it (`MessageIo.Inbox.RecvData`).
* `update` is correct up to a length that depends on how full the buffer is, not for every 32-bit
  length. `ChunkLoop.LoopIsBounded` is the exact bound; `Engine.MD5.Update` requires it, and the runs
  of `Digests.Run` are those in which every call keeps to it.
* `parse_transfile_ack` passes the news that a file has arrived on as 0xA9, a part of a file
  (`server/Connections.cpp:725`), where the clients wait for 0xAA (`chat_client/TcpFileClient.cpp:22`)
  and where `push_transfile_ack` was written for it (`server/Connections.cpp:757-766`). Whatever is sent,
  0xAA is only ever heard as a refusal (`Protocol.SuccessUnheard`).
* Row signals are faithful but for one case: setting the only contact of the list online announces
  row 1, while the contact becomes row 0. `Contacts.ReplicaInStep` states this as an equivalence.

## Model

| member | source | states |
|---|---|---|
| `Words.RotateInverse` | server/MD5.cpp:46-48 | rotation by any of the sixteen amounts is undone by rotating back, from both sides |
| `WordNumbers.FChooses` | server/MD5.cpp:29-31 | where the first argument has ones F has the bits of the second, elsewhere those of the third |
| `WordNumbers.GChooses` | server/MD5.cpp:33-35 | where the last argument has ones G has the bits of the first, elsewhere those of the second |
| `WordNumbers.HFlips` | server/MD5.cpp:37-39 | flipping bits of any argument flips the same bits of H, and H of zeros is zero |
| `WordNumbers.IFlips` | server/MD5.cpp:41-43 | I differs from its second argument everywhere where the third has a zero, and elsewhere where the first has a one |
| `WordNumbers.RotateIsNumber` | server/MD5.cpp:46-48 | rotation by every n below 32 is multiplication by 2^n, with what leaves 32 bits at the top added at the bottom |
| `WordNumbers.WordIsNumber` | server/MD5.cpp:105-110 | a word is the number whose digits to the base 256 are its bytes, low-order byte first |
| `WordNumbers.ByteIsDigit` | server/MD5.cpp:116-124 | byte k of a word is digit k of its number |
| `WordNumbers.ReadNumbers` | server/MD5.cpp:105-110 | every word that decoding gives, as a number |
| `WordNumbers.StoredDigits` | server/MD5.cpp:116-124 | every byte that encoding gives, as a digit of its word |
| `WordNumbers.ToWordIsNumber` | server/MD5.cpp:276-277 | a counter word is the same number as a bit vector |
| `WordNumbers.CountDigits` | server/MD5.cpp:276-277 | the eight bytes made of the two counter words are the digits of the 64-bit count |
| `Codec.DecodeEncode` | server/MD5.cpp:105-124 | decoding undoes encoding on every sequence of words |
| `Codec.EncodeDecode` | server/MD5.cpp:105-124 | encoding undoes decoding on every length that is a multiple of four |
| `Codec.EncodeCount` | server/MD5.cpp:276-277 | the two counter words, encoded low word first, are the eight bytes of the 64-bit bit count, low byte first |
| `Codec.LittleEndianInjective` | server/MD5.cpp:276-277 | k bytes determine a number below 256^k |
| `Compression.TurnInverse` | server/MD5.cpp:52-66 | one operation on a register is undone by rotating right and subtracting, whatever the other registers hold |
| `Compression.StepInverse` | server/MD5.cpp:135-204 | each of the 64 steps has a two-sided inverse |
| `Compression.StepsInverse` | server/MD5.cpp:129-204 | for a fixed block the steps are a bijection on the four registers, after any number of them |
| `Compression.CompressIsPermutationPlusState` | server/MD5.cpp:129-209 | the block transformation is that permutation plus the word-wise feed-forward: the state can be recovered from the sum, no other state has the same difference, and every register value occurs |
| `Compression.RoundReadsEachWordOnce` | server/MD5.cpp:134-204 | each round reads each of the sixteen message words in exactly one of its steps |
| `Rounds.FourSteps` | server/MD5.cpp:134-204 | four operations that rename the registers are four steps of the loop that moves the values |
| `Rounds.FourFF` | server/MD5.cpp:134-150 | four FF calls with the words, shifts and constants of round 1 are four indexed steps |
| `Rounds.FourGG` | server/MD5.cpp:152-168 | the same for GG and round 2 |
| `Rounds.FourHH` | server/MD5.cpp:170-186 | the same for HH and round 3 |
| `Rounds.FourII` | server/MD5.cpp:188-204 | the same for II and round 4 |
| `Stream.FoldResume` | server/MD5.cpp:232-251 | folding may stop after any byte and resume from the state reached and the bytes left over |
| `Stream.PadLenIsLeast` | server/MD5.cpp:279-281 | padLen is between 1 and 64, and is the least positive length that leads to 56 modulo 64 |
| `Stream.PaddedByTable` | server/MD5.cpp:268-285 | the table prefix and the length bytes that finalize appends are the padding of the standard, and they complete a block |
| `Stream.LengthField` | server/MD5.cpp:276-285 | two length fields are equal exactly when the lengths agree modulo 2^61 |
| `Stream.LengthDigits` | server/MD5.cpp:276-285 | byte i of the appended length is digit i to the base 256 of the bit length modulo 2^64 |
| `Stream.PaddingInjective` | server/MD5.cpp:268-285 | different messages of any length have different padded forms |
| `Stream.PaddingSuffixFree` | server/MD5.cpp:268-285 | a padded form ends another one only if the lengths agree modulo 2^61; under 2^61 bytes no padded form is a proper suffix of another |
| `Stream.CarryTest` | server/MD5.cpp:224-226 | the sum is below its second operand exactly when it wrapped |
| `Stream.CountUpAdds` | server/MD5.cpp:224-227 | the carry test and the two shifts add eight times the length to the 64-bit counter, modulo 2^64 |
| `Stream.CounterMod64` | server/MD5.cpp:222-225 | the position in the block read off the low counter word is right even after that word wrapped |
| `Stream.AbsorbCoherent` | server/MD5.cpp:219-252 | after an update the number of live buffer bytes is again what the counter says |
| `Stream.SplitIndependence` | server/MD5.cpp:219-252 | from every prior context, two updates leave the state, counter and live bytes that one update with the joined input leaves |
| `Stream.AbsorbTracks` | server/MD5.cpp:219-252 | an update keeps the invariant: state is the fold of what was absorbed, the live bytes are its tail, the counter its bit length |
| `Stream.CloseOffEndsOnBoundary` | server/MD5.cpp:279-285 | the two closing updates always end on a block boundary with an empty live buffer |
| `Stream.FinalDigestIsMd5` | server/MD5.cpp:266-288 | finalising a context that has absorbed a message stores the digest of the standard for it |
| `Stream.StreamingRefinement` | server/MD5.cpp:219-298 | for every cut of a message into pieces, absorbing them in turn and finalising gives the one-shot digest of the whole, with state, live bytes and counter characterised before finalisation |
| `KnownDigest.DigestOfAbc` | server/MD5.cpp:88-314 | the one-shot digest of "abc", printed, is the text that section A.5 of RFC 1321 gives for it |
| `Digests.DigestFrozen` | server/MD5.cpp:274-306 | once finalised, no run of public calls changes the digest or its text |
| `Digests.HexDigestOfRun` | server/MD5.cpp:219-314 | over every run of public calls that return, on a new object, hexdigest is empty before the first finalize and ever after the digest of the bytes given before it |
| `Digests.UpdatesMerge` | server/MD5.cpp:219-252 | anywhere in a run of public calls one update may be made two; the run still returns and the whole object afterwards is the same |
| `Digests.UpdateAfterFinalize` | server/MD5.cpp:219-297 | an update after finalisation changes the context, absorbing on top of the final chaining state, and leaves the digest text alone |
| `Digests.SplitReturns` | server/MD5.cpp:222-243 | an input that update handles in one call is handled in two, wherever it is cut |
| `Hex.ParsePrint` | server/MD5.cpp:303-314 | the printed digest is lower-case hexadecimal only, and parsing it gives the bytes back |
| `Hex.PrintParse` | server/MD5.cpp:303-314 | whatever parses is the printed form of what it parses to |
| `Hex.PrintedDigits` | server/MD5.cpp:310 | a byte is printed as its two digits to the base 16, high one first |
| `Collision.WalkBack` | server/MD5.cpp:129-213 | two chains that end in the same state, neither input a suffix of the other, contain two different pairs of state and block mapped to one state |
| `Collision.CollisionReduction` | server/MD5.cpp:129-298 | two different messages with one digest, lengths not different and equal modulo 2^61, yield a collision of the block transformation taken from the two computations |
| `ChunkLoop.LoopIsBounded` | server/MD5.cpp:242-243 | the chunk loop ends, and reads inside its input, if and only if the length is below the bound at which the 32-bit sum wraps |
| `ChunkLoop.NeverStops` | server/MD5.cpp:242-243 | past that bound the loop guard holds in every pass |
| `ChunkLoop.BoundIsTight` | server/MD5.cpp:242-243 | with an empty buffer 2^32 - 65 is the last length that works |
| `ChunkLoop.NextFits` | server/MD5.cpp:242-243 | within the bound the position after the next chunk stays below 2^32 |
| `Engine.CopyBytes` | server/MD5.cpp:238-251 | memcpy replaces exactly the addressed range |
| `Engine.PrintByte` | server/MD5.cpp:310 | sprintf writes two digits and a zero, inside the buffer, and nothing else |
| `Engine.ReadsBack` | server/MD5.cpp:308-313 | a string constructor reads back the characters before the terminating zero |
| `Engine.MD5.constructor` | server/MD5.cpp:71-74 | a new object has absorbed nothing |
| `Engine.MD5.FromText` | server/MD5.cpp:79-84 | the object is finalised with the digest of the text, narrowed to its length modulo 2^32 |
| `Engine.MD5.Init` | server/MD5.cpp:88-100 | the context of section 3.3 |
| `Engine.MD5.Decode` | server/MD5.cpp:105-110 | the words of the addressed bytes, the rest of the output unchanged |
| `Engine.MD5.Encode` | server/MD5.cpp:116-124 | the bytes of the words, the rest of the output unchanged |
| `Engine.MD5.Round1` | server/MD5.cpp:134-150 | the unrolled calls of round 1 are the first sixteen indexed steps |
| `Engine.MD5.Round2` | server/MD5.cpp:152-168 | the unrolled calls of round 2 are the next sixteen |
| `Engine.MD5.Round3` | server/MD5.cpp:170-186 | the unrolled calls of round 3 are the next sixteen |
| `Engine.MD5.Round4` | server/MD5.cpp:188-204 | the unrolled calls of round 4 are the last sixteen |
| `Engine.MD5.Transform` | server/MD5.cpp:129-213 | for every state and block, the compression function of section 3.4 |
| `Engine.MD5.CountBits` | server/MD5.cpp:224-227 | the counter words after length more bytes |
| `Engine.MD5.FillAndTransform` | server/MD5.cpp:237-239 | the live bytes filled up from the input are compressed as one block |
| `Engine.MD5.TransformChunks` | server/MD5.cpp:241-243 | every complete chunk of the input is compressed once, in order, and less than a chunk is left |
| `Engine.MD5.Update` | server/MD5.cpp:219-252 | the context after absorbing the first length bytes of the input; bytes of the buffer past the live ones have no influence |
| `Engine.MD5.AppendPaddingAndLength` | server/MD5.cpp:275-285 | the context after the two closing updates |
| `Engine.MD5.Clear` | server/MD5.cpp:290-292 | buffer and counter are zero, the chaining state stays |
| `Engine.MD5.Finalize` | server/MD5.cpp:266-298 | the whole object after finalisation; no change when it was finalised before |
| `Engine.MD5.HexDigest` | server/MD5.cpp:303-314 | empty before finalisation, the text of the digest after it, never outside the 33 characters |
| `Engine.HashText` | server/MD5.cpp:325-330 | the text form of the digest of a string, from which the digest can be parsed back |
| `Engine.Play` | server/MD5.cpp:219-298 | one object put through any run of public calls that return ends as the run says |
| `Engine.HexDigestOfCalls` | server/MD5.cpp:219-314 | hexdigest of a new object after any such run: empty, or the text of the digest of the bytes given before the first finalize |
| `Engine.HashPieces` | server/MD5.cpp:219-314 | a new object given a message in any pieces that update handles, then finalised, prints the one-shot digest of the whole message |
| `PartialIo.TransferMeaning` | server/common.cpp:7-59 | which answers of the system one call uses up, how many bytes it moves, when it returns -1, and why a return is short |
| `PartialIo.ReadRetrying` | server/common.cpp:12-15 | an interrupted read is repeated and has no effect of its own |
| `PartialIo.WriteRetrying` | server/common.cpp:39-42 | an interrupted write is repeated and has no effect of its own |
| `PartialIo.ReadFromFd` | server/common.cpp:7-32 | the value returned, the bytes stored in order from the given position on, the rest of the buffer, the stream and the answers left |
| `PartialIo.WriteToFd` | server/common.cpp:34-59 | the value returned, the bytes appended to the stream and the answers left |
| `PartialIo.ResumedStep` | server/common.cpp:9-31 | calls resumed after every short return deal with the answers of the system one by one |
| `PartialIo.ResumptionTransparent` | server/common.cpp:9-31 | resumed calls move the bytes that one uninterrupted call moves, and with enough data report the same and leave the same answers |
| `PartialIo.RunConserves` | server/common.cpp:7-59 | every interleaving of the two functions conserves the bytes and, without failures, the sums of the counts |
| `PartialIo.EndToEnd` | server/common.cpp:7-59 | bytes stored, then bytes in flight, are the bytes accepted in order; without failures the counts account for all; equal sums mean everything arrived |
| `PartialIo.ReadOn` | server/common.cpp:7-32 | repeated calls on the remaining range leave the buffer and the stream as one uninterrupted call does; with enough data they also return the same and leave the same answers |
| `PartialIo.WriteOn` | server/common.cpp:34-59 | repeated calls on the remaining range put on the stream, return and leave what one uninterrupted call does |
| `PartialIo.Interleave` | server/common.cpp:7-59 | any interleaving of the two functions carried out on one descriptor is the run of the model and conserves the bytes; without failures the counts account for all of them |
| `Framing.CutWire` | server/Connections.cpp:81-135 | cutting undoes writing: the messages come back, whatever bytes follow them |
| `Framing.TakeConserves` | server/Connections.cpp:81-135 | a call of recv_msg that keeps the client loses no byte: what was unfinished and what it reads is the message found, if any, and what is unfinished then |
| `Framing.FragmentationTransparent` | server/Connections.cpp:81-135 | however the bytes of a client arrive, the messages found are a beginning of those in the whole; while the client is kept they depend only on the bytes taken, not on how they were cut up |
| `Framing.GivenUpExactly` | server/Connections.cpp:81-135 | for all answers of the system: a call of recv_msg closes the client if and only if its first read moves nothing or fails, or completes a header that announces a body and the second read does; never behind a header that announces less than itself |
| `Framing.LiveClientGivenUp` | server/Connections.cpp:81-135 | of that, a live client that has sent something: closed if and only if this call completes its header, the header announces a body, and no byte of the body can be read yet |
| `Framing.ArrivalMatters` | server/Connections.cpp:102-122 | one message is found when it arrives at once and closes its client when the body comes a moment later |
| `Framing.GiveConserves` | server/Connections.cpp:58-194 | a call of send_msg finishes at most the first message, never a last one or one not as long as its header says, and writes exactly the next bytes |
| `Framing.EndsExactly` | server/Connections.cpp:137-194 | for all answers of the system: when a call of send_msg closes the client, and that it ends the process if and only if it completes the header of a message, no last one, that is not as long as its header says |
| `Framing.LiveReaderGivenUp` | server/Connections.cpp:137-194 | of that, a client that takes bytes: closed if and only if this call completes the header and the message is a last one or no byte of its body can be written yet |
| `Framing.WrittenInOrder` | server/Connections.cpp:137-194 | whatever is queued when, the bytes written are a beginning of the queued messages in order; while the client is kept, the complete messages in them are those that left the queue; the process ends only on a message not as long as its header says |
| `Framing.HalvesAgree` | server/Connections.cpp:81-194 | the receiving and the sending half of this file fit together: what the one finds in the bytes of the other is a beginning of the messages queued |
| `Messages.LongBack` | server/Connections.cpp:282-283 | ntohl of the first four bytes gives back the low 32 bits that htonl has stored |
| `Messages.LongDigits` | server/Connections.cpp:522-633 | byte i of a number on the wire is its digit 3 - i to the base 256 |
| `Messages.FormedUnlessTooLong` | server/Connections.cpp:173 | a built message passes the length assertion of send_data if and only if its length fits 16 bits |
| `Messages.LongLists` | server/Connections.cpp:566-567 | a list of users fails it from 16383 users on |
| `Requests.PassedOnFits` | server/Connections.cpp:612-766 | a text or file message that is passed on never fails it, whatever the client sent |
| `MessageIo.Inbox.RecvHeader` | server/Connections.cpp:81-103 | the message found, the state of the connection, the stream and the answers left, through recv_data |
| `MessageIo.Inbox.RecvData` | server/Connections.cpp:105-135 | likewise; a message with a body leaves exactly that body for parse, one without leaves the old data |
| `MessageIo.Inbox.RecvMsg` | server/Connections.cpp:48-56 | recv_msg is one step of the reference |
| `MessageIo.Outbox.SendHeader` | server/Connections.cpp:137-164 | whether the client is kept, the queue, the bytes written and the answers left, through send_data |
| `MessageIo.Outbox.SendData` | server/Connections.cpp:166-194 | likewise |
| `MessageIo.Outbox.SendMsg` | server/Connections.cpp:58-74 | send_msg is one step of the reference, and its assertions hold again afterwards |
| `MessageIo.ServeReader` | server/Connections.cpp:48-135 | a connection read from until it is given up finds a beginning of the messages that arrive |
| `MessageIo.ServeWriter` | server/Connections.cpp:58-194 | a connection written to until it is given up or the process ends gets a beginning of the messages queued |
| `Client.LoginHeard` | chat_client/TcpClient.cpp:263-289 | what a client reads in the answer to a login: which of the three outcomes it is, its user number and its colour, in that order and modulo 2^32; or that the login failed |
| `Client.PresenceHeard` | chat_client/TcpClient.cpp:302-321 | what a client reads in a presence message: who came online or went offline |
| `Client.ListHeard` | chat_client/TcpClient.cpp:510-528 | what a client reads in a list of users of any length: every user, in order |
| `Client.TextHeard` | chat_client/TcpClient.cpp:553-564 | what a client reads in a text: private or public, from whom, and every byte of it |
| `Client.AnswersHeard` | chat_client/TcpClient.cpp:290-404 | what it reads in the answers to texts, the order to shut down and the refusals |
| `Client.LastMessages` | server/Connections.cpp:149-168 | after which of the messages that the server builds it closes the connection |
| `Protocol.EndsIsFatal` | server/Connections.cpp:196-766 | which messages end the process and which overrun a list, from their type, size, bytes and the answers of the database |
| `Protocol.ToldIsHeard` | server/Connections.cpp:196-766 | what every client hears of a message, type by type, in terms of its bytes and the answers of the database: a login succeeds only if it is legal; a text reaches the user in its first four bytes, or everybody else, with the bytes from the fifth on and the number of the sender; names, records and passwords are answered as the database says; file messages reach the user in their first four bytes, unchanged, under 0xA7, 0xA8, and 0xA9 for the other two |
| `Protocol.SuccessUnheard` | server/Connections.cpp:702-766 | a file success message is heard by its receiver as 0xA9, and 0xAA by nobody, whatever is sent, but as the refusal of a message by its sender |
| `Protocol.LoggedInThen` | server/Connections.cpp:270-312 | who is logged in after any message, and where: a login that the database finds legal, and nothing else, logs its descriptor in as the user that the database names |
| `Protocol.MessageHandled` | server/Connections.cpp:196-766 | one message, whole: what ends the process or overruns a list, as equivalences, and otherwise who is logged in and by what every queue grows |
| `Protocol.CallHandled` | server/Connections.cpp:81-766 | the same for one call of recv_msg, whatever it finds in the bytes |
| `Conversation.StepHeard` | server/TCPServer.cpp:152-171 | what every client is to hear of a step of the server, from the bytes it reads, is what its queue is told |
| `Conversation.StepUsers` | server/TCPServer.cpp:152-171 | who is logged in after every step, from the bytes it reads: closing a client logs it out, and only a legal login logs anybody in |
| `Conversation.ClientHears` | server/TCPServer.cpp:74-108 | from its acceptance on and as long as it is kept, what a client reads in the bytes written to it, then in its queue, is what the bytes of all clients tell it, in order |
| `Contacts.ContactsModel.InsertContact` | chat_client/ContactsModel.cpp:43-48 | the contact is appended and its row announced |
| `Contacts.ContactsModel.UpdateContact` | chat_client/ContactsModel.cpp:50-79 | found exactly when some row has the uid; the list and the signals after it |
| `Contacts.UpdatedRows` | chat_client/ContactsModel.cpp:61-76 | for every row, row 0 as well: the updated contact lies with its new values in the last row or in row 1, or alone in row 0, and all others keep their values and their order |
| `Contacts.KeyAfter` | chat_client/ContactsModel.cpp:68-75 | one more update gives its contact the first or the last place below row 0 and leaves all other places alone |
| `Contacts.MovedOrdered` | chat_client/ContactsModel.cpp:61-75 | moving the updated row keeps the list in the order of the places |
| `Contacts.RunIsCanonical` | chat_client/ContactsModel.cpp:50-79 | over every run that leaves row 0 alone: row 0, then last set online with the most recent first, then the untouched in their order, then last set offline with the least recent first, each as last updated |
| `Contacts.CanonicalUnique` | chat_client/ContactsModel.cpp:50-79 | that description determines the list |
| `Contacts.OverriddenUpdateAbsorbed` | chat_client/ContactsModel.cpp:50-79 | an update that a later one of the same contact overrides may be left out of a run |
| `Contacts.UpdateReplayed` | chat_client/ContactsModel.cpp:61-76 | a view that replays the signals of one update is level with the list, except when the only contact is set online |
| `Contacts.ReplicaInStep` | chat_client/ContactsModel.cpp:43-76 | over every run of insertions and updates a replaying view ends level with the list if and only if no step sets an only contact online |
| `Contacts.AvoidingRunInStep` | chat_client/ContactsModel.cpp:61-76 | a run that leaves row 0 alone is announced faithfully throughout |
| `Descriptors.LowestFreeIs` | server/TCPServer.cpp:117-121 | the descriptor given out is the least that is not open |
| `Descriptors.AcceptAccounted` | server/TCPServer.cpp:140-146 | accepting keeps the accounting of _num_fd, _max_fd and _client_fds |
| `Descriptors.CloseAccounted` | server/TCPServer.cpp:173-178 | closing a client keeps it |
| `Descriptors.OtherAccounted` | server/Connections.cpp:14-32 | descriptors that other code opens or closes leave the accounting alone |
| `Descriptors.AcceptedFits` | server/TCPServer.cpp:140-145 | by pigeonhole the next descriptor is below FD_SETSIZE if and only if the counted and the uncounted open descriptors together leave room |
| `Descriptors.UncountedOverflows` | server/TCPServer.cpp:58-61 | with an open descriptor that is not counted, accepting up to the cap passes FD_SETSIZE |
| `Descriptors.CapIsEnough` | server/TCPServer.cpp:58-178 | while other code opens and closes nothing, the accounting holds in every run; and every accepted descriptor of every run fits an fd_set if and only if no descriptor between the listening one and FD_SETSIZE is open uncounted |
| `Sessions.CloseConsistent` | server/Connections.cpp:24-46 | closing a client leaves the queues, the writable set and the two user maps consistent without it |
| `Sessions.SendConsistent` | server/Connections.cpp:58-194 | sending takes at most the first message out of that client's queue, keeps the book consistent, and changes nothing when it gives up or ends the process |
| `Sessions.LogInConsistent` | server/Connections.cpp:234-313 | a login that goes through keeps the two user maps inverse to each other and the writable set exact |
| `Sessions.LogInPasses` | server/Connections.cpp:285-310 | a login passes every assertion if and only if its descriptor is logged in as nobody or the user moves from that same descriptor, and a first login finds the user nowhere online; and what the sizes of the two lists add to that, an exception or an overrun |
| `Sessions.LogInTells` | server/Connections.cpp:270-312 | after a login that goes through the user is on that descriptor only; every queue grows by exactly the messages of ToldByLogIn: the answer with user and colour, who came, the two lists of users, the shutdown |
| `Sessions.CloseTells` | server/Connections.cpp:24-46 | closing drops the queue, logs the user out, and tells every other user once which one went offline, nobody else |
| `Sessions.TextTells` | server/Connections.cpp:435-482 | a text that does not end the process, whatever the database says: the one answer to the sender, and exactly who receives the text and from whom |
| `Sessions.ReceiveAborts` | server/Connections.cpp:48-766 | for every request of every client: it ends the process if and only if it is one of the fatal ones, overruns a list if and only if it is one of those, and is given up only when nothing can be read |
| `Sessions.BodylessMessages` | server/Connections.cpp:418-702 | texts and file data without a body, or with one too short: exactly which end the process |
| `Sessions.ReceiveTells` | server/Connections.cpp:48-766 | for every other request: every queue grows by exactly the messages that the request says for it |
| `Sessions.ListsFill` | server/Connections.cpp:549-589 | with every user listed once, a list overruns if and only if the database misses a user online; otherwise both lists are exactly as long as their messages |
| `Sessions.TakeTextConsistent` | server/Connections.cpp:418-482 | a text keeps the book consistent, whomever it goes to |
| `Sessions.ReceiveConsistent` | server/Connections.cpp:48-135 | whatever a client sends, the writable set stays the set of clients with a message queued, and messages are only added at the ends of queues |
| `Lines.HangupIsGone` | server/Connections.cpp:81-135 | the book hears of a hangup exactly when recv_msg gives the client up on its bytes |
| `Lines.SendFollows` | server/Connections.cpp:58-194 | the book follows the bytes: it keeps, drops or ends with send_msg, and its queue is the queue that the bytes have left |
| `Lines.WroteConserves` | server/Connections.cpp:137-194 | a call writes the wire form of the message that the book is told of, from where it stood, and what it begins then |
| `Server.NextSound` | server/TCPServer.cpp:136-181 | every step, of the server on the bytes that arrive or of other code, keeps the invariant of the whole server; it takes no other client away, and only accepting adds one |
| `Server.EndsWhen` | server/Connections.cpp:48-766 | what ends the process, and what overruns a list, read off the bytes of a call and the message under way |
| `Server.TakeFits` | server/TCPServer.cpp:140-145 | in a sound state below the cap, accepting stays within an fd_set if and only if there are fewer clients than the counted and uncounted descriptors leave room for; without uncounted ones always |
| `Server.ReachableSound` | server/TCPServer.cpp:58-181 | the invariant holds in every state the server reaches, whatever descriptors other code holds at the start or opens and closes meanwhile |
| `Server.MaxFdIsHighest` | server/TCPServer.cpp:140-146 | over every run _max_fd is the highest descriptor that was ever accepted, or what it was at the start; in every sound state it is below FD_SETSIZE |
| `Server.QueueIsFifo` | server/Connections.cpp:24-194 | over every run: what a client was sent, then its queue, is its queue at the start, then what the steps told it, in order |
| `Server.SessionIsFifo` | server/Connections.cpp:24-194 | from its acceptance on, whatever the others do, a client is sent what the steps say for it, in order, nothing twice and nothing left out; at the end of the session a beginning of that |
| `Server.BytesFollowMessages` | server/Connections.cpp:137-194 | over every run: what was begun and what is written to a client is the wire form of the messages it was sent, then what is begun |
| `Server.SessionBytes` | server/Connections.cpp:24-194 | from its acceptance on, the bytes written to a client are a beginning of the wire form of what the steps of the server say for it; while it is kept, the complete messages in them are those it was sent |
| `Server.IntakeFollows` | server/Connections.cpp:81-135 | over every run: a client's connection is what its bytes, as they arrived, make of it |
| `Server.SessionFrames` | server/Connections.cpp:81-135 | from its acceptance on, the messages found for a client are a beginning of those in all its bytes, and while it is kept all that are in the bytes taken |
| `Server.DataStays` | server/Connections.cpp:24-128 | over every run, whoever has been on a descriptor: data lies in its connection if and only if it did at the start or a body, or part of one, was read over it; closing does not clear it |
| `Server.GivenUpOnce` | server/TCPServer.cpp:95-106 | in a pass a client that is given up is not touched or closed again, and nothing is accepted after a client was served |
| `Server.NewcomerWaits` | server/TCPServer.cpp:95-106 | a connection accepted during a pass is not served in it |
| `TcpServer.Connections.CloseConn` | server/Connections.cpp:24-46 | the book and the line after close_conn, whatever order the loop over the users takes |
| `TcpServer.Connections.PushAll` | server/Connections.cpp:604-609 | one message to each of the descriptors, independent of the order of the loop |
| `TcpServer.Connections.ParseLogin` | server/Connections.cpp:270-312 | the book after a login, or an abort exactly when an assertion fails or a list size throws, or an overrun exactly when a list has no room |
| `TcpServer.Connections.PushUserlist` | server/Connections.cpp:549-589 | the sizes first, below zero an abort; then one pass over the users of the database fills both lists as the two filters say, or overruns exactly when a filter gives more than there is room for |
| `TcpServer.Connections.PushText` | server/Connections.cpp:612-633 | one copy to the receiver, or to everybody but the sender |
| `TcpServer.Connections.ParseText` | server/Connections.cpp:435-482 | the book after a text, or an abort exactly when an assertion fails |
| `TcpServer.Connections.Handle` | server/Connections.cpp:196-766 | the book after any request, or an abort or an overrun exactly when the specification says so |
| `TcpServer.Connections.RecvMsg` | server/Connections.cpp:48-135 | from the bytes that have arrived, through the reads, to the book and the line after them; and, said from the bytes and the database alone: what ends the process or overruns a list, who is logged in then, and what every client will read |
| `TcpServer.Connections.SendMsg` | server/Connections.cpp:58-194 | what becomes of the client, the bytes written, and the book and the line after them |
| `TcpServer.Kernel.Accept4` | server/TCPServer.cpp:117-121 | the lowest free descriptor is opened, or none |
| `TcpServer.Kernel.DoOther` | server/Connections.cpp:14-32 | other code is given the lowest free descriptor and closes none but its own |
| `TcpServer.TCPServer.constructor` | server/TCPServer.cpp:15-62 | the server starts in a sound state, with whatever descriptors the database connection has opened above the listening one |
| `TcpServer.TCPServer.CallOthers` | server/Connections.cpp:14-32 | a call into the database client or the system log is a run of steps of other code |
| `TcpServer.TCPServer.AcceptSock` | server/TCPServer.cpp:110-134 | interruptions are retried; -1 exactly if no connection is pending, and then without a new descriptor |
| `TcpServer.TCPServer.AcceptAll` | server/TCPServer.cpp:138-151 | the accept loop is a run of accepting steps; how many it takes; and it meets a descriptor that does not fit if and only if more are pending than there is room for and uncounted descriptors exist; the count is then below the cap, and the next descriptor outside an fd_set |
| `TcpServer.TCPServer.CloseSock` | server/TCPServer.cpp:173-181 | only an open client is closed, once, and its session with it |
| `TcpServer.TCPServer.ReadClient` | server/TCPServer.cpp:152-160 | one step of the state machine among steps of other code, with the client closed when it is given up; otherwise exactly the verdict at which the run stops |
| `TcpServer.TCPServer.WriteSock` | server/TCPServer.cpp:163-171 | likewise; send_msg is called with a message queued |
| `TcpServer.TCPServer.ServeClient` | server/TCPServer.cpp:96-105 | a client is read before it is written and not written once it is given up; when the process ends or a list is overrun, as an equivalence |
| `TcpServer.TCPServer.Pass` | server/TCPServer.cpp:77-106 | one pass over a stale snapshot is a run of enabled steps in ascending order on descriptors of the snapshot that are still open. It takes all pending connections up to the cap, reads every client that is readable, and writes to every writable one that had something queued and has not been given up; or it does so up to a step that ends the process or overruns a list, or takes connections only, up to a descriptor that does not fit, with the exact condition for the latter |
| `TcpServer.TCPServer.Loop` | server/TCPServer.cpp:74-108 | one run for every select that reports something, up to one that fails; every round is served whole, one after another from the state that the last one left, but for a last one that is cut short where the process ends, a list is overrun or a descriptor does not fit |
| `TcpServer.TCPServer.Destroy` | server/TCPServer.cpp:64-72 | the listening descriptor and every client are closed, each of them while open, and nothing else is |

## Left out

- Engine.MD5.Update: the pointer to signed or unsigned characters is an array read from its first byte; an array that is the object's own buffer is excluded, as `memcpy` demands.
- Engine.MD5.FromText: the characters of the string are given as bytes.
- Engine.MD5.Finalize: the static padding table is a fresh array in each call, and the counter words are turned into bit vectors before they are encoded.
- Engine.MD5.Transform: `FF`, `GG`, `HH` and `II` return the new register value instead of writing through a reference, and the four rounds are four methods.
- The stream operator of `MD5` gives nothing beyond `HexDigest`; the constant table is not derived from the sine. No claim is made about cryptographic strength.
- TcpServer.Connections.RecvMsg: between calls a `Conn` is a value, from which the object of the call is made; of the data that a message leaves behind only whether there is any is kept, which is all that the handlers depend on.
- Requests.Parse: the user name, password and file name in a message go to the database, whose answers are a parameter; what the database and log functions do inside, and whether they return, is not modelled. The memory behind a short file message holds any bytes.
- Client.Hear: a message too short for the data it should hold, which this server never builds, is closed on; names, chat records and file messages are left as the bytes they are, and what the client then shows or asks for is not modelled.
- Client.Numbers: a list whose length is not a multiple of four, which this server never sends, ends at the last whole number.
- Messages.NetworkLong: user numbers are natural numbers; on the wire they are their low 32 bits.
- TcpServer.TCPServer.Pass: after the process ends, a list is overrun or a descriptor does not fit an fd_set nothing is said; other code runs only where the server calls it, and opens the lowest free descriptor.
- TcpServer.TCPServer.Loop: the endless loop is any finite number of rounds.
- Creation, binding and options of sockets, signals, messages to standard output and error, the log and the database: foreign calls.
- PartialIo.WriteToFd: the stream holds any number of bytes; that a full one refuses is an answer of the system like any other.
- Contacts.ContactsModel.UpdateContact: uids are natural numbers without a bound; inserting at row 1 of an empty list appends, as QList does.
- `ContactsModel::data`, `roleNames` and `clear`: plain lookups, and a reset that announces no rows.
- `RecordModel`, the rest of `TcpClient`, `TcpFileClient`, the QML pages and `design.sql`: lookups, user interface, unfinished code and configuration.
