# Cocaine core: transport, channels, routing

A Dafny model of the parts of the cocaine-core server that move messages: the byte pipeline of a
connection, the header compression shared by its two ends, the channel machine of a session, and the
algorithms beside them (routing ring, service replication, reply streams, retroactive signals, port
allocation, argument lists). `dafny verify dfyconfig.toml` checks everything.

How it is laid out:

| file | models |
|---|---|
| `Common.dfy` | option type, filtering, narrowing of integers, division |
| `Bytes.dfy`, `MsgPack.dfy`, `Format.dfy` | byte orders, MessagePack objects, the incremental parser, the format it accepts |
| `Hpack.dfy` | header table, index space, header codec |
| `Frames.dfy` | trace headers, frames, encoder buffer and loops, frame decoder |
| `Writer.dfy`, `Reader.dfy`, `Pipeline.dfy` | buffered streams and the connection made of them |
| `Session.dfy` | channels: handle, fork, revoke, detach |
| `Continuum.dfy`, `Joining.dfy` | weighted consistent-hash ring, and what a newcomer does to its keys |
| `Gateway.dfy`, `Locator.dfy` | ad hoc gateway, replication of the service list |
| `Streams.dfy` | message queue and streamed slot |
| `Signal.dfy` | retroactive signal |
| `Ports.dfy` | port mapper |
| `Arguments.dfy` | optional arguments and the declaration check |

Objects that the source updates in place are classes. Each class method is proved to make exactly one
step of a small state machine (`Step`). For the writer and the reader its state is simpler than the
code's: the writer is only the list of frames written and the number of bytes sent, the reader only the
bytes received and what they decoded to. For sessions, ports, signals, reply streams and the locator it is
the fields of the object, with a history beside them where a property needs one. What holds over whole
runs is then proved of the state machine, for every sequence of events and every choice of the
environment: how many bytes the socket takes, how reads are cut, when threads interleave, when peers fail.
The steps of a session are its critical sections and atomic accesses one by one, so that a detach may come
between the pump's test of the transport and its handling of the message.

Sockets, callbacks and other foreign code appear as parameters: the bytes a socket accepts, the chunk it
hands over, the result of a dispatch, the digest function, the textual conversion of the trace bit, the
order of a random shuffle.

Where the code does not have a property one would expect, the model keeps the code and states the exact
boundary:

- Channel ids wrap. `fork` at the largest 64-bit id restarts the counter, after which removed ids are
  accepted again; freshness holds exactly while no fork happens at that point
  (`StepFresh`, `WrapForgets`, `LargestIdReachesWrap`).
- A write error leaves the stream in its flushing state: later writes are queued and never sent or
  answered (`SilentAfterFailure`). A cancelled write does the same, and does not answer the handlers
  waiting either: a handler runs exactly when its frame is out entirely or an error followed its write
  (`HandlersAnsweredIff`).
- `operator[]` of the header table lets the index equal to the table size through, one past the end;
  decoding is undefined for exactly that name index, and a frame can carry it
  (`LookupIsConcatenation`, `UndefinedExactlyPastEnd`, `PastEndOnTheWire`).
- The declared maximum of 120 table entries is not a bound; 128 is. It is exceeded exactly when the 121
  newest headers fit the capacity together (`AssumedMaximumFails`, `TableBounds`, `EntriesIff`).
- After a detach the mapping stays empty until a fork with a dispatch, or until the one message that was
  admitted before the detach opens a channel; no later detach discards such a channel
  (`EmptyAfterDetach`, `AdmittedOpensLate`, `LeavesOnlyRevoked`).
- The control messages, which a service's root holds at the top of the 16-bit types, reach the session's
  own dispatch on a new channel, as intended. The test is by the size of the root, though: the four types
  just behind the service's own pass as the service's and raise, and a type above 32 bits whose low half
  is a key of the root reaches the session's dispatch (`OpeningIff`, `PrototypeOpenings`, `PingOpens`).
- A header name with a zero octet is never found (`NamedIff`, `FindFirstIsFirst`).
- Replication breaks exactly on a service exposed without endpoints, or removed while absent or with
  endpoints (`ImproperBreaksSync`).
- Consistent hashing depends on weights. A newcomer leaves every key with its target or takes it, whatever
  the digest, exactly when no member gains a step while another had points or loses one while another
  has points (`KeysStayIff`). With two members on both rings that means: exactly when the old step count
  of each is still the rounded share (`JoinExact`, `SharesKeptIff`). The mean weight always qualifies
  (`MeanJoin`), others may (`NearMeanKeeps`), and some do not (`OneThreeFour`).
- Unpacking stays within the array exactly for the argument lists the declaration check accepts, as long
  as each type takes some object (`SanitizedIffSafe`); without that, exactly if some type within the
  minimal size takes none (`SafeIff`).

## Model

| member | source | states |
|---|---|---|
| Bytes.BigEndianOctet | src/decoder.cpp:73-76 | every octet of a network-order field, the most significant first |
| Bytes.LittleEndianOctet | include/cocaine/hpack/header.hpp:66-78 | every octet of a raw header id, the least significant first |
| MsgPack.ParseExtends | src/decoder.cpp:73-98 | once the parser has taken or rejected an object, no later byte changes its answer |
| MsgPack.PackRoundTrip | src/decoder.cpp:73-76 | a packed object followed by anything parses to that object and its exact size |
| MsgPack.ProperPrefixIncomplete | src/decoder.cpp:92-93 | every proper prefix of a packed object, the empty one included, asks for more bytes |
| Format.ParserExact | src/decoder.cpp:73-98 | the three answers: an object and its size if and only if the octets start with a form of it in the format, more bytes if and only if they begin a longer form, an error if and only if neither |
| Format.Unassigned | src/decoder.cpp:94-96 | exactly which leading octets are errors |
| Format.PackIsForm | include/cocaine/rpc/asio/encoder.hpp:108-123 | what is packed for an object is a form of it in the format |
| Format.PackIsShortest | include/cocaine/rpc/asio/encoder.hpp:108-123 | no form of an object is shorter than what is packed for it |
| Hpack.HeaderTable.Measure | src/header.cpp:111-118 | the accumulated size is the sum over all entries |
| Hpack.HeaderTable.Push | src/header.cpp:135-152 | eviction from the back leaves exactly the longest prefix of new entry plus old table that fits, or nothing for an oversized header |
| Hpack.FitIsLongest | src/header.cpp:139-151 | the greedy prefix is the longest one within the capacity |
| Hpack.TableClosedForm | src/header.cpp:135-152 | after any pushes the dynamic table is the longest prefix of the newest-first history that fits 4096 octets |
| Hpack.EntriesIff | src/header.cpp:135-152 | the table holds at least n entries if and only if the n newest headers fit the capacity together |
| Hpack.SizeIsText | src/header.cpp:94-118 | the size of a table is its text in octets and 32 for each entry |
| Hpack.EntriesInOctets | src/header.cpp:94-152 | the table holds at least n entries if and only if the text of the n newest headers and 32 octets for each stay within 4096 |
| Hpack.TableBounds | include/cocaine/hpack/header.hpp:195-198 | never more than 4096 octets and 128 entries; at most 120 if and only if the 121 newest headers do not fit together, so whenever each has two octets of text |
| Hpack.EmptyHeadersStay | src/header.cpp:135-152 | as many empty headers stay together as their overhead leaves room for |
| Hpack.AssumedMaximumFails | include/cocaine/hpack/header.hpp:197-198 | 128 empty headers fit at once, above the assumed maximum |
| Hpack.LookupIsConcatenation | src/header.cpp:171-180 | lookup is indexing of the 83 static, then the dynamic entries from slot 1; undefined exactly at the table size |
| Hpack.FindIsLeast | src/header.cpp:154-169 | a found index is the least match over both parts; 0 means no match or a match in the reserved slot |
| Hpack.UnpackOneCorrect | include/cocaine/hpack/msgpack_traits.hpp:107-137 | an object decodes to a header, with the sender's next table, if and only if it denotes that header |
| Hpack.UndefinedExactlyPastEnd | include/cocaine/hpack/msgpack_traits.hpp:120-121 | decoding runs past the table exactly for a name index equal to its size |
| Hpack.RefusedIff | include/cocaine/hpack/msgpack_traits.hpp:107-171 | an object is refused if and only if it denotes no header and does not run past the table |
| Hpack.HeaderTable.Unpack | include/cocaine/hpack/msgpack_traits.hpp:107-137 | one object is decoded against the table as it was, and stored afterwards if flagged |
| Hpack.HeaderTable.UnpackVector | include/cocaine/hpack/msgpack_traits.hpp:139-171 | the loop decodes the whole list or stops at the first bad object, keeping what was stored |
| Hpack.SendersDenote | include/cocaine/hpack/msgpack_traits.hpp:45-105 | the indexed sender, the static-slot sender and the live literal sender all send denotations and keep the table the receiver will have |
| Hpack.IndexedForm | include/cocaine/hpack/msgpack_traits.hpp:71-92 | the indexed sender sends the least index of the header exactly if it is in the table; otherwise it has it stored, with the least index of its name exactly if that is there |
| Hpack.StaticForm | include/cocaine/hpack/msgpack_traits.hpp:45-65 | the sender for a static slot sends the slot alone exactly for the predefined value |
| Hpack.ReceiverFollows | include/cocaine/hpack/msgpack_traits.hpp:139-171 | whatever denotations a sender picks for a list, the receiver gets the list and the same table |
| Hpack.AcceptsExactly | include/cocaine/hpack/msgpack_traits.hpp:139-171 | a list decodes to headers and a table if and only if it denotes them |
| Hpack.StopsAt | include/cocaine/hpack/msgpack_traits.hpp:139-171 | a list that does not decode is given up at the first object refused or past the table, which keeps what was stored before |
| Hpack.TablesStaySynchronised | include/cocaine/hpack/msgpack_traits.hpp:74-171 | in every run from equal tables every message decodes to what was sent and the tables stay equal |
| Hpack.IndexedRoundTrip | include/cocaine/hpack/msgpack_traits.hpp:71-92 | the receiver undoes the indexed sender from any common table |
| Frames.NamedIff | src/header.cpp:32-35 | comparing sizes and then with a C string is equality of names without a zero octet, and false otherwise |
| Frames.FindFirstIsFirst | src/header.cpp:31-45 | the header found is the first of that name; none is found only if there is none or the name has a zero octet |
| Frames.OutgoingGrows | src/encoder.cpp:91-122 | header by header, what goes out: the three fresh trace headers, then the sender's own but for trace headers |
| Frames.ExtractExact | src/session.cpp:377-400 | for every header list: no trace exactly if one of the three is missing, otherwise the first of each counts, and exactly when it throws |
| Frames.BitExact | src/session.cpp:385-388 | the first trace bit counts, and its absence is false |
| Frames.TraceRoundTrip | src/session.cpp:377-400 | the receiver recovers the sender's trace ids whatever stale trace headers there were; it throws exactly on a message type outside the prototype's root or a malformed trace bit |
| Frames.EncodedBuffer.Write | src/encoder.cpp:49-60 | appends, growing by doubling and never past twice the contents |
| Frames.PackHeaders | src/encoder.cpp:91-122 | the announced length is the number of headers packed: the fresh ones, then the kept ones in order |
| Frames.Encode | include/cocaine/rpc/asio/encoder.hpp:102-124 | the fields written one by one are the frame of the message |
| Frames.FieldsArePackedObject | include/cocaine/rpc/asio/encoder.hpp:108-123 | the fields in a row are the packing of one four-element array |
| Frames.FrameRoundTrip | src/decoder.cpp:64-99 | a frame followed by anything decodes to the message with its outgoing headers, its exact size, and an unchanged table |
| Frames.FramePrefixInsufficient | src/decoder.cpp:92-93 | a proper prefix of a frame is insufficient |
| Frames.SentPackable | include/cocaine/hpack/msgpack_traits.hpp:45-105 | whatever denotations a sender picks can be packed, and its table never exceeds the capacity |
| Frames.SentRoundTrip | src/decoder.cpp:64-99 | a frame with any denotations of its headers decodes to the message, its exact size, and the sender's next table |
| Frames.DecodesExactly | src/decoder.cpp:64-99 | for all octets: a message if and only if they start with a form of an array of span, type, arguments and, if there is a fourth element, a list denoting its headers; and exactly which octets give each error or a request for more |
| Frames.ClassifyExact | src/decoder.cpp:76-91 | the same for a parsed object |
| Frames.DecodeExtends | src/decoder.cpp:64-99 | acceptance and every kind of rejection are independent of later bytes |
| Frames.PastEndOnTheWire | include/cocaine/hpack/msgpack_traits.hpp:120-121 | whatever the table holds, a frame whose header refers to the name one past it makes decoding undefined |
| Frames.Decoder.DecodeFrame | src/decoder.cpp:64-99 | the validation ladder computes the outcome; the header table is that of the outcome on success and unchanged unless headers were decoded |
| Writer.StepKeeps | include/cocaine/rpc/asio/writable_stream.hpp:66-156 | bytes out and handlers run are never taken back; a stream no longer live stays silent |
| Writer.WriterConservation | include/cocaine/rpc/asio/writable_stream.hpp:66-156 | in every run the bytes out are a prefix of all frames written, as many as the socket took, and all of them when idle |
| Writer.HandlersFollowBytes | include/cocaine/rpc/asio/writable_stream.hpp:125-143 | before an error a handler has run exactly when its frame is out entirely, with success, in write order and once |
| Writer.HandlersAnsweredIff | include/cocaine/rpc/asio/writable_stream.hpp:106-156 | in every run a handler has run if and only if its frame is out entirely or an error followed its write; with success exactly in the first case, the error otherwise |
| Writer.FailureAnswersRest | include/cocaine/rpc/asio/writable_stream.hpp:109-123 | an error answers every waiting handler once, in order |
| Writer.SilentAfterFailure | include/cocaine/rpc/asio/writable_stream.hpp:72-91 | after an error, whatever is written later is neither sent nor answered |
| Writer.CallsAreEnabled | include/cocaine/rpc/asio/writable_stream.hpp:95-98 | every call on a stream object is an event of the state machine, and a write is outstanding only while bytes are queued |
| Writer.Advance | include/cocaine/rpc/asio/writable_stream.hpp:125-143 | the progress loop ends without its assertion failing, with the deques in step and at most the front buffer cut |
| Writer.AnswerAll | include/cocaine/rpc/asio/writable_stream.hpp:114-120 | the error loop empties all three deques and answers each handler |
| Writer.WritableStream.WriteFrame | include/cocaine/rpc/asio/writable_stream.hpp:66-99 | one write step: sent at once, sent in part and queued, or queued |
| Writer.WritableStream.WriteMessage | include/cocaine/rpc/asio/writable_stream.hpp:66-70 | the same, for the encoding of a message |
| Writer.WritableStream.FlushBytes | include/cocaine/rpc/asio/writable_stream.hpp:125-155 | one progress step; idle when drained, otherwise one more write outstanding |
| Writer.WritableStream.FlushFailed | include/cocaine/rpc/asio/writable_stream.hpp:109-123 | one failure step |
| Writer.WritableStream.FlushAborted | include/cocaine/rpc/asio/writable_stream.hpp:110-112 | a cancelled write changes nothing but that none is outstanding |
| Reader.DrainExtends | include/cocaine/rpc/asio/readable_stream.hpp:68-81 | decoding more bytes extends what was decoded, and changes nothing after an error |
| Reader.DeliveryIsDrain | include/cocaine/rpc/asio/readable_stream.hpp:68-124 | in every run the delivered messages are an initial part of decoding all received bytes at once, and all of it when blocked |
| Reader.ReceivedIsChunks | include/cocaine/rpc/asio/readable_stream.hpp:111-124 | in every run the bytes received are those the socket handed over, in order |
| Reader.HangupIsLast | include/cocaine/rpc/asio/readable_stream.hpp:72-81 | a failed socket read or a decoder error is the end of a run, the latter with the decoder's own error |
| Reader.ChunkingIndependence | include/cocaine/rpc/asio/readable_stream.hpp:68-124 | two runs over the same bytes agree on messages, consumed bytes, table and error, however the bytes were split |
| Reader.PumpDeliversAll | src/session.cpp:71-117 | reading again after every message stops, with every complete message delivered |
| Reader.ReadableStream.MakeRoom | include/cocaine/rpc/asio/readable_stream.hpp:83-95 | compaction and growth keep the window and leave at least half of the ring free; the ring doubles exactly when the window fills half of it |
| Reader.ReadableStream.Read | include/cocaine/rpc/asio/readable_stream.hpp:67-103 | one read step; the ring window is the unconsumed rest of all bytes received |
| Reader.ReadableStream.Fill | include/cocaine/rpc/asio/readable_stream.hpp:111-124 | bytes arrive behind the window and reading resumes |
| Reader.ReadableStream.FillError | include/cocaine/rpc/asio/readable_stream.hpp:112-119 | a failed read closes the reader and changes nothing else |
| Reader.ReadableStream.Pressure | include/cocaine/rpc/asio/readable_stream.hpp:105-108 | the ring is 65536 times a power of two, within four times the largest window that had to wait |
| Pipeline.TransportFraming | src/decoder.cpp:64-99 | the live encoder and decoder obey the laws of a framing codec |
| Pipeline.RuleFraming | include/cocaine/hpack/msgpack_traits.hpp:45-171 | so does the transport with any rule that sends denotations of headers, the frame depending on the sender's table |
| Pipeline.IndexedIsDenoting | include/cocaine/hpack/msgpack_traits.hpp:71-92 | the indexed sender is such a rule |
| Pipeline.DrainOfPrefix | include/cocaine/rpc/asio/readable_stream.hpp:68-81 | any prefix of a stream of frames decodes to its complete frames and the sender's table after them, and then asks for more |
| Pipeline.PipeIsEvents | include/cocaine/rpc/asio/writable_stream.hpp:66-156 | in every run the messages are those sent, and as many bytes went out and came in as the two sockets took and gave |
| Pipeline.FaithfulDelivery | include/cocaine/rpc/asio/writable_stream.hpp:66-156 | for every lawful codec and all writes, partial sends, failures and read chunkings: delivered messages are the first ones sent, in order, once each; none is lost once everything is through; a waiting reader has the sender's table; the decoder never fails |
| Pipeline.EndToEnd | include/cocaine/rpc/asio/writable_stream.hpp:66-156 | so for the live transport |
| Pipeline.EndToEndCompressed | include/cocaine/hpack/msgpack_traits.hpp:45-171 | so with header compression, whatever denotations the sender picks |
| Pipeline.EndToEndIndexed | include/cocaine/hpack/msgpack_traits.hpp:71-92 | so for the indexed sender |
| Session.StepKeeps | src/session.cpp:294-530 | every critical section and atomic access keeps the discard accounts, whatever runs inside a dispatch or on other threads |
| Session.DiscardAccounting | src/session.cpp:342-375 | in every run: mapped channels are undiscarded, those that left bound were discarded once, those whose graph ended not at all; mapped channels are bound but for the one being closed |
| Session.OpeningIff | src/session.cpp:312-410 | for any root of a protocol with control messages above its own: exactly which types raise and with what, which select the prototype and which the service dispatch on a new channel |
| Session.PrototypeOpenings | include/cocaine/rpc/protocol.hpp:147-174 | for a service's prototype: its own types select it, the four control types the service dispatch, and the four types behind its own raise |
| Session.PingOpens | tests/unit/format.cpp:34-45 | on a root of two methods a ping and a type narrowed to a key select the service dispatch, and type 2 raises |
| Session.MessageRouting | src/session.cpp:299-344 | an admitted message is processed exactly when its channel is mapped or may be opened, by the bound dispatch of that channel; otherwise it touches no channel and fails |
| Session.ReturnEffect | src/session.cpp:365-367 | what a dispatch returns is stored in the channel, touches no other, and decides how the pump goes on |
| Session.BoundToLast | src/session.cpp:320-366 | in every run a channel is bound to the dispatch given to it last, by a result or when it was opened or forked |
| Session.PumpIsWithLast | src/session.cpp:294-375 | in every run the channel the pump is with is that of the last message taken |
| Session.HandledBy | src/session.cpp:299-366 | in every run a message on a mapped channel is processed by the dispatch given to it last, one that opens a channel by the selected dispatch |
| Session.ForkEffect | src/session.cpp:439-465 | the id is the next in 64 bits, and a channel with the dispatch is made for it exactly if there is a dispatch and the id is free |
| Session.PumpEffect | src/session.cpp:91-371 | admission exactly while attached, the test of the mapping, and that no other thread moves the pump |
| Session.FinishIsRevocation | src/session.cpp:371-371 | the pump's last step is a revocation by id |
| Session.RevocationEffect | src/session.cpp:417-437 | revocation removes one channel, discards it once if bound, and touches no other |
| Session.GraphEnd | src/session.cpp:365-374 | the end of a dispatch graph removes the channel without a discard |
| Session.FailureDetaches | src/session.cpp:104-110 | an exception in the pump detaches with its code unless a detach came before |
| Session.FailingSince | src/session.cpp:104-110 | in every run the pump is failing with a code exactly since a step raised it, and until it is abandoned |
| Session.DetachedByFirst | src/session.cpp:503-515 | in every run the session is detached exactly once somebody tried to, with the code of the first |
| Session.ClearDiscards | src/session.cpp:517-530 | the detach that found the transport empties the mapping and discards each channel bound at that moment with its code |
| Session.DetachedForGood | src/session.cpp:503-515 | in every run the transport never comes back, later detaches and later messages change nothing, and a message is handled after the detach only if it was admitted before |
| Session.EmptyUntilOpened | src/session.cpp:299-465 | a step fills an empty mapping exactly if it is a fork with a dispatch or a message that opens a channel |
| Session.EmptyAfterDetach | src/session.cpp:299-530 | in every run, once a detach has cleared the mapping it stays empty until a fork with a dispatch or the opening by the message admitted before the detach |
| Session.LeavesOnlyRevoked | src/session.cpp:417-437 | a channel mapped after the clearing leaves exactly by a revocation of its id, never by a detach |
| Session.AdmittedOpensLate | src/session.cpp:91-117 | a run in which a message admitted before a detach opens a channel after it |
| Session.StepFresh | src/session.cpp:442-442 | the maximum id goes down exactly at a fork from the largest id; otherwise ids stay distinct |
| Session.MaximumGrows | src/session.cpp:305-333 | without a wrap the maximum never decreases over a run |
| Session.RemovedStaysRevoked | src/session.cpp:299-310 | in every run without a wrap no id serves two channels, and a message on a removed one fails as revoked |
| Session.WrapForgets | src/session.cpp:439-442 | after a wrap a message on a removed id opens it again |
| Session.LargestIdReachesWrap | src/session.cpp:333-333 | a peer using the largest id reaches such a state |
| Session.SessionObject.AdmitMessage | src/session.cpp:91-95 | the pump's test of the transport, outside the channel lock |
| Session.SessionObject.HandleMessage | src/session.cpp:294-344 | one message at the channels, up to the dispatch or an exception |
| Session.SessionObject.DispatchReturned | src/session.cpp:365-375 | the dispatch's result is stored in the channel object even if it has left the mapping |
| Session.SessionObject.TestShared | src/session.cpp:365-370 | the test whether the mapping still holds the channel |
| Session.SessionObject.FinishHandling | src/session.cpp:371-371 | the final revocation, by id |
| Session.SessionObject.AbandonMessage | src/session.cpp:104-110 | the exception handler of the pump starts to detach |
| Session.SessionObject.RevokeChannel | src/session.cpp:417-437 | one revocation step |
| Session.SessionObject.ForkChannel | src/session.cpp:439-465 | one fork step, returning the id |
| Session.SessionObject.SwapTransport | src/session.cpp:503-515 | the first half of a detach |
| Session.SessionObject.ClearChannels | src/session.cpp:517-530 | the second half: the discarding loop makes one clearing step |
| Session.SessionObject.DetachSession | src/session.cpp:503-530 | both halves in a row; nothing if the transport was gone |
| Continuum.PopulationBounds | src/service/locator/routing.cpp:42-82 | step counts sum to within half a step per member of 64 per member, so the ring is not empty |
| Continuum.PresentIff | src/service/locator/routing.cpp:62-67 | a member has a point exactly when 128 times count times weight reaches the total |
| Continuum.UpperBound | src/service/locator/routing.cpp:118-118 | binary search for the first point strictly above |
| Continuum.Build | src/service/locator/routing.cpp:39-91 | a sorted ring of exactly the group's points, or an error exactly for zero total weight |
| Continuum.Get | src/service/locator/routing.cpp:102-126 | the value of the least point strictly above, or of the least point of all |
| Continuum.OwnerUnique | src/service/locator/routing.cpp:116-119 | with distinct points the owner depends on the set of points alone |
| Continuum.TiesAreArbitrary | include/cocaine/detail/service/locator/routing.hpp:41-45 | with equal points two sorted rings of the same points may answer differently |
| Continuum.SharesKeptIff | src/service/locator/routing.cpp:62-67 | a newcomer leaves the shares of all members alone if and only if each old step count is within half a step of the exact new share |
| Continuum.InsertionAddsPoints | src/service/locator/routing.cpp:61-82 | a newcomer that changes no other share adds its own points and changes no other |
| Continuum.JoinMovesOnlyToNewcomer | src/service/locator/routing.cpp:102-126 | then every key keeps its target or moves to the newcomer; when it leaves, only its keys move |
| Continuum.MeanJoin | src/service/locator/routing.cpp:39-126 | so it is for a newcomer of the mean weight, wherever it is inserted |
| Continuum.LookupsAfterMeanJoin | src/service/locator/routing.cpp:39-126 | in terms of what building and looking up promise: the answer for a key is the old one or the newcomer |
| Continuum.EqualWeights | src/service/locator/routing.cpp:64-67 | equal weights give everyone 64 steps, and a further equal weight is the mean |
| Joining.KeysStayIff | src/service/locator/routing.cpp:39-126 | all digests with distinct points below the limit leave every key with its target or the newcomer if and only if no member gains a step while another had points or loses one while another has points |
| Joining.DisturbedIffShareChanges | src/service/locator/routing.cpp:62-67 | with two members on both rings that is: if and only if no old share changes |
| Joining.JoinExact | src/service/locator/routing.cpp:39-126 | so for weights: if and only if each old step count is still the rounded share |
| Joining.RingOwners | src/service/locator/routing.cpp:85-119 | the owner of a key on the sorted ring is its owner among the group's points |
| Joining.OneThreeFour | src/service/locator/routing.cpp:62-67 | weights 1 and 3 joined by 4: shares fall from 32 and 96 to 24 and 72, and a digest of 32-bit points moves a key between the two |
| Joining.NearMeanKeeps | src/service/locator/routing.cpp:62-67 | weights 1000 and 1000 joined by 1001: not the mean, yet no share changes |
| Gateway.AdhocGateway.Consume | src/gateway/adhoc.cpp:65-86 | adds a provider or reports a duplicate, touching one node's entries only |
| Gateway.AdhocGateway.CleanupService | src/gateway/adhoc.cpp:88-98 | removes a provider or reports it missing |
| Gateway.AdhocGateway.CleanupNode | src/gateway/adhoc.cpp:100-114 | erases a node everywhere and drops services left without provider |
| Gateway.AdhocGateway.TotalCount | src/gateway/adhoc.cpp:116-125 | the number of providers, zero exactly when no node provides the service |
| Locator.OnAnnounce | src/service/locator.cpp:124-157 | an update is applied entirely, or an error is raised exactly when some entry does not fit; other nodes are untouched |
| Locator.UpdateFollowsSnapshot | src/service/locator.cpp:712-723 | one update does to a receiver what the event did to the snapshot exactly when the event is proper |
| Locator.Replication | src/service/locator.cpp:568-593 | in every run of proper events, across reconnections, no update raises an error and a drained stream means the remote view equals the snapshot |
| Locator.ExposureIff | src/service/locator.cpp:712-721 | the description of a service is that of its first exposure since the last removal, and there is none exactly without an exposure or after a removal |
| Locator.SnapshotIsListing | src/service/locator.cpp:695-721 | in every run the snapshot of a clustered node holds exactly the exposed services that are not restricted, each as described; its own gateway holds all |
| Locator.RefusalExact | src/service/locator.cpp:696-703 | in every run an event is refused exactly by a gateway that has the exposed service or lacks the removed one |
| Locator.RemoteKnowsExposed | src/service/locator.cpp:568-736 | in every run of proper events a connected, drained remote node knows exactly the exposed services that are not restricted, each as described |
| Locator.ConnectedIsLinked | src/service/locator.cpp:568-593 | in every run of proper events exactly the nodes connected and not dropped since are connected |
| Locator.FaultEffect | src/service/locator.cpp:139-150 | an update that does not apply ends that connection and no other |
| Locator.ImproperBreaksSync | src/service/locator.cpp:695-736 | on a connected cluster in sync, an event keeps it in sync if and only if it is proper |
| Locator.UnfoldableQueueFaults | src/service/locator.cpp:139-150 | a queue that does not apply meets, after some good updates, one the gateway refuses |
| Locator.GatewayMakesProper | src/service/locator.cpp:696-706 | with a gateway of its own, a node never sends a duplicate or an unknown removal, in any run |
| Locator.LocatorObject.OnService | src/service/locator.cpp:695-736 | one service event: own gateway first, then snapshot and every stream |
| Locator.LocatorObject.OnConnect | src/service/locator.cpp:568-593 | a connecting node gets a new stream that starts with the snapshot, or a closed one without a cluster |
| Streams.StreamProtocol | include/cocaine/rpc/slot/streamed.hpp:44-103 | in every run the upstream sees a prefix of the calls let through, chunks then at most one terminal message, and all of them while attached and alive |
| Streams.GetsOutExactly | include/cocaine/rpc/queue.hpp:73-132 | in every run, exactly what gets out, what is left waiting, and how a call is answered, from the calls, the attachment and the death of the upstream alone |
| Streams.AttachTimeIrrelevant | include/cocaine/rpc/queue.hpp:113-132 | the messages sent do not depend on when the upstream was attached |
| Streams.ClosedForGood | include/cocaine/rpc/slot/streamed.hpp:67-92 | calls are refused exactly after a terminal one, and then change nothing |
| Streams.StreamedSlot.Append | include/cocaine/rpc/queue.hpp:73-109 | queued without an upstream, sent with one, an error code if it is gone |
| Streams.StreamedSlot.Perform | include/cocaine/rpc/slot/streamed.hpp:44-97 | write, abort and close make one call step with its answer |
| Streams.StreamedSlot.AttachTo | include/cocaine/rpc/queue.hpp:113-132 | the replay loop sends the whole queue in order, or what got out before the upstream died |
| Signal.DeliveryByMoment | include/cocaine/context/signal.hpp:76-155 | in every interleaving, with handlers coming and going, a living subscription got in order and once each the recorded past it handled when it subscribed and the later events it handled when they were invoked |
| Signal.RetroactiveDelivery | include/cocaine/context/signal.hpp:122-155 | so, if its handlers never changed, every recorded event it handles once and in order, and exactly the later unrecorded ones |
| Signal.StateIsActions | include/cocaine/context/signal.hpp:122-155 | in every run the invocations, subscriptions and expired slots are those of the actions |
| Signal.ExpiredIsSilent | include/cocaine/context/signal.hpp:143-148 | from the moment its slot is gone a subscription gets nothing more |
| Signal.ExpiredIsErased | include/cocaine/context/signal.hpp:146-148 | the next invocation takes it off the list for good |
| Signal.Replay | include/cocaine/context/signal.hpp:127-131 | a new subscriber is given the handled part of the history, in order |
| Signal.Deliver | include/cocaine/context/signal.hpp:143-153 | the loop posts once to each living subscriber and erases the others |
| Signal.RetroactiveSignal.ListenTo | include/cocaine/context/signal.hpp:123-134 | one subscription step |
| Signal.RetroactiveSignal.InvokeEvent | include/cocaine/context/signal.hpp:136-155 | one invocation step, recorded unless its kind is not |
| Ports.PortConservation | src/context/mapper.cpp:56-90 | in every run a port is free or held as often as it was in the initial queue |
| Ports.NoPortTwice | src/context/mapper.cpp:44-53 | with a real range no two unpinned names hold a port, and none held is free |
| Ports.ReusedLast | src/context/mapper.cpp:72-87 | a retained port is handed out again only after all that were free at that moment, in order |
| Ports.AssignThenRetain | src/context/mapper.cpp:56-90 | assignment succeeds exactly for a free name that is pinned or finds a port; releasing it restores the names in use and queues the port last |
| Ports.AnswerExact | src/context/mapper.cpp:56-75 | exactly which error an assignment gives, and which port |
| Ports.HeldSinceAssigned | src/context/mapper.cpp:56-90 | in every run a name holds a port exactly since an assignment that gave it and no release since |
| Ports.PinnedAndShared | src/context/mapper.cpp:56-75 | in every run a pinned name holds its pinned port, an unpinned one a port of the seed; no ports are left exactly when as many unpinned names hold one as were seeded |
| Ports.RealRange | src/context/mapper.cpp:41-47 | a real range shares each port from its lower end up to but not including its upper end, once |
| Ports.NoRange | src/context/mapper.cpp:41-43 | otherwise 65535 shares of port 0 |
| Ports.PortMapping.AssignPort | src/context/mapper.cpp:56-75 | one assignment step; failed calls change nothing |
| Ports.PortMapping.RetainPort | src/context/mapper.cpp:77-90 | one release step; failed calls change nothing |
| Arguments.SanitizedMeansRequiredFirst | include/cocaine/rpc/sanitize.hpp:37-52 | the stable partition leaves a list alone exactly when its required parameters come first |
| Arguments.UnpackExact | include/cocaine/traits/tuple.hpp:72-227 | for every declaration, conversion and source: exactly which values come out, and which error is met |
| Arguments.SafeIff | include/cocaine/traits/tuple.hpp:72-116 | for every conversion: no array of sufficient size is read past its end if and only if the list is sanitized or a type within the minimal size takes no object |
| Arguments.SanitizedIffSafe | include/cocaine/traits/tuple.hpp:72-116 | so, when each declared type takes some object, if and only if the list is sanitized |
| Arguments.SafeWhenSanitized | include/cocaine/traits/tuple.hpp:196-227 | a sanitized list is safe for any source and any element conversion |
| Arguments.OptionalTailRoundTrip | include/cocaine/traits/tuple.hpp:171-291 | values packed in full come back unchanged, values packed short come back followed by the declared defaults |
| Arguments.ExtraArgumentsIgnored | include/cocaine/traits/tuple.hpp:196-227 | arguments beyond the declared ones change nothing |

## Left out

- Sockets, threads, timers and the event loop: represented only by the choices of the environment.
- Cancelled socket reads and the end of a connection beyond closing the reader.
- The MessagePack library's limit on nesting depth; floating-point payloads are kept as raw bits.
- The contents of the static header table: every statement holds for any table of 83 entries.
- MsgPack.PackRoundTrip: covers objects within the packer's 32-bit lengths and 64-bit integers.
- Continuum.Build: exact rational arithmetic in place of float and double; the digest is an arbitrary function, and the random keyless lookup is not modelled.
- Continuum.Get: starts from the point of the key; the digest of the key is not computed.
- Continuum.JoinMovesOnlyToNewcomer: as Continuum.MeanJoin and Joining.KeysStayIff, assumes distinct points, since the sort leaves ties in any order.
- Session.SessionObject.HandleMessage: preparing a new channel is a parameter, as `Session.Open` computes it; a prototype is assumed, one pump per session, and callbacks that come while the channel lock is held are not modelled.
- Locator.OnAnnounce: on an id mismatch it answers so; the drop of that client's session is not modelled.
- Arguments.OptionalTailRoundTrip: packing is a relation, each element's own round trip being its premise.
- Locator.Replication: one connection to each remote node at a time, with the old sink gone before the next connect; link retry and back-off are not modelled.
- Streams.StreamedSlot.AttachTo: one attachment per stream, as slots make it; a second one would replay moved-from operations.
- Locator routing refresh, resolve, cluster listing and shutdown: lookups and broadcasts that add only easy members.
- Storage, authorization, logging, metrics, configuration, plugins, process signals and context bootstrap.
