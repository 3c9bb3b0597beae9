# Flint: protocols and lifetimes

This project models the parts of the OpenFlint daemon whose correctness spans many functions, and
proves what they are for.

* **The mDNS codec.** `Writer` compresses names against a growing cache, `Composer` emits records and
  patches their lengths into bytes already written, `Reader` follows compression pointers, `Mdns` walks
  a packet with a cursor. `Names` says what it means for bytes to spell a name; `Agreement`,
  `Compression` and `RoundTrip` connect the two sides; `MdnsServer` is the response of the device. The
  growable array underneath is the class in `Buffer`. The format is that of sections 4.1.1 to 4.1.4
  of RFC 1035, of RFC 2782 and of section 18.14 of RFC 6762.
* **Length-prefixed framing over TCP** (`Framing`).
* **Objects that delete themselves**: channels between receivers and senders (`Channels`), sessions
  (`Sessions`), and applications that start and stop through signals (`Applications`,
  `ApplicationManager`). The heap is an explicit map from addresses to objects and deleting removes
  the key, so that Dafny demands a proof of life wherever an object is used. Addresses may be used
  again. The step functions have an outcome for the use of a deleted object, and the theorems say
  exactly when it occurs.
* **Layout and digits**: the two passes over netlink attributes and the list of interfaces
  (`IfaddrsLayout`, `Ifaddrs`), and the conversion of integers into a bounded buffer (`LogStream`).

The methods of `ApplicationManagers.ApplicationManager` that are named like functions of
`Applications` follow the C++ code statement by statement; what they add to the functions is that,
wherever the outcome is not the use of a deleted application, no lookup in the heap is of one.

Each state machine has its step function, which follows the code call by call, and laws that give the
state after each event from the fields of the state before it, with the numbers of the code written
out (`Channels.LiveExactlyWhen`, `Sessions.SessionsExactly`, `Applications.LaunchComesTo` and those beside
them). The parser has laws of the same kind about the bytes of any packet (`Reader.LabelInFrontReads`,
`Mdns.RecordReads` and those beside them), which do not speak of the writer.

Each loop of the C++ code is a method proved against a function; the theorems are about the
functions. `dafny verify dfyconfig.toml` checks everything.

Where the code differs from what one would expect, the model follows the code:

* a launch or stop that stops an application synchronously while others are queued goes on to use it
  after its deletion (`Applications.StopExactly`, `Applications.LaunchExactly`); a failed launch leaves a
  dangling pointer (`Applications.FailedLaunchDangles`);
* touching the receiver session ignores which application asks;
* the scope of an IPv6 address that is not link-local is whatever the allocator left there
  (`IfaddrsLayout.PlaceAddress`);
* an illegal length header clears everything received with it, so the result can depend on how the
  stream was cut; `Framing.CuttingIsExact` says when;
* a name that is refused counts 0xFFFF bytes, so what is read behind it comes from in front of it
  (`Mdns.RefusedQuestionReads`);
* a pointer to itself, or to the label in front of it, keeps the reader in its loop
  (`Mdns.LoopingQueries`);
* the length returned for a string of a positive multiple of 256 bytes is too small
  (`Writer.StringsCountExact`), and an address of four elements that are not all numbers is shorter
  than the length written for it (`Writer.IpCountExact`).

What the theorems assume of the environment: allocation succeeds; the allocator returns addresses
that are not in use; tokens are generated once; cancelling a timer is atomic; a timer does not fire
early; messages on a websocket are delivered only while its session is open; netlink attributes are
padded. Names have components of 1 to 191 bytes without NUL or dot, which includes the 63 of
section 2.3.4 of RFC 1035. Packets reach up to 0x4000 bytes.

## Model

| member | source | states |
|---|---|---|
| MdnsServer.ResponseRoundTrip | flint/src/discovery/mdns/MDNSServer.cpp:77-108 | for every device and protocol whose names fit, parsing the composed response gives, in numbers and texts: flags 0x8400 and counts 1/1/0/3; the question for the protocol; a pointer (12) from the protocol to name.protocol; the service (33) of that instance with 0/0/9431 and the host name+ip+.local; its text record (16), whose seven strings stand in the packet byte for byte; the address (1) of the host; ttl 10 and class 1 throughout; and a cursor at the last byte |
| MdnsServer.ResponseFits | flint/src/discovery/mdns/MDNSServer.cpp:77-105 | the response never outgrows the reach of a compression pointer |
| MdnsServer.ResponseIsNotAnswered | flint/src/discovery/mdns/MDNSServer.cpp:66-72 | a composed response is never taken for a query, so it is never answered |
| MdnsServer.QueriesAreAnswered | flint/src/discovery/mdns/MDNS.cpp:407-420 | a composed message is answered if and only if bit 15 of its flags is clear and one of its questions is for the protocol in whatever letter case |
| MdnsServer.AnyDevice | flint/src/discovery/mdns/MDNSServer.cpp:43-54 | a device with a name of up to 100 bytes, at any address, can be announced under the default protocol |
| MdnsServer.MDNSServer.constructor | flint/src/discovery/mdns/MDNSServer.cpp:43-47 | the default protocol |
| MdnsServer.MDNSServer.ForProtocol | flint/src/discovery/mdns/MDNSServer.cpp:49-54 | the protocol for a service name |
| MdnsServer.MDNSServer.Compose | flint/src/discovery/mdns/MDNSServer.cpp:77-105 | the calls on one buffer and one cache leave the bytes of the message that ResponseRoundTrip spells out |
| MdnsServer.MDNSServer.ParseMessage | flint/src/discovery/mdns/MDNSServer.cpp:61-125 | a reply is sent exactly when the packet is a query with a question whose name, up to its first NUL, is the protocol, letter case aside |
| RoundTrip.MessageRoundTrip | flint/src/discovery/mdns/MDNS.cpp:316-373 | for every message of questions and of records in three sections, parsing what was composed gives the message back and stops at its last byte |
| RoundTrip.NameRoundTrip | flint/src/discovery/mdns/Reader.cpp:64-123 | a name written behind any message with a sound cache is read back as it was, with the byte count the writer reported, and the cache stays sound |
| RoundTrip.QuestionRoundTrip | flint/src/discovery/mdns/MDNS.cpp:112-123 | a question is parsed back with its name, type, class and length |
| RoundTrip.DataRoundTrip | flint/src/discovery/mdns/MDNS.cpp:173-215 | record data of each kind is parsed back: target, service fields, address text |
| RoundTrip.ResourceRoundTrip | flint/src/discovery/mdns/MDNS.cpp:163-216 | a record is parsed back whole, and its length is the number of bytes the composer appended |
| RoundTrip.QuadBytes | flint/src/discovery/mdns/Writer.cpp:75-91 | the four bytes written for a dotted quad are the four numbers it shows |
| RoundTrip.HeaderRoundTrip | flint/src/discovery/mdns/MDNS.cpp:37-45 | the six header words are read back |
| Agreement.CallsKeepAgreement | flint/src/discovery/mdns/Composer.cpp:42-112 | over any sequence of composer calls, every cached suffix keeps an offset below 0x4000 at which the message spells it, through every back-patch; entries and bytes already there never change |
| Agreement.CachedTextIsRead | flint/src/discovery/mdns/Writer.cpp:131-151 | the offset cached for a suffix is one at which the reader finds exactly that suffix |
| Agreement.ReadableNamesStay | flint/src/discovery/mdns/Composer.cpp:49-112 | every name spelled in the writer's form before some calls reads the same after them |
| Agreement.ReadNamesStay | flint/src/discovery/mdns/Composer.cpp:49-112 | at every position at which the reader finds a name, in whatever form, from bytes of the message alone, it finds the same after the calls; below 0x3FFF bytes every name is found so |
| Agreement.DataLengthExact | flint/src/discovery/mdns/Composer.cpp:49-112 | the two bytes in front of record data read back as the number of bytes behind them if and only if no string length byte vanishes and the address is four numbers; everything in front is unchanged |
| Compression.CachedTailIsLongest | flint/src/discovery/mdns/Writer.cpp:131-151 | the suffix that is replaced by a pointer is cached, and no longer suffix is |
| Compression.EncodeIsGreedy | flint/src/discovery/mdns/Writer.cpp:125-169 | a name is its labels up to the longest suffix cached at call time and one pointer to that, or all labels and a zero |
| Compression.CompressionSaves | flint/src/discovery/mdns/Writer.cpp:125-169 | a compressed name takes at most the bytes of the plain one |
| Compression.EmptyCacheIsPlain | flint/src/discovery/mdns/Buffer.cpp:477-503 | with an empty cache an ASCII name comes out byte for byte as the buffer writes it without compression |
| Names.EncodeNameSpells | flint/src/discovery/mdns/Writer.cpp:125-169 | wherever the encoded bytes stand, they spell the name: every pointer leads to labels before the start of its own segment; the count is exact; what the call caches is sound |
| Names.NameSurvives | flint/src/discovery/mdns/Reader.cpp:64-123 | a spelled name and its length do not change when bytes follow |
| Names.WriteNameSpells | flint/src/discovery/mdns/Writer.cpp:125-169 | EncodeNameSpells for a name at the end of a message with a sound cache |
| Writer.WriteLabel | flint/src/discovery/mdns/Writer.cpp:125-169 | appends the encoded name, extends the cache and returns its byte count |
| Writer.ContinueEncodes | flint/src/discovery/mdns/Writer.cpp:131-167 | the loop of write_label, from any round on, appends the encoding of the components left |
| Writer.CacheLabel | flint/src/discovery/mdns/Writer.cpp:107-123 | inserts a name that is not there and leaves an entry that is |
| Writer.FindCached | flint/src/discovery/mdns/Writer.cpp:138-146 | finds an entry if and only if there is one, with its offset |
| Writer.Write16 | flint/src/discovery/mdns/Writer.cpp:49-52 | appends two bytes in network order |
| Writer.Write32 | flint/src/discovery/mdns/Writer.cpp:54-59 | appends four bytes in network order |
| Bytes.CastsAreRemainders | flint/src/discovery/mdns/Writer.cpp:49-59 | the casts to 8, 16 and 14 bits, which the model counts out, are remainders |
| Writer.Replace16 | flint/src/discovery/mdns/Writer.cpp:65-68 | overwrites exactly two reserved bytes |
| Writer.WriteIp | flint/src/discovery/mdns/Writer.cpp:75-91 | appends a byte for each element that is a number; nothing, and -1, unless there are four elements |
| Writer.IpCountExact | flint/src/discovery/mdns/Writer.cpp:75-91 | the length reported for an address is right if and only if it is four numbers |
| Writer.IpBytesAre | flint/src/discovery/mdns/Writer.cpp:75-91 | of four elements, each number is one byte, its lowest eight bits, in order; what is no number is skipped, and the count is 4 all the same |
| Writer.LexicalReads | flint/src/discovery/mdns/Writer.cpp:75-91 | a number is an optional sign and decimal digits, within 32 bits; anything else is none |
| Writer.WriteVector | flint/src/discovery/mdns/Writer.cpp:93-105 | appends each string behind its length byte and returns the total it counts |
| Writer.StringsCountExact | flint/src/discovery/mdns/Writer.cpp:93-105 | the length reported for strings is right if and only if no string is a positive multiple of 256 long |
| Reader.NameIsRead | flint/src/discovery/mdns/Reader.cpp:64-123 | where a name is spelled, the loop ends and yields that name and its byte count |
| Reader.LastLabelReads | flint/src/discovery/mdns/Reader.cpp:104-122 | in any packet: a length byte from 1 to 191, that many bytes and a zero are read as those bytes, whatever they are |
| Reader.LabelInFrontReads | flint/src/discovery/mdns/Reader.cpp:104-118 | in any packet: a label in front of a name is read as the label, a dot and the name, with the lengths added; in front of a refusal it stays in the output |
| Reader.PointerReads | flint/src/discovery/mdns/Reader.cpp:88-103 | in any packet: two bytes from 0xC000 on are read as the name where they lead, with length 2, and refused if and only if they lead out of the packet |
| Reader.IntegersAreBytes | flint/src/discovery/mdns/Reader.cpp:30-62 | 8, 16 and 32 bits are the bytes in network order, and all ones behind the end |
| Reader.WalkReadsName | flint/src/discovery/mdns/Reader.cpp:79-119 | it ends within two rounds for each component and one more, from any state of its variables |
| Reader.LoopIsExact | flint/src/discovery/mdns/Reader.cpp:79-119 | in any packet and from any position, the loop never ends if and only if it has not ended after as many rounds as the packet has positions, its end counted; it has its result by then, if ever |
| Reader.SelfPointerLoops | flint/src/discovery/mdns/Reader.cpp:84-102 | wherever in whatever packet a pointer leads to itself, no number of rounds ends the loop |
| Reader.BackwardPointerLoops | flint/src/discovery/mdns/Reader.cpp:84-102 | a pointer to the label in front of it loops too, wherever it stands: leading backwards is not enough |
| Mdns.LoopingQuestion | flint/src/discovery/mdns/MDNS.cpp:324-334 | no packet whose first question is a pointer to itself is ever parsed |
| Mdns.LoopingQueries | flint/src/discovery/mdns/MDNS.cpp:316-334 | two queries that the server can receive, of 14 and 16 bytes, on which parsing does not end |
| Reader.NamedStays | flint/src/discovery/mdns/Reader.cpp:64-123 | a name found from bytes of the packet alone is found again, with the same count, when bytes follow |
| Reader.GetLabel | flint/src/discovery/mdns/Reader.cpp:64-123 | whenever the loop ends, the result and the text left in the output are those of its specification, refusals included |
| Reader.CopyLabel | flint/src/discovery/mdns/Reader.cpp:102-117 | appends one label and a dot |
| Composer.SetHeader | flint/src/discovery/mdns/Composer.cpp:32-40 | appends the six header words |
| Composer.AddQueryPtr | flint/src/discovery/mdns/Composer.cpp:42-47 | appends a question; the class it writes is always unicast and internet |
| Composer.AddRecord | flint/src/discovery/mdns/Composer.cpp:114-125 | appends name, type, class and ttl |
| Composer.AddAnswerPtr | flint/src/discovery/mdns/Composer.cpp:49-61 | appends a pointer record and back-patches its length; nothing else changes |
| Composer.AddAdditionalSrv | flint/src/discovery/mdns/Composer.cpp:63-83 | appends a service record and back-patches its length |
| Composer.AddAdditionalTxt | flint/src/discovery/mdns/Composer.cpp:85-98 | appends a text record and back-patches its length |
| Composer.AddAdditionalAddr | flint/src/discovery/mdns/Composer.cpp:100-112 | appends an address record and back-patches its length |
| Mdns.ReadQuery | flint/src/discovery/mdns/MDNS.cpp:112-123 | the constructor of a question reads what its specification says at the cursor |
| Mdns.HeaderReads | flint/src/discovery/mdns/MDNS.cpp:37-60 | the six header words, byte by byte; a query if and only if the third byte is below 128 |
| Mdns.QuestionReads | flint/src/discovery/mdns/MDNS.cpp:112-123 | in any packet: behind a spelled name, four bytes are the type and the class of a question, whatever they are |
| Mdns.RefusedQuestionReads | flint/src/discovery/mdns/MDNS.cpp:112-123 | where a name is refused, its length is 0xFFFF, so type and class are read from the byte in front of it on, and the cursor moves three bytes |
| Mdns.ReadRecord | flint/src/discovery/mdns/MDNS.cpp:163-216 | the constructor of a record reads what RecordReads, ServiceReads, HostReads, AddressReads and OtherDataReads spell out |
| Mdns.RecordReads | flint/src/discovery/mdns/MDNS.cpp:163-171 | in any packet: behind a spelled name, ten bytes are type, class, ttl and data length of a record, and its data follows |
| Mdns.ServiceReads | flint/src/discovery/mdns/MDNS.cpp:197-203 | in any packet: data of type 33 is priority, weight and port, two bytes each in this order, and the target name |
| Mdns.HostReads | flint/src/discovery/mdns/MDNS.cpp:183-191 | in any packet: data of types 2, 5 and 12 is a name |
| Mdns.AddressReads | flint/src/discovery/mdns/MDNS.cpp:176-211 | in any packet: data of type 1 is four bytes, of type 28 sixteen |
| Mdns.OtherDataReads | flint/src/discovery/mdns/MDNS.cpp:173-216 | there is no data if and only if its length is 0, and it is skipped if and only if its type is none of these |
| Mdns.SectionsCounted | flint/src/discovery/mdns/MDNS.cpp:316-373 | in whatever packet is parsed there are as many questions and records as the header says, and the records are marked answer, authority and additional in this order |
| Mdns.MDNSIncoming.constructor | flint/src/discovery/mdns/MDNS.cpp:316-373 | the cursor walk over all four sections finds the specified packet |
| Mdns.MDNSIncoming.ReadQueries | flint/src/discovery/mdns/MDNS.cpp:324-334 | the loop over questions appends them in order and moves the cursor behind the last |
| Mdns.MDNSIncoming.ReadRecords | flint/src/discovery/mdns/MDNS.cpp:335-372 | the loop over one section does the same for records |
| Mdns.MDNSIncoming.CompareProtocol | flint/src/discovery/mdns/MDNS.cpp:407-420 | true if and only if the name of some question, up to its first NUL, is the protocol, letter case aside |
| VosBuffer.Buffer.Resize | flint/src/discovery/mdns/Buffer.cpp:56-74 | grows the block when it is too small and keeps the contents; index, length, allocation and closing NUL stay consistent |
| VosBuffer.Buffer.Trim | flint/src/discovery/mdns/Buffer.cpp:87-104 | the contents become their trimmed text |
| VosBuffer.TrimmedIsMaximal | flint/src/discovery/mdns/Buffer.cpp:1183-1210 | the trimmed text is the contents without a blank front and a blank back, and has no outer blank |
| VosBuffer.TrimmedIsUnique | flint/src/discovery/mdns/Buffer.cpp:1183-1210 | any way to cut a text into blank, tight and blank yields the trimmed text, all-blank texts included |
| VosBuffer.Buffer.ShiftRight | flint/src/discovery/mdns/Buffer.cpp:237-256 | moves the contents to the right behind as many fill bytes |
| VosBuffer.Buffer.AppendChar | flint/src/discovery/mdns/Buffer.cpp:267-279 | appends a byte below 0x80, ignores others |
| VosBuffer.Buffer.AppendByte | flint/src/discovery/mdns/Buffer.cpp:287-299 | appends any byte |
| VosBuffer.Buffer.AppendInt | flint/src/discovery/mdns/Buffer.cpp:313-351 | appends the signed numeral of any long but the least, wherever its digits fit the array |
| VosBuffer.Buffer.AppendUnsigned | flint/src/discovery/mdns/Buffer.cpp:353-376 | appends the numeral of any unsigned long, wherever its digits fit the array |
| VosBuffer.Buffer.CollectDigits | flint/src/discovery/mdns/Buffer.cpp:313-332 | the digits, collected backwards, are those of the numeral and stay in the 23 places of the array whenever the numeral does |
| VosBuffer.DigitsFitExactly | flint/src/discovery/mdns/Buffer.cpp:315-332 | all 64-bit numbers, signed or unsigned, fit the 23 places if and only if the base is at least 7 |
| VosBuffer.Buffer.AppendRaw | flint/src/discovery/mdns/Buffer.cpp:428-454 | appends a given number of bytes, or the C string when none is given |
| VosBuffer.Buffer.AppendBin | flint/src/discovery/mdns/Buffer.cpp:462-475 | appends bytes, NULs included |
| VosBuffer.Buffer.PrependRaw | flint/src/discovery/mdns/Buffer.cpp:646-666 | puts the bytes in front of the contents |
| VosBuffer.Buffer.AppendDnsLabel | flint/src/discovery/mdns/Buffer.cpp:477-503 | appends a dotted name in uncompressed wire form |
| VosBuffer.DnsWireDrops | flint/src/discovery/mdns/Buffer.cpp:477-503 | a byte from 0x80 on does not reach the wire form, nor does an empty label |
| VosBuffer.Buffer.DeleteEnd | flint/src/discovery/mdns/Buffer.cpp:505-509 | drops the last byte |
| VosBuffer.Buffer.Replace | flint/src/discovery/mdns/Buffer.cpp:511-513 | changes one byte and no other |
| Numerals.NumeralRoundTrip | flint/src/discovery/mdns/Buffer.cpp:313-376 | a printed numeral reads back as its number, in every base |
| Numerals.NumeralLength | flint/src/discovery/mdns/Buffer.cpp:315-332 | a numeral has at most k digits if and only if the number is below the k-th power of the base |
| Numerals.SignedRoundTrip | flint/src/utils/LogStream.cpp:38-55 | a signed numeral reads back as its number |
| Texts.JoinOfSplit | flint/src/discovery/mdns/Writer.cpp:125-130 | joining the components of any text gives the text back |
| Texts.SplitOfJoin | flint/src/discovery/mdns/Writer.cpp:152-166 | splitting joined components gives the components back |
| Framing.FramingRoundTrip | flint/src/platform/PlatformPal.cpp:42-60 | for every list of payloads, whatever bytes they hold, and every cutting of their frames into chunks, exactly those payloads are handed on in order, and of a further unfinished frame exactly its beginning stays |
| Framing.FramingIsExact | flint/src/platform/PlatformPal.cpp:226-229 | what was sent arrives, however it is cut, if and only if no payload is empty |
| Framing.CuttingIsExact | flint/src/platform/PlatformPal.cpp:42-60 | all ways to cut a stream agree if and only if, behind its complete frames, it holds nothing, a header that is still legal, or an illegal header behind which every position starts another illegal header; without NUL in the headers |
| Framing.ChunkingIndependence | flint/src/platform/PlatformPal.cpp:42-60 | such a stream, continuing any buffer, yields the same messages and rest for every cutting, NULs or not |
| Framing.SmallStreams | flint/src/platform/PlatformPal.cpp:126-132 | two streams that end in an illegal header and whose cutting does not matter; it does once anything but another illegal header stands behind it |
| Framing.NulHeaderDependsOnChunks | flint/src/platform/PlatformPal.cpp:127-136 | with a NUL in a positive header a frame is taken too early: a concrete stream whose cutting matters |
| Framing.DrainLeavesWaiting | flint/src/platform/PlatformPal.cpp:42-60 | on arbitrary bytes the loop ends, and the buffer then has no colon or starts with a positive length whose body is incomplete |
| Framing.DrainTwice | flint/src/platform/PlatformPal.cpp:42-60 | a drained buffer yields nothing more |
| Framing.LegalStep | flint/src/platform/PlatformPal.cpp:121-148 | with a legal header, parsing takes exactly the complete frame in front, if there is one |
| Framing.FrameIsTaken | flint/src/platform/PlatformPal.cpp:121-148 | a printed frame is taken off whatever follows it, colons in the payload included |
| Framing.AtoiOfNumeral | flint/src/platform/PlatformPal.cpp:126-127 | the length that was printed is the length that is read |
| Framing.AtoiReads | flint/src/platform/PlatformPal.cpp:126-127 | for white space, sign, digits and a rest: the number within 32 bits, its lowest 32 bits within 64, and the saturated ones beyond; without digits zero |
| Framing.TcpSessionWrapper.OnMessage | flint/src/platform/PlatformPal.cpp:42-60 | one call leaves the rest and hands on the messages that draining the extended buffer yields |
| Channels.StepIsSafe | flint/src/ws/WebsocketServer.cpp:44-186 | from a sound graph, an event uses a null or deleted channel if and only if it is a message on a sender session that is closing; otherwise the graph stays sound |
| Channels.RunIsSafe | flint/src/ws/WebsocketServer.cpp:44-334 | over every run with messages delivered on open sessions only, no null or deleted channel is used and the graph is sound: map entries carry their own ids and point back, and no other sender points to a receiver |
| Channels.ListedExactlyWhen | flint/src/ws/WebsocketServer.cpp:133-186 | a sender is in a receiver's map after an event if and only if it was and neither closed, or it just connected under a free name |
| Channels.RegisteredExactlyWhen | flint/src/ws/WebsocketServer.cpp:271-320 | a channel id stands for a receiver after an event if and only if it did and the receiver did not close, or the receiver just connected under a free id |
| Channels.LiveExactlyWhen | flint/src/ws/WebsocketServer.cpp:133-162 | which channels exist after an event, and what a new receiver or sender is: no senders, nothing told or heard, open |
| Channels.ReceiverExactly | flint/src/ws/WebsocketServer.cpp:93-186 | what each event tells a receiver: that a sender connected, that one disconnected, or its message; nothing else |
| Channels.SenderExactly | flint/src/ws/WebsocketServer.cpp:44-131 | a sender loses its receiver, and begins to close, if and only if that receiver closes; it hears exactly what its receiver says to its name or to *:* |
| Channels.FirstConversation | flint/src/ws/WebsocketServer.cpp:271-306 | a run from the empty server: a receiver and a sender connect, the sender is listed, and each hears the other |
| Channels.StaysListed | flint/src/ws/WebsocketServer.cpp:164-186 | over any run in which neither closes, a sender keeps its place in the map |
| Channels.LeftoverIsHarmless | flint/src/ws/WebsocketServer.cpp:61-76 | a sender left over from a closed receiver changes nothing when it closes, whatever happened in between, a new receiver and a namesake included |
| Channels.ClosingLeavesSenders | flint/src/ws/WebsocketServer.cpp:114-131 | when a receiver closes, exactly its own senders are left over and no other sender changes |
| Channels.SenderIsRouted | flint/src/ws/WebsocketServer.cpp:44-59 | a sender's message reaches its receiver under the sender's name and nobody else |
| Channels.ReceiverIsRouted | flint/src/ws/WebsocketServer.cpp:93-112 | a receiver's message reaches, once each, its own senders that it names and nobody else |
| Channels.NoticesMirrorSenders | flint/src/ws/WebsocketServer.cpp:133-186 | after every run, the notices a receiver was given since it connected add up to exactly its current senders |
| Channels.WebsocketServer.OnReceiverConnected | flint/src/ws/WebsocketServer.cpp:283-306 | registers a channel unless the id is taken |
| Channels.WebsocketServer.OnSenderConnected | flint/src/ws/WebsocketServer.cpp:271-281 | joins a sender to its receiver, if there is one and the name is free, and refuses it otherwise |
| Channels.WebsocketServer.AddSenderChannel | flint/src/ws/WebsocketServer.cpp:133-162 | new channel, map entry and notice, or nothing |
| Channels.WebsocketServer.RemoveSenderChannel | flint/src/ws/WebsocketServer.cpp:164-186 | notice and map entry removed, or nothing |
| Channels.WebsocketServer.GetSenderChannel | flint/src/ws/WebsocketServer.cpp:188-197 | the walk through the map finds the entry if there is one |
| Channels.WebsocketServer.OnClose | flint/src/ws/WebsocketServer.cpp:114-131 | a closed channel leaves the graph and is deleted |
| Channels.WebsocketServer.CloseSenders | flint/src/ws/WebsocketServer.cpp:114-124 | the loop shuts exactly the receiver's senders, in whatever order |
| Channels.WebsocketServer.SendToAll | flint/src/ws/WebsocketServer.cpp:99-104 | the loop over the map sends to each of the receiver's senders once |
| Channels.WebsocketServer.OnSenderMessage | flint/src/ws/WebsocketServer.cpp:44-59 | does what the step function says without using a deleted channel |
| Channels.WebsocketServer.OnReceiverMessage | flint/src/ws/WebsocketServer.cpp:93-112 | reaches the named sender, or all of them by a loop, as the step function says and without using a deleted channel |
| Sessions.StepIsSafe | flint/src/flint/session/SessionManager.cpp:36-182 | no event uses a deleted session, and the bookkeeping stays sound |
| Sessions.RunIsSafe | flint/src/flint/session/SessionManager.cpp:36-182 | over every run of possible events no deleted session is used, and the bookkeeping stays sound |
| Sessions.SessionsAreConserved | flint/src/flint/session/Session.cpp:56-68 | after every run each token belongs to one live session or to one that was deleted once; its disconnect was announced at most once, and never while it is a sender |
| Sessions.SessionDeletedExactlyWhen | flint/src/flint/session/Session.cpp:56-68 | a session is deleted if and only if its own timer fires; its deadline never moves back |
| Sessions.SenderLeavesExactlyWhen | flint/src/flint/session/SessionManager.cpp:61-78 | a sender leaves the map if and only if it disconnects or its own timer fires |
| Sessions.SenderKeptTenSeconds | flint/src/flint/session/Session.cpp:43-50 | over any run in which it does not disconnect, a sender stays for ten seconds after it was created or last touched |
| Sessions.ReceiverKeptTenSeconds | flint/src/flint/session/Session.cpp:43-50 | over any run in which its own application does not disconnect it, a receiver stays the current one for ten seconds after it was created or last touched by anyone |
| Sessions.TimerFiresAfterTen | flint/src/flint/session/Session.cpp:43-68 | the timer of a session that was just made or touched can fire if and only if ten seconds have passed, and then the session is gone |
| Sessions.SessionsExactly | flint/src/flint/session/SessionManager.cpp:36-142 | which sessions exist after an event, and what a new one is; a touch restarts one timer for ten seconds, and nothing else of any session changes |
| Sessions.ManagerExactly | flint/src/flint/session/SessionManager.cpp:36-170 | each entry of the map of senders after each event, and the current receiver |
| Sessions.HistoryExactly | flint/src/flint/session/SessionManager.cpp:36-182 | the listener after each event, the clock, and exactly which notices are given |
| Sessions.ReceiverLeavesExactlyWhen | flint/src/flint/session/SessionManager.cpp:144-170 | the current receiver is dropped if and only if its application disconnects it or its own timer fires |
| Sessions.ForgottenReceiverIsHarmless | flint/src/flint/session/SessionManager.cpp:155-170 | over any run, the timeout of a receiver session that the manager has forgotten disconnects and announces nothing |
| Sessions.NoticesMirrorSenders | flint/src/flint/session/SessionManager.cpp:172-182 | after every run, what a listener was told since it was set adds up to exactly the current senders |
| Sessions.NewListenerHears | flint/src/flint/session/SessionManager.cpp:172-182 | a new listener hears of each current sender once, in any map order, and of no disconnect |
| Sessions.SessionManager.CreateSender | flint/src/flint/session/SessionManager.cpp:36-50 | a sender is added, announced and its timer started |
| Sessions.SessionManager.TouchSender | flint/src/flint/session/SessionManager.cpp:52-59 | restarts the timer of a known sender |
| Sessions.SessionManager.DisconnectSender | flint/src/flint/session/SessionManager.cpp:61-73 | removes and announces a known sender, does nothing for others |
| Sessions.SessionManager.CreateReceiver | flint/src/flint/session/SessionManager.cpp:122-134 | a receiver is created unless there is one |
| Sessions.SessionManager.TouchReceiver | flint/src/flint/session/SessionManager.cpp:136-142 | restarts the current receiver's timer, whatever application asks |
| Sessions.SessionManager.DisconnectReceiver | flint/src/flint/session/SessionManager.cpp:144-153 | forgets the current receiver if the application is its own |
| Sessions.SessionManager.SetSessionListener | flint/src/flint/session/SessionManager.cpp:172-182 | sets the listener and announces each sender to it |
| Sessions.SessionManager.OnReceiverTimeout | flint/src/flint/session/SessionManager.cpp:155-170 | drops and announces the current receiver if the token is its own |
| Sessions.SessionManager.OnTimeout | flint/src/flint/session/Session.cpp:56-68 | tells the manager and deletes the session |
| Applications.StepExactly | flint/src/flint/application/ApplicationManager.cpp:42-149 | between events at most one application is in charge and a queue never waits for nobody; an event keeps this, and the order of the queue, if and only if a stated condition on the state before it does not hold |
| Applications.LaunchedInOrder | flint/src/flint/application/ApplicationManager.cpp:42-149 | over every run of such events no deleted application is used and accepted requests are launched in order, through all re-entrant signals |
| Applications.LaunchComesTo | flint/src/flint/application/ApplicationManager.cpp:42-95 | the whole state after a request, from the fields before it: it waits, or starts, or runs, or makes the running application stop; a request for the same application changes nothing |
| Applications.RegistersComesTo | flint/src/flint/application/Application.cpp:68-75 | the whole state after a registration: the start timer is cancelled and the application is on top and running, or stopping when others wait |
| Applications.StoppingComesTo | flint/src/flint/application/ApplicationManager.cpp:97-138 | the whole state after a stop request, a start timeout or the end of a life: whoever is in charge parks with its stop timer if it has registered, and is gone otherwise |
| Applications.StopTimeoutComesTo | flint/src/flint/application/ApplicationManager.cpp:140-149 | the whole state after a stop timeout: the stopping application is gone, and the first in the queue starts, or runs at once |
| Applications.ReceiverClosesComesTo | flint/src/flint/handler/ReceiverApplicationHandler.cpp:64-94 | the whole state after a lost connection: whoever runs, starts or stops is gone, and the first in the queue follows |
| Applications.TameIsCalm | flint/src/flint/application/ApplicationManager.cpp:42-149 | runs of applications that register and can be launched, stopped only once registered or with nobody waiting, are such runs |
| Applications.LaunchExactly | flint/src/flint/application/ApplicationManager.cpp:42-95 | a launch goes wrong if and only if a running application without registration is in the way or the platform refuses |
| Applications.StopExactly | flint/src/flint/application/ApplicationManager.cpp:117-138 | a stop goes wrong if and only if the application never registered and others wait: then the manager uses it after its deletion |
| Applications.StoppedExactly | flint/src/flint/application/ApplicationManager.cpp:140-149 | when an application has stopped, exactly the next in the queue is launched, unless the platform refuses it, or it needs no registration and has others behind it: then, and only then, it goes wrong |
| Applications.RegistersExactly | flint/src/flint/application/Application.cpp:68-75 | registering never goes wrong and keeps the order of the queue |
| Applications.ReceiverClosesExactly | flint/src/flint/handler/ReceiverApplicationHandler.cpp:64-94 | what a lost receiver connection does, and exactly when it goes wrong |
| Applications.FailedLaunchDangles | flint/src/flint/application/ApplicationManager.cpp:89-94 | a refused launch leaves a dangling pointer that the next launch or stop uses |
| Applications.StopRiskComesAbout | flint/src/flint/application/ApplicationManager.cpp:117-131 | a run from the start leads to a stop that uses a deleted application |
| Applications.LaunchRiskComesAbout | flint/src/flint/application/ApplicationManager.cpp:56-65 | another one leads to such a launch |
| Applications.PopRiskComesAbout | flint/src/flint/application/ApplicationManager.cpp:140-149 | another one leads to such a launch of the next in the queue |
| Applications.DoStopIs | flint/src/flint/application/Application.cpp:77-94 | a registered application parks until it says it has stopped; any other is gone, with the next one launched, before the call returns |
| Applications.LaunchIs | flint/src/flint/application/ApplicationManager.cpp:79-95 | with nobody in charge a launch ends with the application starting, running or gone |
| ApplicationManagers.ApplicationManager.OnStartTimeout | flint/src/flint/application/Application.cpp:115-121 | outside the stated condition, leaves the manager between events |
| ApplicationManagers.ApplicationManager.OnStopTimeout | flint/src/flint/application/Application.cpp:108-113 | outside the stated condition, stops the application, launches the next and leaves the manager between events |
| ApplicationManagers.ApplicationManager.OnReceiverClosed | flint/src/flint/handler/ReceiverApplicationHandler.cpp:64-94 | outside the stated condition, does what a lost connection must and leaves the manager between events |
| IfaddrsLayout.Fill | flint/src/utils/ifaddrs.c:346-384 | the second pass writes only inside the block that the first pass measured, and at its end every address, the last name and the last statistics stand there complete at the same time |
| IfaddrsLayout.AddressReads | flint/src/utils/ifaddrs.c:475-511 | each single address reads back from the filled block with its family and bytes |
| IfaddrsLayout.RoomsAreApart | flint/src/utils/ifaddrs.c:328-340 | index, names, addresses, netmask and statistics have rooms of their own in the block, in that order |
| IfaddrsLayout.RoomsAreAligned | flint/src/utils/ifaddrs.c:301-340 | every address, the netmask and the statistics begin at a multiple of four |
| IfaddrsLayout.NamesGrow | flint/src/utils/ifaddrs.c:317-319 | the room for a name, measured from what is left of the message, holds each name and its NUL |
| IfaddrsLayout.SockaddrHasRoom | flint/src/utils/ifaddrs.c:244-278 | an address stays in its slot if and only if it is at most 12 bytes for IPv4 and 20 for IPv6 |
| IfaddrsLayout.MeasureLink | flint/src/utils/ifaddrs.c:301-327 | the first pass adds up the rooms of a link |
| IfaddrsLayout.MeasureAddr | flint/src/utils/ifaddrs.c:419-449 | the first pass adds up the rooms of an address, one netmask included |
| IfaddrsLayout.MakeSockaddr | flint/src/utils/ifaddrs.c:259-278 | writes address, length and family inside the slot |
| IfaddrsLayout.PlaceAddress | flint/src/utils/ifaddrs.c:353-370 | adds interface and hardware type, or the scope of a link-local address, without touching the rest; the scope field of any other IPv6 address keeps the bytes it had |
| IfaddrsLayout.PlaceName | flint/src/utils/ifaddrs.c:371-375 | a name and its NUL |
| IfaddrsLayout.NameReads | flint/src/utils/ifaddrs.c:371-375 | the stored name reads as the attribute's bytes up to their NUL |
| IfaddrsLayout.LocalWins | flint/src/utils/ifaddrs.c:489-510 | in whatever order attributes come, the entry's own address is the last local one, or else the first |
| IfaddrsLayout.PointToPoint | flint/src/utils/ifaddrs.c:489-510 | one address and one local address, in either order, make the local one the entry's own and the other its destination |
| IfaddrsLayout.BroadcastWins | flint/src/utils/ifaddrs.c:489-510 | a broadcast address (4) takes the field of the destination unless other addresses come behind it |
| IfaddrsLayout.LinkAddresses | flint/src/utils/ifaddrs.c:346-384 | of a link, the last attribute of kind 1 is its own address and the last of kind 2 its broadcast address; kind 3 is its name and kind 7 its statistics |
| IfaddrsLayout.LinkLocalIs | flint/src/utils/ifaddrs.c:480-486 | the link-local addresses are those from fe80 to febf and the groups ff02, ff12, ..., fff2 |
| IfaddrsLayout.ScopeReads | flint/src/utils/ifaddrs.c:475-487 | in the filled block, a link-local IPv6 address carries the interface as its scope |
| IfaddrsLayout.LinkFieldsRead | flint/src/utils/ifaddrs.c:353-360 | in the filled block, an address of a link carries family 17, the interface, the hardware type and its length |
| IfaddrsLayout.NetmaskHasRoom | flint/src/utils/ifaddrs.c:431-441 | there is room for a netmask if and only if the entry has an internet address; the family read back from the block is the message's |
| IfaddrsLayout.MakeMask | flint/src/utils/ifaddrs.c:526-538 | bit for bit, a mask has exactly the first bits set, as many as the prefix says |
| IfaddrsLayout.HighBitsAre | flint/src/utils/ifaddrs.c:533-537 | the shifted byte has exactly its first bits set |
| IfaddrsLayout.PlaceNetmask | flint/src/utils/ifaddrs.c:524-542 | the netmask is written without touching what was filled in |
| Ifaddrs.ResultList.AddToEnd | flint/src/utils/ifaddrs.c:280-295 | appends to the chain and disturbs nothing in front |
| Ifaddrs.ResultList.FindInterface | flint/src/utils/ifaddrs.c:389-407 | the first link with the index, or null; only entries that have an index slot are read |
| Ifaddrs.InterpretLink | flint/src/utils/ifaddrs.c:297-387 | appends one entry that holds index, flags and everything the attributes said |
| Ifaddrs.InterpretAddr | flint/src/utils/ifaddrs.c:409-546 | appends one entry with addresses and netmask, joined to the flags and name of its link; nothing for packet addresses |
| Ifaddrs.InterpretLinks | flint/src/utils/ifaddrs.c:548-579 | the entries are exactly the links of the reply, in order, up to each block's end mark |
| Ifaddrs.InterpretAddrs | flint/src/utils/ifaddrs.c:581-610 | the links in front stay as they are, and behind them are exactly the addresses, each with the flags, and if need be the name, of the first link with its index |
| Ifaddrs.GetIfAddrs | flint/src/utils/ifaddrs.c:612-652 | all links first, then all addresses, each complete in its own block and joined to its link |
| Ifaddrs.OneReply | flint/src/utils/ifaddrs.c:556-579 | of a single reply, a link or an address counts if and only if it is meant for this socket, but packet addresses do not |
| Ifaddrs.LinksInOrder | flint/src/utils/ifaddrs.c:548-579 | links count in order up to the end mark that is meant for this socket |
| Ifaddrs.AddrsInOrder | flint/src/utils/ifaddrs.c:581-610 | so do addresses |
| LogStreams.Convert | flint/src/utils/LogStream.cpp:38-55 | the numeral of every 64-bit value, signed or not, the least included, and a NUL: at most 21 bytes, nothing else touched |
| LogStreams.ConvertDigits | flint/src/utils/LogStream.cpp:40-47 | the loop with signed remainders produces the digits backwards |
| LogStreams.TableDigit | flint/src/utils/LogStream.cpp:30-46 | the signed remainder picks the digit of the absolute value, and division keeps the sign |
| LogStreams.ConvertHex | flint/src/utils/LogStream.cpp:58-72 | the hexadecimal numeral of any pointer and a NUL |
| LogStreams.Reverse | flint/src/utils/LogStream.cpp:51-53 | reverses a range in place and touches nothing else |
| LogStreams.FixedBuffer.Append | flint/src/utils/LogStream.h:71-77 | appends all or nothing; one byte always stays free |
| LogStreams.FixedBuffer.DebugString | flint/src/utils/LogStream.cpp:83-87 | the closing NUL has room, and the text reads as the contents |
| LogStreams.LogStream.FormatInteger | flint/src/utils/LogStream.cpp:104-110 | appends the numeral if 32 bytes are free |
| LogStreams.LogStream.FormatAddress | flint/src/utils/LogStream.cpp:152-162 | appends 0x and the numeral if 32 bytes are free |
| LogStreams.LogStream.PutAll | flint/src/utils/LogStream.cpp:104-162 | a sequence of items put on an empty stream leaves the line they make: each whole, or left out whole where it does not fit |
| LogStreams.NothingIsLost | flint/src/utils/LogStream.cpp:104-162 | with 32 bytes to spare a line holds every item whole and in order |
| LogStreams.IntegersReadBack | flint/src/utils/LogStream.cpp:104-110 | an integer put on a line reads back as itself when 32 bytes are free, and is left out otherwise |
| LogStreams.AddressesReadBack | flint/src/utils/LogStream.cpp:152-162 | an address reads back, in hexadecimal behind 0x, when 32 bytes are free, and is left out otherwise |
| LogStreams.TextsStand | flint/src/utils/LogStream.h:71-77 | a text is there whole if it is shorter than what is free, and left out whole if not |

## Left out

- Sockets, asio, websocketpp, signals plumbing and real clocks: events of the step functions.
- rapidjson and URL matching: a message arrives with its fields already taken out.
- Reader.GetLabel: demands that the loop ends, which foreign packets with looping pointers do not grant (Reader.LoopIsExact says exactly which); labels that leave the packet, and the root name, are outside the codec's domain.
- Mdns.ReadRecord: the bytes of an IPv6 address stand for the text that inet_ntop would print; text data is skipped, as in the code, and addresses that leave the packet have no result.
- Mdns.MDNSIncoming.constructor: demands a packet of at least one byte, because an empty one would be measured as a C string.
- VosBuffer.Buffer.AppendInt: leaves out the least long, whose negation overflows, and numbers whose digits would leave the array, which takes a base below 7 (VosBuffer.DigitsFitExactly); so does AppendUnsigned.
- VosBuffer.Buffer.Resize: sizes are unbounded, so the overflow of an int size is not modelled.
- Buffer formatting (aprint, appendd), comparison and dumping: library formatting or easy members.
- Framing.FramingRoundTrip: payload lengths fit an int; atoi is a saturating strtol cut to an int.
- Framing.CuttingIsExact: demands that what is left behind the complete frames has a legal header or holds no NUL; a positive header with a NUL, whose frame is taken too early, is covered by an example only.
- Channels: notices to a receiver whose connection is breaking are counted as sent, although the transport may drop them.
- Applications: the names of states stand for their strings, and the platform's refusal is a property of the application.
- IfaddrsLayout.PlaceAddress: a link-local test on an address of fewer than two bytes is false; the code would read what follows it.
- Ifaddrs.InterpretLink: an allocation that fails, freeing, and the netlink socket are not modelled.
- LogStreams: floating point, which is formatted by the C library.
- PeerServer, device description, DIAL and SSDP texts, media control, platform launchers and the Java programs: other protocols, or formatting and input and output only.
