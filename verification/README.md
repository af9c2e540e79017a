# QClientFramework: wire codec, HMAC-SHA-1, downloader and Base64

A Dafny model of the four self-contained cores of the client framework, with proofs about all
inputs and all runs.

**The `pbmsg` wire codec.**  A message type is a schema (`Schemas.dfy`, `Pbmsg.dfy`), a message a
value with explicit presence and its unknown fields.  `Wire.dfy` and `Codec.dfy` define reading,
writing, sizes and merging as functions; `Concatenation.dfy` and `RoundTrip.dfy` hold their laws.
`ClassParsers.dfy`, `ClassSerializers.dfy` and `RequiredFields.dfy` write out, for each generated class,
every case of its parser, every field of its serializer and its required fields, and `WireBytes.dfy` the
bytes of the wire format; the functions are proved to agree with them.
`RecursionLimit.dfy` adds the parser's limit on nesting and says exactly what it refuses; `Reparse.dfy`
proves what a parser can have produced.  `CodedStream.dfy` is the imperative input stream.

`Storage.dfy` is the state behind a generated class, for any schema: presence bits, stored scalars and
strings, owned submessages that may be null, repeated fields that keep cleared elements, cached sizes.
`Storage.Valid` says that what is absent is default, null or empty, up to the number that a failed read
leaves in an absent uint32; `Storage.Clean` excludes that number too.  `Intake.dfy` says as functions what a
parse leaves in storage, also when it fails, and exactly when the result is clean; `Strays.dfy` has inputs
for which it is not.  On storage work the generated parse loop
with its `ExpectTag` jumps (`Parser.dfy`), the size pass and both serializers, which take every length
prefix from a cache (`CachedSizes.dfy`, `Serializers.dfy`, `Output.dfy`), and the API, whose runs are
interpreted in `StorageRuns.dfy` and described call by call in `Effects.dfy`; `Reachable.dfy` follows the messages of all runs through the wire.
`Leaves.dfy` and `RequestObject.dfy` are three of the classes as heap objects that are updated in place,
each tied to its message value and to its storage state.

**SHA-1 and HMAC-SHA-1** (`Sha1.dfy`, `Hmac.dfy`): the standards as functions on byte strings, the
array code against them; `KnownAnswers.dfy` proves the functions' values on examples of the standards,
over the tables in `Sha1Traces.dfy`.

**The segmented downloader** (`Download.dfy`, `Transfer.dfy`): ranges, the locked callback on shared
objects, and a transition system over any number of chunks in any interleaving.

**Base64** (`Base64.dfy`, `Base64Coder.dfy`): RFC 4648 as functions with an independent reading of the
bits they carry, and the four buffer loops.

`dafny verify dfyconfig.toml` checks the project.

## Findings

- A nested length that reaches past the enclosing limit is clamped, not rejected
  (`coded_stream.cc:119-142`), so a message cut off inside its last submessage still parses.  The law
  that concatenated encodings merge therefore fails for some parsable inputs;
  `Concatenation.ConcatenationMergesExactlyWhenClosed` gives the exact condition and
  `Pbmsg.CutRequestBreaksConcatenation` an input.
- The length in front of a repeated `friends` element is read leniently: an unreadable one counts as
  zero and one of 2^31 or more as the rest of the input (`coded_stream.cc:160-163`).
- A uint32 is read into its field before the presence bit is set, and an unreadable varint stores
  4294967295 there (`coded_stream.h:905-918`).  A parse of the byte 08 as `LoginRq` fails and leaves an
  absent user id with that value, which `Clear` does not reset, because nothing is present; so after
  `clear_login` a request hands out a login with it (`Strays.CutLoginKeepsMark`,
  `Strays.ClearedRequestHandsOutMark`).  Every other absent field is default in every reachable state
  (`StorageRuns.Build`), and these are too if and only if the read that failed was not that of an absent
  uint32 (`Intake.ScanIntoStrays`, `StorageRuns.RunStaysClean`); `Clear` repairs it in classes of one field
  only (`Storage.ClearRepairs`).
- An unknown enum value is kept among the unknown fields in sign-extended form, and field number 0
  with a length or fixed type is kept as an unknown field.
- `hmac_sha1` documents 4096 data bytes; its scratch arrays hold 4151 (`Hmac.ScratchFits`).  A key
  longer than 64 bytes is padded in the caller's buffer, which must have room for it.
- A retry after a timeout repeats the original range while the cursor stays where it was.  It is
  harmless exactly for a chunk that has written nothing (`Transfer.StepKeepsInv`); a complete download
  counts too many bytes exactly if one retry was not (`Transfer.CountTellsHarm`), the part of the file of
  the retried chunk is right only if the source repeats itself (`Transfer.RetriedRegion`), and a retried
  last chunk makes the file too long (`Transfer.RetryOverruns`).
- Groups nested more than 100 deep are written and cannot be read back
  (`RecursionLimit.WrittenUnknownFits`, `RecursionLimit.NestedFits`).
- A callback entered with the cursor right behind a bounded range is not clamped
  (`HttpHelper.h:129-138`); `Download.BoundedChunkStaysInRange` gives the exact condition.
- More padding than completes a group makes `DecodedLength` smaller than what the decode loop writes
  (`Base64.DecodedLengthIsExactWithinAGroup`), and `=B====` decodes to nothing with success
  (`Base64.AcceptedWithoutDigits`).

## Model

| member | source | states |
|---|---|---|
| Wire.Varint64RoundTrip | QClientFramework/3rdParty/Protobuf/include/google/protobuf/io/coded_stream.cc:543-564 | Every 64-bit number survives encoding as a base-128 varint and reading within ten bytes, whatever follows it. |
| Wire.VarintSizeIsLength | QClientFramework/3rdParty/Protobuf/include/google/protobuf/io/coded_stream.cc:905-945 | The threshold tables of the size functions give the number of bytes that the varint writer emits, for every 64-bit number. |
| Wire.VarintExtends | QClientFramework/3rdParty/Protobuf/include/google/protobuf/io/coded_stream.cc:543-564 | A varint that can be read is read alike, with a longer rest, when bytes are appended to its input. |
| WireBytes.VarintDigits | QClientFramework/3rdParty/Protobuf/include/google/protobuf/io/coded_stream.cc:791-861 | Byte i of a varint carries bits 7i to 7i+6 of the number, its top bit says whether more follow, and there are as many bytes as the number needs. |
| WireBytes.VarintRead | QClientFramework/3rdParty/Protobuf/include/google/protobuf/io/coded_stream.cc:543-564 | Of any bytes, reading takes those up to the first one below 128, if that is among the first ten, and weighs them so; otherwise it fails. |
| WireBytes.VarintUnread | QClientFramework/3rdParty/Protobuf/include/google/protobuf/io/coded_stream.cc:543-564 | Without a byte below 128 there is nothing to read. |
| WireBytes.VarintWithinTen | QClientFramework/3rdParty/Protobuf/include/google/protobuf/io/coded_stream.cc:543-564 | A number can be read if and only if one of the first ten bytes is below 128. |
| WireBytes.Fixed32Weights | QClientFramework/3rdParty/Protobuf/include/google/protobuf/io/coded_stream.h:1173-1184 | The four bytes of a fixed word weigh 1, 2^8, 2^16 and 2^24, the first one least. |
| WireBytes.Fixed64Weights | QClientFramework/3rdParty/Protobuf/include/google/protobuf/io/coded_stream.h:1186-1203 | The eight bytes of a fixed64 weigh 1 to 2^56, the first one least. |
| WireBytes.FixedRead | QClientFramework/3rdParty/Protobuf/include/google/protobuf/io/coded_stream.h:945-978 | Any four or eight bytes are read with the same weights, and fewer are refused. |
| WireBytes.StringRead | QClientFramework/3rdParty/Protobuf/include/google/protobuf/io/coded_stream.cc:263-300 | A payload has the length that the low 32 bits of its prefix say, if that is below 2^31 and the bytes are there, and is refused otherwise. |
| WireBytes.UnknownLayout | QClientFramework/3rdParty/Protobuf/include/google/protobuf/wire_format.cc:179-215 | The tag of an unknown field is eight times its number plus 0, 1, 2, 3 or 5 for a varint, eight bytes, a string, a group and four bytes, and a group ends in a tag with 4. |
| WireBytes.Unskippable | QClientFramework/3rdParty/Protobuf/include/google/protobuf/wire_format.cc:74-132 | Tags with 4, 6 and 7 cannot be skipped, and a group needs a unit of the recursion budget. |
| Wire.StringRoundTrip | QClientFramework/3rdParty/Protobuf/include/google/protobuf/io/coded_stream.cc:947-956 | A length-delimited payload of at most INT_MAX bytes is read back unchanged and leaves the bytes behind it. |
| Wire.UnknownRoundTrip | QClientFramework/3rdParty/Protobuf/include/google/protobuf/wire_format.cc:74-152 | Every unknown field, nested groups included, is skipped back into the same field from the bytes that serializing it emits, by a reader without a limit on nesting; RecursionLimit.WrittenUnknownFits adds the limit. |
| Wire.UnknownSizeIsLength | QClientFramework/3rdParty/Protobuf/include/google/protobuf/wire_format.cc:310-356 | The size computed for an unknown field is the length of its serialization, at every depth of nested groups. |
| Wire.SkipFieldExtends | QClientFramework/3rdParty/Protobuf/include/google/protobuf/wire_format.cc:74-132 | Skipping a field that is complete consumes the same bytes and keeps the same field when more input follows. |
| RecursionLimit.WrittenUnknownFits | QClientFramework/3rdParty/Protobuf/include/google/protobuf/wire_format.cc:104-118 | With the recursion limit an unknown field is read back from what was written of it if and only if its groups are not nested deeper than the limit; otherwise it is refused. |
| RecursionLimit.NestedFits | QClientFramework/3rdParty/Protobuf/include/google/protobuf/io/coded_stream.h:1280-1292 | A writable unknown field of n nested groups passes a limit of b if and only if n is at most b. |
| RecursionLimit.ScanWithinIsScan | QClientFramework/3rdParty/Protobuf/include/Message.pb.cc:5455-5573 | Under a recursion limit the parse loop ends exactly as without one, with the same message, tag and rest, if the message that it built is not nested deeper than the limit, and fails if it is. |
| RecursionLimit.ParseUndoesSerializeWithin | QClientFramework/3rdParty/Protobuf/include/Message.pb.cc:5575-5617 | The round trip under a recursion limit: the serialization is parsed back to the message if and only if the message is within the limit. |
| RecursionLimit.LimitKeepsConcatenationLaw | QClientFramework/3rdParty/Protobuf/include/google/protobuf/io/coded_stream.cc:119-142 | Under any recursion limit an accepted encoding obeys the concatenation law with all accepted encodings if and only if none of its top-level length prefixes overruns it. |
| RecursionLimit.MergeFits | QClientFramework/3rdParty/Protobuf/include/Message.pb.cc:5755-5783 | A merge is within a nesting limit if and only if both messages are. |
| Schemas.MergeAssociative | QClientFramework/3rdParty/Protobuf/include/Message.pb.cc:5755-5783 | Merging messages is associative at every nesting level. |
| Schemas.MergeEmptyLeft | QClientFramework/3rdParty/Protobuf/include/Message.pb.cc:5792-5797 | Merging into a cleared message gives the source, which is what makes copying (clear, then merge) exact. |
| Schemas.MergeEmptyRight | QClientFramework/3rdParty/Protobuf/include/Message.pb.cc:5755-5783 | Merging an empty message changes nothing. |
| Schemas.MergeKeepsInitialized | QClientFramework/3rdParty/Protobuf/include/Message.pb.cc:5799-5812 | If both messages have their required fields, here and in all submessages, so has their merge. |
| Schemas.MergeCommutesWhenDisjoint | QClientFramework/3rdParty/Protobuf/include/Message.pb.cc:5755-5783 | Messages without a field in common merge to the same message in either order. |
| Concatenation.RecordIsMerge | QClientFramework/3rdParty/Protobuf/include/Message.pb.cc:5465-5556 | Reading one record into a message merges into it what the same bytes give in an empty message, and fails on the same bytes. |
| Concatenation.ParseIsMerge | QClientFramework/3rdParty/Protobuf/include/Message.pb.cc:5455-5573 | A parse merges: the target ends up merged with the message that the same bytes give when read from scratch; failure does not depend on the target. |
| Concatenation.ClosedConcatenationMerges | QClientFramework/3rdParty/Protobuf/include/Message.pb.cc:5455-5573 | If every top-level length prefix of the first part fits in it, the concatenation parses to the merge of the two parts, or fails with the second one. |
| Concatenation.ConcatenationMergesExactlyWhenClosed | QClientFramework/3rdParty/Protobuf/include/google/protobuf/io/coded_stream.cc:119-142 | The concatenation law holds for a parsable first part with every parsable second part if and only if no top-level length prefix of the first part overruns it; otherwise the clamped limit swallows what is appended. |
| Concatenation.RecordsCommute | QClientFramework/3rdParty/Protobuf/include/Message.pb.cc:5461-5566 | Closed encodings of messages without a common field give the same message in either order. |
| Pbmsg.CutRequestBreaksConcatenation | QClientFramework/3rdParty/Protobuf/include/google/protobuf/io/coded_stream.cc:119-142 | A concrete two-byte Message parses although its request claims five bytes that are missing, and the concatenation law fails for it. |
| Pbmsg.MessageIsWellFormed | QClientFramework/3rdParty/Protobuf/include/Message.pb.cc:5461-5556 | The whole Message tree, ClientMsg and RespondMsg meet the conditions under which the results about schemas hold; that the schemas are those of the classes, ClassParsers and ClassSerializers prove class by class. |
| ClassParsers.TakesUnknown | QClientFramework/3rdParty/Protobuf/include/Message.pb.cc:5539-5556 | A tag that no field of the class has starts an unknown field, which is kept behind the others, unless it is zero or ends a group. |
| ClassParsers.ParseEnds | QClientFramework/3rdParty/Protobuf/include/Message.pb.cc:5461-5573 | A parse ends with success at the end of the bytes, and with failure at a zero tag, a tag that ends a group and an unreadable one. |
| ClassParsers.HundredGroups | QClientFramework/3rdParty/Protobuf/include/google/protobuf/io/coded_stream.h:1280-1292 | In a message of any class groups nested a hundred deep are read back, and groups nested deeper are refused. |
| ClassParsers.ClientMsgParses | QClientFramework/3rdParty/Protobuf/include/Message.pb.cc:562-624 | ClientMsg: every case of the switch, the enum msg_type and the bytes msg_data, with any bytes behind its tag, any target and any budget, as the source reads them. |
| ClassParsers.RespondMsgParses | QClientFramework/3rdParty/Protobuf/include/Message.pb.cc:1464-1521 | RespondMsg: every case of the switch, the int32 result and the bytes result_msg, with any bytes behind its tag, any target and any budget, as the source reads them. |
| ClassParsers.LoginRqParses | QClientFramework/3rdParty/Protobuf/include/Message.pb.cc:967-1041 | LoginRq: every case of the switch, the uint32 user_id and the bytes username and password, with any bytes behind its tag, any target and any budget, as the source reads them. |
| ClassParsers.SendMessageRqParses | QClientFramework/3rdParty/Protobuf/include/Message.pb.cc:2778-2833 | SendMessageRq: every case of the switch, the bytes receiver and text, with any bytes behind its tag, any target and any budget, as the source reads them. |
| ClassParsers.RequestParses | QClientFramework/3rdParty/Protobuf/include/Message.pb.cc:4000-4055 | Request: every case of the switch, the submessages LoginRq and SendMessageRq, with any bytes behind its tag, any target and any budget, as the source reads them. |
| ClassParsers.LoginRsParses | QClientFramework/3rdParty/Protobuf/include/Message.pb.cc:1848-1892 | LoginRs: every case of the switch, the fixed32 ttl, with any bytes behind its tag, any target and any budget, as the source reads them. |
| ClassParsers.FriendParses | QClientFramework/3rdParty/Protobuf/include/Message.pb.cc:2126-2183 | Friend: every case of the switch, the bytes name and the bool online, with any bytes behind its tag, any target and any budget, as the source reads them. |
| ClassParsers.GetFriendsRsParses | QClientFramework/3rdParty/Protobuf/include/Message.pb.cc:2486-2532 | GetFriendsRs: every case of the switch, the repeated submessages Friend, with any bytes behind its tag, any target and any budget, as the source reads them. |
| ClassParsers.RespondParses | QClientFramework/3rdParty/Protobuf/include/Message.pb.cc:4426-4524 | Respond: every case of the switch, two bools, a string and the submessages LoginRs and GetFriendsRs, with any bytes behind its tag, any target and any budget, as the source reads them. |
| ClassParsers.HeartbeatNtParses | QClientFramework/3rdParty/Protobuf/include/Message.pb.cc:3173-3217 | HeartbeatNt: every case of the switch, the uint32 user_id, with any bytes behind its tag, any target and any budget, as the source reads them. |
| ClassParsers.MessageNtParses | QClientFramework/3rdParty/Protobuf/include/Message.pb.cc:3462-3534 | MessageNt: every case of the switch, the bytes sender, text and timestamp, with any bytes behind its tag, any target and any budget, as the source reads them. |
| ClassParsers.NotifyParses | QClientFramework/3rdParty/Protobuf/include/Message.pb.cc:5045-5100 | Notify: every case of the switch, the submessages HeartbeatNt and MessageNt, with any bytes behind its tag, any target and any budget, as the source reads them. |
| ClassParsers.MessageParses | QClientFramework/3rdParty/Protobuf/include/Message.pb.cc:5455-5573 | Message: every case of the switch, the enum msgType, two fixed32 and the submessages Request, Respond and Notify, with any bytes behind its tag, any target and any budget, as the source reads them. |
| ClassParsers.NotifyHeartbeat | QClientFramework/3rdParty/Protobuf/include/Message.pb.cc:5046-5078 | For every user id n the bytes 0a, length, 08, n are a notification with a heartbeat of user n. |
| ClassSerializers.ClientMsgSerializes | QClientFramework/3rdParty/Protobuf/include/Message.pb.cc:626-646 | ClientMsg: the bytes of every field in order, tag by tag, and the unknown fields behind them. |
| ClassSerializers.RespondMsgSerializes | QClientFramework/3rdParty/Protobuf/include/Message.pb.cc:1523-1542 | RespondMsg: the bytes of every field in order, tag by tag, and the unknown fields behind them. |
| ClassSerializers.LoginRqSerializes | QClientFramework/3rdParty/Protobuf/include/Message.pb.cc:1043-1072 | LoginRq: the bytes of every field in order, tag by tag, and the unknown fields behind them. |
| ClassSerializers.SendMessageRqSerializes | QClientFramework/3rdParty/Protobuf/include/Message.pb.cc:2835-2855 | SendMessageRq: the bytes of every field in order, tag by tag, and the unknown fields behind them. |
| ClassSerializers.RequestSerializes | QClientFramework/3rdParty/Protobuf/include/Message.pb.cc:4057-4077 | Request: the bytes of every field in order, tag by tag, and the unknown fields behind them. |
| ClassSerializers.LoginRsSerializes | QClientFramework/3rdParty/Protobuf/include/Message.pb.cc:1894-1907 | LoginRs: the bytes of every field in order, tag by tag, and the unknown fields behind them. |
| ClassSerializers.FriendSerializes | QClientFramework/3rdParty/Protobuf/include/Message.pb.cc:2185-2204 | Friend: the bytes of every field in order, tag by tag, and the unknown fields behind them. |
| ClassSerializers.GetFriendsRsSerializes | QClientFramework/3rdParty/Protobuf/include/Message.pb.cc:2534-2548 | GetFriendsRs: the bytes of every field in order, tag by tag, and the unknown fields behind them. |
| ClassSerializers.RespondSerializes | QClientFramework/3rdParty/Protobuf/include/Message.pb.cc:4526-4562 | Respond: the bytes of every field in order, tag by tag, and the unknown fields behind them. |
| ClassSerializers.HeartbeatNtSerializes | QClientFramework/3rdParty/Protobuf/include/Message.pb.cc:3219-3232 | HeartbeatNt: the bytes of every field in order, tag by tag, and the unknown fields behind them. |
| ClassSerializers.MessageNtSerializes | QClientFramework/3rdParty/Protobuf/include/Message.pb.cc:3536-3566 | MessageNt: the bytes of every field in order, tag by tag, and the unknown fields behind them. |
| ClassSerializers.NotifySerializes | QClientFramework/3rdParty/Protobuf/include/Message.pb.cc:5102-5122 | Notify: the bytes of every field in order, tag by tag, and the unknown fields behind them. |
| ClassSerializers.MessageSerializes | QClientFramework/3rdParty/Protobuf/include/Message.pb.cc:5575-5617 | Message: the bytes of every field in order, tag by tag, and the unknown fields behind them. |
| RequiredFields.InitializedByPaths | QClientFramework/3rdParty/Protobuf/include/Message.pb.cc:5799-5812 | A message of any class is initialized if and only if no message that a path of field and element indices reaches in it lacks one of its own required fields. |
| RequiredFields.ClientMsgRequires | QClientFramework/3rdParty/Protobuf/include/Message.pb.cc:769-773 | ClientMsg: initialized if and only if these are present: both. |
| RequiredFields.RespondMsgRequires | QClientFramework/3rdParty/Protobuf/include/Message.pb.cc:1666-1670 | RespondMsg: initialized if and only if these are present: both. |
| RequiredFields.LoginRqRequires | QClientFramework/3rdParty/Protobuf/include/Message.pb.cc:1218-1222 | LoginRq: initialized if and only if these are present: user_id and username. |
| RequiredFields.SendMessageRqRequires | QClientFramework/3rdParty/Protobuf/include/Message.pb.cc:2961-2965 | SendMessageRq: initialized if and only if these are present: text. |
| RequiredFields.RequestRequires | QClientFramework/3rdParty/Protobuf/include/Message.pb.cc:4184-4193 | Request: initialized if and only if these are present: none of its own, and those of present submessages. |
| RequiredFields.LoginRsRequires | QClientFramework/3rdParty/Protobuf/include/Message.pb.cc:1990-1994 | LoginRs: initialized if and only if these are present: ttl. |
| RequiredFields.FriendRequires | QClientFramework/3rdParty/Protobuf/include/Message.pb.cc:2305-2309 | Friend: initialized if and only if these are present: name. |
| RequiredFields.GetFriendsRsRequires | QClientFramework/3rdParty/Protobuf/include/Message.pb.cc:2633-2637 | GetFriendsRs: initialized if and only if these are present: none of its own, and those of every friend. |
| RequiredFields.RespondRequires | QClientFramework/3rdParty/Protobuf/include/Message.pb.cc:4729-4739 | Respond: initialized if and only if these are present: both bools, and those of present submessages. |
| RequiredFields.HeartbeatNtRequires | QClientFramework/3rdParty/Protobuf/include/Message.pb.cc:3317-3321 | HeartbeatNt: initialized if and only if these are present: user_id. |
| RequiredFields.MessageNtRequires | QClientFramework/3rdParty/Protobuf/include/Message.pb.cc:3720-3724 | MessageNt: initialized if and only if these are present: all three. |
| RequiredFields.NotifyRequires | QClientFramework/3rdParty/Protobuf/include/Message.pb.cc:5229-5238 | Notify: initialized if and only if these are present: none of its own, and those of present submessages. |
| RequiredFields.MessageRequires | QClientFramework/3rdParty/Protobuf/include/Message.pb.cc:5799-5812 | Message: initialized if and only if these are present: the type and the first fixed32, and those of present submessages. |
| RoundTrip.ByteSizeIsLength | QClientFramework/3rdParty/Protobuf/include/Message.pb.cc:5684-5736 | The computed size of every writable message tree is the exact length of its serialization, whichever required fields are missing. |
| RoundTrip.ParseUndoesSerialize | QClientFramework/3rdParty/Protobuf/include/Message.pb.cc:5575-5617 | Parsing the serialization of a message tree into an empty message gives the same values, presence and unknown fields at every level. |
| RoundTrip.SerializedPrefix | QClientFramework/3rdParty/Protobuf/include/Message.pb.cc:5455-5573 | Whatever follows a serialized message is parsed as if the message had been in place already. |
| RoundTrip.SerializedIsClosed | QClientFramework/3rdParty/Protobuf/include/Message.pb.cc:5575-5617 | What serialization emits always obeys the concatenation law. |
| RoundTrip.SerializeIsInjective | QClientFramework/3rdParty/Protobuf/include/Message.pb.cc:5575-5617 | Different message trees have different serializations. |
| Reparse.ParseSettles | QClientFramework/3rdParty/Protobuf/include/Message.pb.cc:5475-5556 | Whatever a parse leaves among the unknown fields, at any level, is something that the parser would find unknown again; so is every message that a parse into such a message gives. |
| Reparse.ParseAtMostDoubles | QClientFramework/3rdParty/Protobuf/include/Message.pb.cc:5684-5736 | Parsing adds at most two bytes of serialized size for each byte read, for every schema, target and accepted input. |
| Reparse.ReparseIsFixed | QClientFramework/3rdParty/Protobuf/include/Message.pb.cc:5455-5617 | Every accepted input below a gigabyte, serialized and parsed again, gives the same message, in at most twice its length; for longer inputs the same holds if the size of the message is an int. |
| Reparse.AcceptedIsFixed | QClientFramework/3rdParty/Protobuf/include/Message.pb.cc:5455-5617 | The same under a recursion limit and the limit of 64 MB on a stream: the serialization of what was accepted is accepted, with the same message, and is within 64 MB, for inputs of at most 32 MB and for all whose message is not larger than 64 MB. |
| Codec.ScanIsParse | QClientFramework/3rdParty/Protobuf/include/Message.pb.cc:5455-5573 | A parse succeeds if and only if the loop runs to the end of the bytes, instead of stopping at a zero or end-group tag or failing. |
| CodedStream.CodedInputStream.ScanVarint | QClientFramework/3rdParty/Protobuf/include/google/protobuf/io/coded_stream.cc:543-564 | The byte loop agrees with the functional varint reader on success, value, length and both ways of failing. |
| CodedStream.CodedInputStream.ReadVarintBytes | QClientFramework/3rdParty/Protobuf/include/google/protobuf/io/coded_stream.cc:543-583 | Reading a varint moves the position past it; a failed read leaves the position in place or, at the end of short input, at the limit. |
| CodedStream.CodedInputStream.ReadBytes | QClientFramework/3rdParty/Protobuf/include/google/protobuf/io/coded_stream.cc:263-300 | A payload is read exactly if its 32-bit length is not negative and fits under the limit; after a failure the string holds what it held, or as much of the payload as there was. |
| CodedStream.CodedInputStream.ReadPayload | QClientFramework/3rdParty/Protobuf/include/google/protobuf/io/coded_stream.cc:263-300 | A length above INT_MAX leaves the string alone; one that is merely too long takes all bytes up to the limit, and fails. |
| CodedStream.CodedInputStream.ReadTag | QClientFramework/3rdParty/Protobuf/include/google/protobuf/io/coded_stream.cc:480-541 | Tag 0 stands for the end, an unreadable tag and a zero tag; only the first is a legitimate end of the message. |
| CodedStream.CodedInputStream.ExpectTag | QClientFramework/3rdParty/Protobuf/include/google/protobuf/io/coded_stream.h:1072-1093 | A tag is consumed if and only if its byte comes next; nothing else changes. |
| CodedStream.CodedInputStream.PushLimit | QClientFramework/3rdParty/Protobuf/include/google/protobuf/io/coded_stream.cc:119-142 | The new limit never passes the old one; a negative or overlong length keeps the old one. |
| CodedStream.CodedInputStream.PopLimit | QClientFramework/3rdParty/Protobuf/include/google/protobuf/io/coded_stream.cc:144-153 | The old limit is restored and the end is no longer legitimate. |
| CodedStream.CodedInputStream.SkipField | QClientFramework/3rdParty/Protobuf/include/google/protobuf/wire_format.cc:74-132 | Skipping consumes and keeps exactly the field that the functional reader finds within the recursion budget, fails on the same bytes and on deeper groups, and gives the budget back on success; a failure keeps as much of a string or of a group as was there. |
| CodedStream.CodedInputStream.SkipMessage | QClientFramework/3rdParty/Protobuf/include/google/protobuf/wire_format.cc:134-152 | A group is skipped up to its own end tag; a foreign end tag or the end of input is handed back as such, and groups deeper than the budget fail. |
| Parser.ReadMessage | QClientFramework/3rdParty/Protobuf/include/google/protobuf/wire_format_lite_inl.h:490-502 | A singular submessage is parsed into the storage it is given, under its own limit and one unit of the recursion budget; it must reach its limit, and on success the stream stands behind the body with both limits restored; the storage is that of the loop on the body also on failure, and untouched if the body has no readable length. |
| Parser.ReadElement | QClientFramework/3rdParty/Protobuf/include/google/protobuf/wire_format_lite_inl.h:504-513 | A repeated element is parsed like a submessage, except that an unreadable length counts as zero; on success the limit is restored, and the storage is that of the loop on the body in either case. |
| Parser.ReadLengthAndPushLimit | QClientFramework/3rdParty/Protobuf/include/google/protobuf/io/coded_stream.cc:160-163 | The length prefix and the limit of a repeated element, with unreadable and negative lengths. |
| Parser.ParseFieldsFrom | QClientFramework/3rdParty/Protobuf/include/Message.pb.cc:5461-5556 | A case and all the cases that the ExpectTag jumps reach from it leave storage and stream in a state from which plain dispatch gives the result it would have given before, in every field and also when a read fails. |
| Parser.MergePartialFromCodedStream | QClientFramework/3rdParty/Protobuf/include/Message.pb.cc:5455-5573 | The loop with its fast paths comes to rest as plain read-tag-and-dispatch does, for every schema, storage state and input: at a legitimate end, behind a zero or end-group tag that the stream remembers, or with a failure; the storage is the same in every stored field in all three cases, failed reads included, and the message and the bytes left in the first two. |
| Parser.ParseSubmessage | QClientFramework/3rdParty/Protobuf/include/Message.pb.cc:5518-5550 | The object that the mutable accessor or the add function hands out is parsed in place as the functional reader does, and stays in place with what that reader leaves in it when it fails. |
| Parser.ParsePartialFromCodedStream | QClientFramework/3rdParty/Protobuf/include/google/protobuf/message_lite.cc:130-134 | Clearing and parsing gives what the loop gives for cleared storage, a stop at a zero or end-group tag and a failure included, and on success the message that the bytes give from scratch, whatever the storage held. |
| Parser.ParsePartialFromArray | QClientFramework/3rdParty/Protobuf/include/google/protobuf/message_lite.cc:143-148 | Parsing an array of at most 64 MB succeeds exactly if the whole array is one message within the recursion limit of 100, and gives that message; otherwise it leaves what the loop leaves. |
| Parser.ParseFromArray | QClientFramework/3rdParty/Protobuf/include/google/protobuf/message_lite.cc:136-141 | The same, with every required field present at every level. |
| Parser.NextByteIsTag | QClientFramework/3rdParty/Protobuf/include/google/protobuf/io/coded_stream.h:1072-1093 | When the next byte is the tag of a field, plain dispatch takes that field. |
| Parser.OneTagPerField | QClientFramework/3rdParty/Protobuf/include/Message.pb.cc:5465-5556 | No two fields share a tag, and no field tag ends a group. |
| Storage.BlankShowsEmpty | QClientFramework/3rdParty/Protobuf/include/Message.pb.cc:5433-5453 | A valid storage state shows the empty message if and only if nothing in it is present. |
| Storage.NumberOf | QClientFramework/3rdParty/Protobuf/include/Message.pb.h:2746-2757 | The getter of a scalar, which returns what is stored, returns the value if the field is present; if not it returns the default, or 4294967295 for a uint32, and the default for certain in a clean state. |
| Storage.TextOf | QClientFramework/3rdParty/Protobuf/include/Message.pb.h:2746-2757 | The same for a string, whose default is empty. |
| Storage.ChildOf | QClientFramework/3rdParty/Protobuf/include/Message.pb.h:2819-2822 | The getter of a submessage returns the value if the field is present and an empty message if not, whether or not an object is allocated. |
| Storage.Clear | QClientFramework/3rdParty/Protobuf/include/Message.pb.cc:5433-5453 | After Clear nothing is present, for every schema and valid state, and a clean state stays clean: every stored value is default or empty, in allocated submessages and kept elements too. |
| Storage.ClearRepairs | QClientFramework/3rdParty/Protobuf/include/Message.pb.cc:950-965 | Clear makes a stored number default if some field is present or the class has one field only; otherwise it leaves the number alone, which matters for one that a failed read has left. |
| Storage.ClearField | QClientFramework/3rdParty/Protobuf/include/Message.pb.h:2815-2818 | The field becomes absent, and every other field keeps value and presence; a clean state stays clean. |
| Storage.Mutable | QClientFramework/3rdParty/Protobuf/include/Message.pb.h:2823-2830 | The object handed out shows the present value, and an empty message if the field was absent. |
| Storage.PutChild | QClientFramework/3rdParty/Protobuf/include/Message.pb.h:2823-2849 | After changes through the pointer, or with an object taken over, the field is present with the value of the object and the others are unchanged. |
| Storage.Release | QClientFramework/3rdParty/Protobuf/include/Message.pb.h:2831-2837 | The field becomes absent and the state stays valid, with a null pointer. |
| Storage.Spare | QClientFramework/3rdParty/Protobuf/include/google/protobuf/repeated_field.h:1429-1443 | The element that add hands out is empty, be it new or one that was cleared and kept. |
| Storage.Append | QClientFramework/3rdParty/Protobuf/include/google/protobuf/repeated_field.h:1429-1443 | The new element stands behind the others, and all other fields are unchanged. |
| Storage.PutElement | QClientFramework/3rdParty/Protobuf/include/Message.pb.h:2023-2026 | Changes through the pointer to an element change that element and nothing else. |
| Storage.RemoveLast | QClientFramework/3rdParty/Protobuf/include/google/protobuf/repeated_field.h:1445-1448 | The last element is gone, is kept cleared, and everything else is unchanged. |
| Storage.MergeShows | QClientFramework/3rdParty/Protobuf/include/Message.pb.cc:5755-5783 | Merging storage, with objects created on demand and cleared elements reused, merges the messages shown, for every schema and pair of valid states. |
| Storage.CopyShows | QClientFramework/3rdParty/Protobuf/include/Message.pb.cc:5792-5797 | After a copy the target shows what the source shows, whatever it held before. |
| Storage.Initialized | QClientFramework/3rdParty/Protobuf/include/Message.pb.cc:5799-5812 | The bit test and its recursion agree with required presence in the message shown. |
| StorageRuns.Execute | QClientFramework/3rdParty/Protobuf/include/Message.pb.h:2732-2935 | Every call of the API, with all calls through the pointers that it hands out, does to the storage what the function Do says, with the parser and the size pass as they are implemented, and keeps it valid; if no parse in the call fails, the state shows the value that the call means. |
| StorageRuns.ExecuteAll | QClientFramework/3rdParty/Protobuf/include/Message.pb.h:2732-2935 | The same for every run of calls, of any length and nesting, from every valid state. |
| StorageRuns.Build | QClientFramework/3rdParty/Protobuf/include/Message.pb.cc:5384-5395 | Every state that a run on a new message reaches is valid: strings and submessages that are absent are empty, null or empty, and absent numbers are default, or 4294967295 for a uint32; all are default if no parse in the run failed on an absent uint32. |
| StorageRuns.RunMeans | QClientFramework/3rdParty/Protobuf/include/Message.pb.h:2732-2935 | Whatever runs do to the storage, failures included, it succeeds exactly if every parse in the run does on the messages, and then shows the message that the run means. |
| StorageRuns.RunStaysClean | QClientFramework/3rdParty/Protobuf/include/Message.pb.cc:967-1041 | A run in which no parse fails on an absent uint32, at whatever nesting level, leaves every absent field default, every absent submessage null or empty with defaults, and every kept element empty with defaults. |
| Effects.NewDefaults | QClientFramework/3rdParty/Protobuf/include/Message.pb.cc:5384-5393 | A new object holds 10001 in an enum, 0 in other numbers, and empty strings and submessages. |
| Effects.SetNumberEffect | QClientFramework/3rdParty/Protobuf/include/Message.pb.h:2752-2757 | set_x: the field shows and holds the number, and nothing else changes. |
| Effects.SetTextEffect | QClientFramework/3rdParty/Protobuf/include/Message.pb.h:1728-1732 | set_x of a string: the same. |
| Effects.ClearEffect | QClientFramework/3rdParty/Protobuf/include/Message.pb.h:2815-2837 | clear_x and release_x: the field is absent and nothing else changes. |
| Effects.RemoveLastEffect | QClientFramework/3rdParty/Protobuf/include/google/protobuf/repeated_field.h:1445-1448 | RemoveLast: the last element is gone and nothing else changes. |
| Effects.ChildEffect | QClientFramework/3rdParty/Protobuf/include/Message.pb.h:2823-2849 | Calls through the pointer of mutable_x act on the present submessage or an empty one, those for set_allocated_x on a new one; the field then holds the result and nothing else changes. |
| Effects.ElementEffect | QClientFramework/3rdParty/Protobuf/include/google/protobuf/repeated_field.h:1429-1443 | Calls through the pointer of add_x act on an empty element that then stands last; those through an element pointer change that element only. |
| Effects.MessageEffect | QClientFramework/3rdParty/Protobuf/include/Message.pb.cc:5755-5797 | MergeFrom leaves the merge of both messages; CopyFrom and Swap leave the other message, whatever was there. |
| Effects.MergeFromStreamEffect | QClientFramework/3rdParty/Protobuf/include/Message.pb.cc:5455-5573 | MergeFromCodedStream succeeds and merges as the parse of the shown message within a hundred levels does. |
| Effects.ParseArrayEffect | QClientFramework/3rdParty/Protobuf/include/google/protobuf/message_lite.cc:143-148 | ParsePartialFromArray succeeds exactly as a parse into an empty message within a hundred levels does, and leaves its message, whatever was there. |
| Effects.ParseCallsStray | QClientFramework/3rdParty/Protobuf/include/google/protobuf/io/coded_stream.h:905-918 | From clean storage the two parsing calls leave clean storage if and only if they are not among those that RunStaysClean excludes. |
| Effects.FailedNumber | QClientFramework/3rdParty/Protobuf/include/google/protobuf/wire_format_lite_inl.h:79-83 | A number that cannot be read changes nothing that is shown, except that a present uint32 shows 4294967295; an absent one holds it. |
| Effects.FailedText | QClientFramework/3rdParty/Protobuf/include/google/protobuf/io/coded_stream.cc:263-300 | A string that cannot be read leaves its field present, with what it held or, if its length is too long, with all the bytes that were left. |
| Effects.FailedChild | QClientFramework/3rdParty/Protobuf/include/google/protobuf/wire_format_lite_inl.h:490-502 | A submessage that cannot be read leaves its field present, with what the parser had made of it. |
| Effects.FailedElement | QClientFramework/3rdParty/Protobuf/include/google/protobuf/wire_format_lite_inl.h:504-513 | An element that cannot be read stands behind the others, unless the nesting limit was met before. |
| Effects.FailedUnknown | QClientFramework/3rdParty/Protobuf/include/google/protobuf/wire_format.cc:74-132 | An unknown field that cannot be skipped leaves the bytes of a string, or as much of a group as there was, and otherwise nothing. |
| Intake.ScanIntoShows | QClientFramework/3rdParty/Protobuf/include/Message.pb.cc:5455-5573 | What the parse loop does to storage shows as what it does to the message: the same three ways of coming to rest, the same message, tag and rest, for every schema, state, input and budget. |
| Intake.ScanIntoStrays | QClientFramework/3rdParty/Protobuf/include/google/protobuf/io/coded_stream.h:905-918 | After a parse into clean storage all absent fields are default again, at every nesting level, if and only if the read that failed was not that of an absent uint32; only such a read stores a number without presence. |
| Intake.StrayFails | QClientFramework/3rdParty/Protobuf/include/google/protobuf/wire_format_lite_inl.h:79-83 | A parse that meets an unreadable absent uint32 fails. |
| Strays.CutNumberStays | QClientFramework/3rdParty/Protobuf/include/Message.pb.cc:978-984 | For every class whose field 1 is a uint32 the input 08 fails and leaves a new message empty with the number 4294967295; Clear makes it 0 if and only if the class has no other field. |
| Strays.CutLoginKeepsMark | QClientFramework/3rdParty/Protobuf/include/Message.pb.cc:950-965 | LoginRq: after the failed parse of 08 and Clear the user id is absent and 4294967295. |
| Strays.ClearRepairsHeartbeat | QClientFramework/3rdParty/Protobuf/include/Message.pb.cc:3164-3171 | HeartbeatNt: the same, and Clear makes it 0. |
| Strays.ClearedRequestHandsOutMark | QClientFramework/3rdParty/Protobuf/include/Message.pb.h:2364-2379 | Request: after that failure in its login and clear_login the request is empty, and mutable_login hands out an empty login whose user id is 4294967295. |
| Reachable.ReachableRoundTrips | QClientFramework/3rdParty/Protobuf/include/Message.pb.cc:5455-5617 | Every message that a run can build and whose serialization is at most 64 MB long is parsed back from it if and only if it is within the recursion limit of 100. |
| CachedSizes.SizePass | QClientFramework/3rdParty/Protobuf/include/Message.pb.cc:5667-5736 | The size pass returns and caches the exact size of the message, and leaves an exact size in every present submessage and element at every depth, while every stored value and the message shown stay the same. |
| CachedSizes.CachedIsSerialize | QClientFramework/3rdParty/Protobuf/include/google/protobuf/wire_format_lite_inl.h:802-809 | If the cached sizes are exact, what is emitted with every length prefix taken from a cache is the serialization, for every well-formed schema and writable message. |
| Serializers.ToArray | QClientFramework/3rdParty/Protobuf/include/Message.pb.cc:5619-5665 | The array serializer puts at the offset what the cached sizes prescribe, and changes nothing else. |
| Serializers.ToStream | QClientFramework/3rdParty/Protobuf/include/Message.pb.cc:5575-5617 | The stream serializer emits the same bytes. |
| Serializers.ChildToStream | QClientFramework/3rdParty/Protobuf/include/google/protobuf/wire_format_lite.cc:477-493 | A submessage is emitted behind its tag and cached size, with the same bytes whether the stream hands out a piece of its buffer or not. |
| Serializers.ElementsToArray | QClientFramework/3rdParty/Protobuf/include/Message.pb.cc:2549-2566 | The elements of a repeated field land one behind the other, each behind its tag and cached size. |
| Serializers.SerializePartialToArray | QClientFramework/3rdParty/Protobuf/include/google/protobuf/message_lite.cc:323-332 | True exactly if the buffer is long enough; then it starts with the serialization and the consistency check on the size cannot fire; otherwise it is unchanged. |
| Serializers.SerializePartialToStream | QClientFramework/3rdParty/Protobuf/include/google/protobuf/message_lite.cc:239-270 | The stream receives the serialization, through a piece of its buffer at once or field by field, and the byte count that is checked afterwards is the computed size in both branches. |
| Output.WriteVarintToArray | QClientFramework/3rdParty/Protobuf/include/google/protobuf/io/coded_stream.cc:791-861 | The varint lands at the given offset, the returned offset is the end of it, and no other byte of the array changes. |
| Output.WriteUnknownsToArray | QClientFramework/3rdParty/Protobuf/include/google/protobuf/wire_format.cc:217-250 | All unknown fields, nested groups included, land at the given offset as their serialization, and nothing else changes. |
| Output.CodedOutputStream.WriteVarint | QClientFramework/3rdParty/Protobuf/include/google/protobuf/io/coded_stream.cc:863-884 | The stream grows by exactly the varint. |
| Output.CodedOutputStream.WriteUnknowns | QClientFramework/3rdParty/Protobuf/include/google/protobuf/wire_format.cc:179-215 | The stream grows by exactly the serialization of the unknown fields, the same bytes as in an array. |
| Leaves.MergeReplaces | QClientFramework/3rdParty/Protobuf/include/Message.pb.cc:1181-1202 | Without repeated fields and submessages a merge takes each field from the source if the source has it, and keeps it otherwise. |
| Leaves.LoginRq.SetUserId | QClientFramework/3rdParty/Protobuf/include/Message.pb.h:1704-1708 | Sets value and presence bit of one field; the other fields keep value and presence. |
| Leaves.LoginRq.SetUsername | QClientFramework/3rdParty/Protobuf/include/Message.pb.h:1728-1732 | The same for a bytes field. |
| Leaves.LoginRq.ClearUsername | QClientFramework/3rdParty/Protobuf/include/Message.pb.h:1720-1723 | The field becomes absent and default; the others stay. |
| Leaves.LoginRq.Clear | QClientFramework/3rdParty/Protobuf/include/Message.pb.cc:950-965 | The object stands for the empty message again; the user id is 0 if anything was present, and as it was otherwise. |
| Leaves.LoginRq.MergeFrom | QClientFramework/3rdParty/Protobuf/include/Message.pb.cc:1181-1202 | The object ends up with the merge of the two values; the source is unchanged. |
| Leaves.LoginRq.CopyFrom | QClientFramework/3rdParty/Protobuf/include/Message.pb.cc:1211-1216 | The object ends up with the value of the source whatever it held before, also when it is the source. |
| Leaves.LoginRq.RequiredFieldsByteSizeFallback | QClientFramework/3rdParty/Protobuf/include/Message.pb.cc:1108-1127 | The sizes of the two required fields, which are zero for an absent one. |
| Leaves.LoginRq.StoredShowsValue | QClientFramework/3rdParty/Protobuf/include/Message.pb.h:1684-1818 | The object is valid if and only if its fields are a valid state of the storage of its schema, and both show the same value. |
| Leaves.LoginRq.StoredIsClean | QClientFramework/3rdParty/Protobuf/include/Message.pb.h:1684-1818 | The storage of the object is clean if and only if its user id is present or 0. |
| Leaves.LoginRq.ByteSize | QClientFramework/3rdParty/Protobuf/include/Message.pb.cc:1128-1163 | The returned and cached size is the size of the value, with all required fields present or not. |
| Leaves.LoginRq.IsInitialized | QClientFramework/3rdParty/Protobuf/include/Message.pb.cc:1218-1222 | True if and only if both required fields are present. |
| Leaves.LoginRq.SerializeToArray | QClientFramework/3rdParty/Protobuf/include/Message.pb.cc:1073-1106 | The array receives the serialization of the value at the offset, and nothing else changes. |
| Leaves.LoginRq.SerializeToStream | QClientFramework/3rdParty/Protobuf/include/Message.pb.cc:1043-1071 | The stream receives the same bytes. |
| Leaves.SendMessageRq.Clear | QClientFramework/3rdParty/Protobuf/include/Message.pb.cc:2762-2776 | The object stands for the empty message again, and absent fields hold their defaults. |
| Leaves.SendMessageRq.StoredShowsValue | QClientFramework/3rdParty/Protobuf/include/Message.pb.h:2046-2156 | The object is valid if and only if its fields are a valid state of the storage of its schema, and both show the same value. |
| Leaves.SendMessageRq.MergeFrom | QClientFramework/3rdParty/Protobuf/include/Message.pb.cc:2927-2945 | The object ends up with the merge of the two values. |
| Leaves.SendMessageRq.CopyFrom | QClientFramework/3rdParty/Protobuf/include/Message.pb.cc:2954-2959 | The object ends up with the value of the source whatever it held before. |
| Leaves.SendMessageRq.ByteSize | QClientFramework/3rdParty/Protobuf/include/Message.pb.cc:2882-2909 | The returned and cached size is the size of the value. |
| Leaves.SendMessageRq.SerializeToArray | QClientFramework/3rdParty/Protobuf/include/Message.pb.cc:2856-2880 | The array receives the serialization of the value, and nothing else changes. |
| Leaves.SendMessageRq.SerializeToStream | QClientFramework/3rdParty/Protobuf/include/Message.pb.cc:2835-2854 | The stream receives the same bytes. |
| RequestObject.Request.MutableLogin | QClientFramework/3rdParty/Protobuf/include/Message.pb.h:2372-2379 | The field becomes present; the object handed out is the old one or a new one and shows the old value, which is empty if the field was absent. |
| RequestObject.Request.ClearLogin | QClientFramework/3rdParty/Protobuf/include/Message.pb.h:2364-2367 | The field becomes absent while its object stays allocated and empty; the other field is unchanged. |
| RequestObject.Request.ReleaseLogin | QClientFramework/3rdParty/Protobuf/include/Message.pb.h:2380-2386 | The field becomes absent and the caller receives the object with its value. |
| RequestObject.Request.SetAllocatedLogin | QClientFramework/3rdParty/Protobuf/include/Message.pb.h:2387-2396 | The field takes over the given object, or becomes absent for a null pointer. |
| RequestObject.Request.StoredShowsValue | QClientFramework/3rdParty/Protobuf/include/Message.pb.h:2352-2442 | The object graph is valid if and only if it is a valid state of the storage of its schema, and both show the same value. |
| RequestObject.Request.Clear | QClientFramework/3rdParty/Protobuf/include/Message.pb.cc:3984-3998 | The request stands for the empty message, absent submessages are null or empty, and the pointers stay. |
| RequestObject.Request.MergeFrom | QClientFramework/3rdParty/Protobuf/include/Message.pb.cc:4152-4168 | The request ends up with the merge of the two values, through submessages created on demand. |
| RequestObject.Request.CopyFrom | QClientFramework/3rdParty/Protobuf/include/Message.pb.cc:4177-4182 | The request ends up with the value of the source whatever it held before. |
| RequestObject.Request.IsInitialized | QClientFramework/3rdParty/Protobuf/include/Message.pb.cc:4184-4193 | True if and only if every present submessage has its required fields. |
| RequestObject.Request.ByteSize | QClientFramework/3rdParty/Protobuf/include/Message.pb.cc:4104-4133 | The returned size is the size of the value, and every nested size that a length prefix is taken from has been cached exactly. |
| RequestObject.Request.CachedSizesAreLengths | QClientFramework/3rdParty/Protobuf/include/google/protobuf/wire_format_lite_inl.h:802-809 | After the size pass each cached size is the length of the bytes that follow the prefix written from it. |
| RequestObject.Request.SerializeToArray | QClientFramework/3rdParty/Protobuf/include/Message.pb.cc:4078-4102 | With cached lengths that are exact the array receives the serialization of the value, and nothing else changes. |
| RequestObject.Request.SerializeToStream | QClientFramework/3rdParty/Protobuf/include/Message.pb.cc:4057-4076 | The stream receives the same bytes. |
| RequestObject.Request.SerializePartialToArray | QClientFramework/3rdParty/Protobuf/include/google/protobuf/message_lite.cc:323-332 | True exactly if the buffer is long enough; then it starts with the serialization and the consistency check on the size cannot fire; otherwise it is unchanged. |
| Sha1.RotlIsCircularShift | QClientFramework/Component/http_service_moudle/hmac_sha1.cpp:129-142 | The masked left rotation is the circular shift of section 3.2 of FIPS 180-4, for every amount from 1 to 31. |
| Sha1.RotrIsCircularShift | QClientFramework/Component/http_service_moudle/hmac_sha1.cpp:114-127 | The masked right rotation by n is the left circular shift by 32 - n. |
| Sha1.PadMakesBlocks | QClientFramework/Component/http_service_moudle/hmac_sha1.cpp:167-183 | The padded length is the smallest multiple of 64 that holds the message, the marker and the length. |
| Sha1.PadInPlace | QClientFramework/Component/http_service_moudle/hmac_sha1.cpp:167-198 | The buffer becomes the message, 0x80, zeros and the 64-bit big-endian bit length; everything behind the last block is preserved. |
| Sha1.PrepareSchedule | QClientFramework/Component/http_service_moudle/hmac_sha1.cpp:244-259 | The 80 words are the message schedule of section 6.1.2 for the i-th block. |
| Sha1.RunRounds | QClientFramework/Component/http_service_moudle/hmac_sha1.cpp:280-299 | The 80-step loop over five variables is 80 applications of the round of section 6.1.2; what a round is, Sha1Rounds.RoundIs says. |
| Sha1Rounds.RoundIs | QClientFramework/Component/http_service_moudle/hmac_sha1.cpp:280-299 | One round with the constants and the logical functions of sections 4.1.1 and 4.2.1 written out. |
| Sha1.PadLayout | QClientFramework/Component/http_service_moudle/hmac_sha1.cpp:167-198 | The padded message is the message, 0x80, zeros, and the number of bits, most significant byte first. |
| Sha1.Digest | QClientFramework/Component/http_service_moudle/hmac_sha1.cpp:145-338 | The first 20 bytes of the digest are the SHA-1 of the first message bytes as FIPS 180-4 defines it, for every length below 2^28 and independently of what stood behind them. |
| KnownAnswers.HashOfAbc | QClientFramework/Component/http_service_moudle/hmac_sha1.cpp:145-338 | The SHA-1 of the three bytes abc is the digest in FIPS 180-2, appendix A.1. |
| Hmac.LongKeyIsItsHash | QClientFramework/Component/http_service_moudle/hmac_sha1.cpp:365-377 | A key longer than a block gives the same code as its 20-byte hash. |
| Hmac.ZeroExtendedKey | QClientFramework/Component/http_service_moudle/hmac_sha1.cpp:378-384 | Zero bytes appended to a key up to the block size do not change the code. |
| Hmac.ScratchFits | QClientFramework/Component/http_service_moudle/hmac_sha1.cpp:359-360 | The padded inner message fits the 4224-byte scratch array if and only if the data is at most 4151 bytes long, and the outer one always fits its 192 bytes. |
| Hmac.DeriveBlockKey | QClientFramework/Component/http_service_moudle/hmac_sha1.cpp:362-392 | Steps 1 to 3 of FIPS 198-1 for every key length; a long key is padded where it stands and otherwise kept. |
| Hmac.HashBlockAnd | QClientFramework/Component/http_service_moudle/hmac_sha1.cpp:404-418 | Copying a block and a text into zeroed scratch and hashing there gives the hash of their concatenation. |
| Hmac.HmacSha1 | QClientFramework/Component/http_service_moudle/hmac_sha1.cpp:345-454 | The digest is H((K0 xor opad) || H((K0 xor ipad) || text)) of FIPS 198-1 section 4 and RFC 2104 section 2, for every key length and every data length that fits, with the digest also used as scratch. |
| KnownAnswers.MacOfJefe | QClientFramework/Component/http_service_moudle/hmac_sha1.cpp:345-454 | The code of case 2 of RFC 2202: the key Jefe, and a text that makes each hash two blocks long. |
| Download.CountBoundsGap | QClientFramework/Component/http_service_moudle/HttpRequest.cpp:1264-1289 | Every count above one that can be chosen is at most ten and leaves chunks of at least two bytes. |
| Download.SplitCountAtThresholds | QClientFramework/Component/http_service_moudle/HttpRequest.cpp:1264-1289 | The number of chunks for every size: 1 up to 2 MB, one for each 2 MB up to 10 MB, 5 up to 50 MB, then one for each 10 MB, ten at most. |
| Download.RangeAt | QClientFramework/Component/http_service_moudle/HttpRequest.cpp:948-971 | Chunk i starts at i times the quotient of size and count, and ends before the next one starts; the last one is open. |
| Download.RangesAreOrdered | QClientFramework/Component/http_service_moudle/HttpRequest.cpp:948-971 | The chunks stand in order without gap or overlap, only the last is open-ended, and no bounded chunk has the ends 0 or -1 that mean something else. |
| Download.OneChunkOwns | QClientFramework/Component/http_service_moudle/HttpRequest.cpp:1213-1228 | Every byte of a file at least as long as the probed size is requested by exactly one chunk. |
| Download.DownloadHelper.CutIntoChunks | QClientFramework/Component/http_service_moudle/HttpRequest.cpp:926-992 | The loop creates one object for each range, shares the file between them, and sets the thread count to the smaller of the configured one and the number of chunks for the size. |
| Download.DownloadHelper.WriteCallback | QClientFramework/Component/http_service_moudle/HttpHelper.h:120-156 | One locked callback changes file, counter and cursor as the functional step says; if the download is cancelled or the seek fails it reports 0 and changes none of them, and otherwise it writes what lies in the range, as far as there is room, at the cursor, and moves counter and cursor by that. |
| Download.WriteAtEffect | QClientFramework/Component/http_service_moudle/HttpHelper.h:140-149 | After a write at an offset the block stands there, earlier contents stand elsewhere, and a hole reads as zeros. |
| Download.BoundedChunkStaysInRange | QClientFramework/Component/http_service_moudle/HttpHelper.h:129-138 | A bounded chunk whose cursor is at most one past its end stays there if and only if it enters within its range or nothing can be written. |
| Transfer.RunCounts | QClientFramework/Component/http_service_moudle/HttpHelper.h:151-152 | In every run of callbacks, cancellations and retries the downloaded size grows by the sum of all cursor advances, cursors never go back, and ranges never change. |
| Transfer.NothingAfterCancel | QClientFramework/Component/http_service_moudle/HttpHelper.h:124-127 | After a cancellation no run of callbacks and retries, of any chunks, changes the file, the count or a cursor, and the download stays cancelled. |
| Transfer.StepKeepsInv | QClientFramework/Component/http_service_moudle/HttpHelper.h:120-156 | A step keeps the bytes between each start and cursor equal to the source, the count exact and running cursors in step with their streams if and only if it is not a retry of a chunk that has written something. |
| Transfer.RunKeepsInv | QClientFramework/Component/http_service_moudle/HttpHelper.h:120-156 | The invariant holds after every interleaving of any number of steps in which every retry finds its cursor at the start. |
| Transfer.AssemblesSource | QClientFramework/Component/http_service_moudle/HttpRequest.cpp:948-983 | In every run in which every retry finds its cursor at the start, with any block sizes, short writes, failed seeks and cancellation, the written bytes are source bytes; when all ranges are delivered the file is the source and the counter is its length. |
| Transfer.DownloadCanComplete | QClientFramework/Component/http_service_moudle/HttpRequest.cpp:948-983 | For every file and every choice of chunks a complete run exists, and its file is the source. |
| Transfer.CountTellsHarm | QClientFramework/Component/http_service_moudle/HttpRequest.cpp:1231-1240 | A complete download of any number of chunks, with any retries, has counted exactly the bytes of the source if every retry found its cursor at the start, and more than that if one did not. |
| Transfer.RetryOverruns | QClientFramework/Component/http_service_moudle/HttpRequest.cpp:1231-1240 | Any chunk of any download that is retried, whatever else is retried: when all is delivered its cursor stands behind its range by at least what it had written before, the file reaches up to there, and the count is too large by at least as much; so a retried last chunk makes the file longer than the source. |
| Transfer.RunReaches | QClientFramework/Component/http_service_moudle/HttpHelper.h:140-152 | In every run, retries included, the file reaches every cursor that has advanced. |
| Transfer.RetryMisplaces | QClientFramework/Component/http_service_moudle/HttpRequest.cpp:1231-1240 | After any retry the first byte that arrives is the one at the start of the range, and it is written where the cursor stands. |
| Transfer.RetriedRegion | QClientFramework/Component/http_service_moudle/HttpRequest.cpp:1231-1240 | In a download of any number of chunks a chunk retried when its cursor stood at c has behind c, up to the end of its range, the bytes from its start again, whatever it does then and while the others stay in their ranges; its part of the file is that of the source if and only if the source repeats itself there. |
| Transfer.ObedientServerEntersInRange | QClientFramework/Component/http_service_moudle/HttpRequest.cpp:1213-1228 | A server that stops at the end of the requested range never offers a byte to a bounded chunk that is done. |
| Transfer.RegionsStayDisjoint | QClientFramework/Component/http_service_moudle/HttpHelper.h:129-155 | If bounded chunks enter their callbacks within range, what one chunk writes ends before what any later chunk writes, in every interleaving. |
| Transfer.RetryIsSoundExactlyFromScratch | QClientFramework/Component/http_service_moudle/HttpRequest.cpp:1231-1240 | For a download of any number of chunks, with short writes and cancellations, whose last chunk is retried once, other retries being harmless: when all is delivered the file is the source if and only if that chunk had written nothing, and longer than the source by at least what it had written if not. |
| Base64.UnpackPacked | QClientFramework/Component/http_service_moudle/base64.h:229-240 | Packing three bytes into four digits is undone by unpacking, byte by byte. |
| Base64.AlphabetInverts | QClientFramework/Component/http_service_moudle/base64.h:242-249 | Lookup inverts the alphabet on all 64 digits and the alphabet inverts lookup on every character that is a digit; the alphabet itself is given by Base64.AlphabetIsTable. |
| Base64.AlphabetIsTable | QClientFramework/Component/http_service_moudle/base64.h:4-6 | The 64 characters of the alphabet, by their codes. |
| Base64.KnownTexts | QClientFramework/Component/http_service_moudle/base64.h:10-51 | The encodings of f, fo and foo in section 10 of RFC 4648, one for each amount of padding. |
| Base64.EncodeCarriesBits | QClientFramework/Component/http_service_moudle/base64.h:10-51 | The digits of every input spell its bits, most significant first, followed by fewer than six zero bits (RFC 4648 section 4). |
| Base64.DecodeUndoesEncode | QClientFramework/Component/http_service_moudle/base64.h:95-144 | Decoding the encoding of any bytes gives them back, with the padding and after stripping it. |
| Base64.CanonicalExactlyWhenEncoded | QClientFramework/Component/http_service_moudle/base64.h:10-51 | A text is canonical in the sense of RFC 4648 section 3.5 if and only if encoding its decoding gives it back, so encoding is a bijection onto the canonical texts. |
| Base64.EncodedLengthIsExact | QClientFramework/Component/http_service_moudle/base64.h:216-222 | The length formula is the exact length of every encoding. |
| Base64.DecodedLengthIsExactWithinAGroup | QClientFramework/Component/http_service_moudle/base64.h:196-214 | For digits followed by padding the computed length is the number of decoded bytes if and only if the padding does not exceed what completes a group; beyond that it is too small. |
| Base64.DecodedLengthIsExactWhen | QClientFramework/Component/http_service_moudle/base64.h:95-144 | For every text: decoding fills the computed length, and reports success, if and only if the trailing padding stands for as many bytes as everything behind the first padding character; it writes past that length if and only if the padding stands for more. |
| Base64.AcceptedWithoutDigits | QClientFramework/Component/http_service_moudle/base64.h:95-144 | A text with an inner padding character and no digit before it that decoding accepts with an empty result. |
| Base64.EncodedTextsDecode | QClientFramework/Component/http_service_moudle/base64.h:95-144 | Encoded texts, padded or stripped, meet the precondition of decoding, and decoding reports success. |
| Base64Coder.EncodeString | QClientFramework/Component/http_service_moudle/base64.h:10-51 | The carry loop writes exactly the encoding within the precomputed length and returns true. |
| Base64Coder.EncodeBuffer | QClientFramework/Component/http_service_moudle/base64.h:53-93 | True exactly if the text fits; then the buffer starts with the same encoding and the rest is unchanged, otherwise all of it is. |
| Base64Coder.DecodeString | QClientFramework/Component/http_service_moudle/base64.h:95-144 | The carry loop writes the decoding within the computed length and returns whether it filled it. |
| Base64Coder.DecodeBuffer | QClientFramework/Component/http_service_moudle/base64.h:146-194 | The same into a buffer, with an early false when the computed length is negative or does not fit. |
| Base64Coder.ComputeDecodedLength | QClientFramework/Component/http_service_moudle/base64.h:196-214 | The backward count over the padding computes the decoded length. |
| Base64Coder.StripPadding | QClientFramework/Component/http_service_moudle/base64.h:224-226 | The result is the input without the run of padding characters at its end: the input is the result followed by padding only, and the result does not end in padding. |

## Left out

- Pointers and aliasing of the generated classes other than `LoginRq`, `SendMessageRq` and `Request`: their storage is a value that each operation replaces, so an object reached through two pointers is not expressed; the three classes as objects have no parser of their own, since the parser works on storage.
- Wire.UnknownRoundTrip: without the limit on nesting, which RecursionLimit.WrittenUnknownFits adds; RoundTrip.ParseUndoesSerialize and the laws of Concatenation likewise.
- StorageRuns.Execute: a call whose arguments the class does not accept is left out of the run, and a pointer is used only until the next call on its owner; descriptors, `New` on arenas, and appending to lists in place are not calls.
- RequestObject.Request.SetAllocatedLogin: requires another object than the one that the field owns, since the source deletes that one first.
- RequestObject.Request.MergeFrom: requires that the two objects share no submessage, and the classes assume that no pointer is kept across clear or release.
- The accessors of the three heap classes that repeat the pattern of a modelled one (`clear_user_id`, `clear_password`, the `sendMessage` forms of clear, release and set_allocated).
- Parser.ParsePartialFromArray: arrays above the total-bytes limit of 64 MB, of which the source accepts some and rejects others depending on where submessages lie, are excluded, as they are from runs; the warning threshold of 32 MB is not modelled.
- Parser.MergePartialFromCodedStream: the position, limit and recursion budget of the stream after a failure are not described; streams that refill their buffer, UTF-8 warnings, arenas and reflection are not modelled.
- Codec.ByteSize: sizes are unbounded numbers; the overflow of a message of 2 GB or more is excluded by bounding the size of submessages and, where bytes are serialized, of the message.
- Serializers.SerializePartialToStream: a sink that reports an error, and writing deterministically, are not modelled.
- Wire.VarintSize: the 32-bit and the 64-bit size functions are one function, since they agree where both apply.
- The specialised varint readers for flat buffers and the unrolled array writer are modelled by their plain loops.
- The schemas' conditions cover field numbers up to 14 and no repeated scalars, which is all that the repository's messages use.
- Sha1.Digest: the working words `h[5]` are one record of five words instead of an array; signed overflow in `(256 * 256 * 256) * message[i]` and in the rotation masks is modelled by its 32-bit wrap-around.
- Hmac.HmacSha1: requires that `digest` is neither `key` nor `data`, and that a long key which is also the data buffer is not shorter than the data, because it is padded in place.
- That padding is injective: bytes and lengths meet only through integer-to-bit-vector conversion, and the result would add little to the equality with the standard.
- Download.SplitDownloadCount: `double` is modelled by real numbers; conversions of sizes of 2^31 or more to `long` are outside the model, as are offsets beyond that.
- Transfer.RetriedRegion: assumes that no bounded chunk other than the retried one takes a byte behind its range; what an overrun leaves in a neighbour depends on the order of the writes.
- Transfer.AssemblesSource: assumes a server that sends each chunk the bytes of its own range in order; that a successful overall result means every chunk succeeded is not claimed, since the flag is overwritten by the chunk that finishes last.
- libcurl, threads and locks (one callback is one atomic step), real files (an array of bytes with holes that read as zeros), header matching, proxies, timeouts, progress reports, renaming and deleting the result, logging.
- Base64Coder.DecodeString: requires at least one character other than padding, a bound of `INT_MAX / 6` characters, and no more padding than fits, where the source reads or writes outside its strings.
- Base64Coder.EncodeBuffer: input and output must be different arrays, and strings are values, so encoding a string into itself is not modelled.
- The server's copy of the generated code, helper and UI classes, JSON headers and interfaces whose bodies are not in the repository.
