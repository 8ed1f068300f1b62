# miraipp core, modelled in Dafny

miraipp is a C++ client library for the mirai-api-http chat-bot service. This project
models the parts of it that are pure logic:

- the identifier value types and their orderings (`Ids`);
- the JSON layer: reading fields with the library's conversion rules (`JsonTree`) and
  writing JSON text through the quoted-string, object-scope and array-scope writers
  (`JsonWriter`);
- the configuration and information records read from and written to JSON (`Config`,
  `Info`);
- message segments, messages, sent messages and forwarded messages: their equality,
  text queries (which measure text in UTF-8 bytes, `Utf8`), collapsing of adjacent plain text, and their JSON round trips
  (`Segments`, `Messages`, `SentMessages`, `Forwarded`);
- the multipart request body builder (`Multipart`) and the HTTP status-code exception
  (`Status`);
- the event catalogue: event type names, the event records, their decoding from the
  event stream's JSON (`EventNames`, `Events`, `EventDecode`);
- the patterns a coroutine awaits an event with (`Patterns`);
- the three generations of the waiter queue that matches incoming events against
  suspended waiters: the filter queue with its cancellation handshake (`FilterQueues`,
  `FilterWaiters`), the pattern matcher queue whose items carry a one-shot `done` flag
  (`MatcherQueues`), and the earlier pattern awaiter queue without it (`AwaiterQueues`).

Every operation is a pure function over immutable values. A queue is a value holding
its items, its registration order and a log of the resumptions it performed. A
coroutine resumption becomes an entry in that log, and a run of the system becomes a
sequence of atomic actions. The properties proved about runs are the ones the
library's design rests on: no waiter is resumed twice; a resumed waiter receives an
event of the type it asked for that all its patterns accept; and in the filter
queue a cancelled waiter is resumed with no event (`FilterWaiters.ResumedOutcome`).
In the pattern matcher queue a cancel is resumed with whatever event the item holds:
no event when it comes first, but the matched event when it falls between a match's
store and its exchange of the `done` flag (`MatcherQueues.CancelBetweenStoreAndCommit`).

Two behaviours of the code shape the model:

- The pattern matcher queue resumes every pending item that accepts an event, not
  only the first one. So `MatcherQueues.ScanMeaning` states that all accepting items
  are resumed.
- The filter queue's `cancel_task` is not idempotent. A waiter it resumes is
  destroyed when its coroutine completes, so a second call would touch freed memory.
  The model therefore lets `cancel_task` run at most once per waiter.

## Model

| member | source | states |
|---|---|---|
| Ids.Wrap64 | lib/include/mirai/core/common.h:70 | the `static_cast<int64_t>` the literals perform: the result is congruent to the input modulo 2^64 and equals it when it fits |
| Ids.Wrap32 | lib/src/detail/json.h:184-196 | the narrowing cast to a 32-bit integer: congruent modulo 2^32 and exact when the value fits |
| Ids.DefaultIdsInvalid | lib/include/mirai/core/common.h:8-29 | a default-constructed user or group id is invalid, and an id is valid exactly when it differs from the default |
| Ids.CompareTempId | lib/include/mirai/core/common.h:32-38 | the defaulted `operator<=>` of `TempId`: less, equal or greater by the user id first and then the group id, equal exactly for equal ids |
| Ids.CompareMessageId | lib/include/mirai/core/common.h:41-48 | the defaulted `operator<=>` of `MessageId`: ordered as the integer, equal exactly for equal ids |
| Ids.TempIdOrderIsTotal | lib/include/mirai/core/common.h:37 | the session-id comparison is antisymmetric, transitive on `Less` and reflexive on `Equal` |
| Ids.TargetTypeNameInjective | lib/include/mirai/core/common.h:53-64 | the three target names are distinct, so the name determines the target kind |
| Ids.UidLiteral | lib/include/mirai/core/common.h:70 | the `_uid` literal keeps values below 2^63 and maps larger ones to negative ids by subtracting 2^64 |
| Ids.GidLiteral | lib/include/mirai/core/common.h:73 | the `_gid` literal, with the same two cases as `_uid` |
| JsonTree.FirstKey | lib/src/detail/json.h:12-13 | the field a key lookup finds is the first field with that key: no earlier field has it, and none at all when the key is absent |
| JsonTree.Lookup | lib/src/detail/json.h:221 | a lookup succeeds exactly on an object that has the key; a missing key is the `NO_SUCH_FIELD` error and a non-object an incorrect-type error |
| JsonTree.LookupAt | lib/src/detail/json.h:221 | a field is found under its key when no earlier field carries that key |
| JsonTree.GetString | lib/src/detail/json.h:204-208 | the string conversion succeeds exactly on a string, gives its text, and passes a lookup error through |
| JsonTree.GetBool | lib/src/detail/json.h:189-190 | the bool conversion succeeds exactly on a boolean and passes a lookup error through |
| JsonTree.GetInt64 | lib/src/detail/json.h:193-194 | the signed conversion succeeds exactly on an integer that fits in 64 signed bits and gives that integer |
| JsonTree.GetUint64 | lib/src/detail/json.h:191-192 | the unsigned conversion succeeds exactly on an integer in [0, 2^64) and gives that integer |
| JsonTree.GetInt32 | lib/src/detail/json.h:193-194 | a 32-bit signed field is read as 64 bits and truncated: it succeeds when the 64-bit read does, and the value is congruent modulo 2^32 and exact when it fits |
| JsonTree.GetUint32 | lib/src/detail/json.h:191-192 | a 32-bit unsigned field is the 64-bit value reduced modulo 2^32 |
| JsonTree.GetOptional | lib/src/detail/json.h:216-226 | the optional conversion is empty on a missing field or null; otherwise it succeeds exactly when the inner conversion does and wraps its value |
| JsonTree.ConvertAll | lib/src/detail/json.h:228-238 | converting elements succeeds exactly when every element converts, and then gives one value per element, in order |
| JsonTree.ConvertAllExact | lib/src/detail/json.h:228-238 | elements that each convert to a given value convert to exactly that sequence |
| JsonTree.ConvertAllSnoc | lib/src/detail/json.h:233-236 | converting one more element reports the earlier failure first, then the new element's failure, and otherwise appends its value |
| JsonTree.ConvertAllStep | lib/src/detail/json.h:234-235 | one more iteration of the conversion loop either fails with that element's error or appends its value |
| JsonTree.ConvertAllPrefixFails | lib/src/detail/json.h:234-235 | once a prefix fails, the whole conversion fails with that same error |
| JsonTree.GetArray | lib/src/detail/json.h:228-238 | the vector conversion succeeds only on an array, with one converted value per element, in order |
| JsonWriter.EscapeChar | lib/src/detail/json.h:46-57 | a character is written as itself unless it is one of the five escaped control characters, which take a backslash and a letter |
| JsonWriter.Escape | lib/src/detail/json.h:46-57 | the escaped content is never shorter than the string |
| JsonWriter.Quote | lib/src/detail/json.h:42-60 | a quoted string is the escaped content between two double quotes |
| JsonWriter.EscapeIdentity | lib/src/detail/json.h:56 | a string without any of the five control characters is copied verbatim |
| JsonWriter.EscapeAppend | lib/src/detail/json.h:46 | escaping works character by character, so it distributes over concatenation |
| JsonWriter.Unescape | lib/src/detail/json.h:49-53 | reading the five escapes back never lengthens the text |
| JsonWriter.ControlForEscape | lib/src/detail/json.h:49-53 | each two-character escape names the control character it stands for |
| JsonWriter.UnescapeOne | lib/src/detail/json.h:46-57 | one escaped character other than a backslash is read back as itself |
| JsonWriter.UnescapeEscape | lib/src/detail/json.h:42-60 | escaping is undone by reading back, for every string without a backslash |
| JsonWriter.QuoteNotInjective | lib/src/detail/json.h:54-55 | two different strings, a newline and a backslash followed by `n`, are written as the same JSON text |
| JsonWriter.QuoteReadsBack | lib/src/detail/json.h:42-60 | a string with no double quote and no backslash is written as a token whose only quotes are the two the writer adds, and its content reads back as the string |
| JsonWriter.EscapeCharIntended | lib/src/detail/json.h:46-57 | the corrected escape: a quote and a backslash are escaped too, and other characters as before |
| JsonWriter.QuoteIntended | lib/src/detail/json.h:42-60 | the corrected quoting: escaped content between two double quotes |
| JsonWriter.UnescapeJsonOne | lib/src/detail/json.h:46-57 | under the corrected escape every character, backslash and quote included, is read back as itself |
| JsonWriter.UnescapeEscapeIntended | lib/src/detail/json.h:42-60 | under the corrected escape every string is read back exactly |
| JsonWriter.QuoteIntendedInjective | lib/src/detail/json.h:42-60 | under the corrected escape two strings are written the same exactly when they are equal |
| JsonWriter.NatText | lib/src/detail/json.h:113-114 | the decimal text of a natural number is a non-empty run of digits with no leading zero |
| JsonWriter.IntText | lib/src/detail/json.h:113-114 | the decimal text of an integer starts with a minus sign exactly when it is negative |
| JsonWriter.DigitValue | lib/src/detail/json.h:113-114 | a digit's value is below ten |
| JsonWriter.DigitValueOfDigitChar | lib/src/detail/json.h:113-114 | reading a written digit gives back its value |
| JsonWriter.NatTextRoundTrip | lib/src/detail/json.h:113-114 | the decimal text of a natural number reads back as that number |
| JsonWriter.SingleEntryObject | lib/src/detail/json.h:75-84 | an object with one entry is the entry between braces, with no separator |
| JsonWriter.AddEntry | lib/src/detail/json.h:79-84 | `add_entry` only appends to the text and clears the first-entry flag |
| JsonWriter.AddElement | lib/src/detail/json.h:98-103 | the array scope's `add_entry` only appends to the text and clears the first-entry flag |
| JsonWriter.AddEntriesText | lib/src/detail/json.h:79-84 | adding entries one by one writes them separated by commas, with a comma before the first only if the scope already had an entry |
| JsonWriter.AddElementsText | lib/src/detail/json.h:98-103 | adding elements one by one writes them separated by commas, with a comma before the first only if the scope already had an element |
| JsonWriter.ObjectScopeWritesObject | lib/src/detail/json.h:68-85 | opening an object scope, adding entries and closing it writes exactly the object text: braces around the comma-separated entries |
| JsonWriter.ObjectJson | lib/src/detail/json.h:68-85 | an object written with a fresh scope is the object text and starts and ends with a brace |
| JsonWriter.ArrayScopeWritesArray | lib/src/detail/json.h:87-104 | opening an array scope, adding elements and closing it writes exactly the array text |
| JsonWriter.ToTrees | lib/src/detail/json.h:117-122 | the document a written range denotes has one element per value, each the value's document |
| JsonWriter.ToFields | lib/src/detail/json.h:68-85 | the document a written object denotes has one field per entry, under the entry's key, in order |
| JsonWriter.FromTrees | lib/src/detail/json.h:108-132 | a parsed array is written back with one value per element |
| JsonWriter.FromFields | lib/src/detail/json.h:108-132 | a parsed object is written back with one entry per field |
| JsonWriter.FromTreeDenotes | lib/src/detail/json.h:108-132 | every parsed document can be written back so that it denotes the same document, reading the document the written text denotes |
| JsonWriter.FromTreesDenote | lib/src/detail/json.h:117-122 | a parsed array written back denotes the same elements, reading the document the written text denotes |
| JsonWriter.FromFieldsDenote | lib/src/detail/json.h:68-85 | a parsed object written back denotes the same fields, reading the document the written text denotes |
| JsonWriter.OptionalStringRoundTrip | lib/src/detail/json.h:123-129 | an optional string written as its value or `null` reads back as the same optional, reading the document the written text denotes |
| Config.SessionConfigFromJson | lib/src/core/config_types.cpp:7-14 | a session configuration is read exactly when the `cacheSize` field converts to a 32-bit integer and `enableWebsocket` to a boolean (missing or null reading as absent); each field is the value read under its key, so it is present exactly when that key holds a non-null value |
| Config.GroupConfigFromJson | lib/src/core/config_types.cpp:16-27 | a group configuration is read exactly when all six optional fields convert; each of name, announcement, confess talk, member invitation, auto approve and anonymous chat is the value read under its own key (`confessTalk`, `allowMemberInvite` and so on), present exactly when that key holds a non-null value |
| Config.GroupConfigWritable | lib/src/core/config_types.cpp:29-38 | a group configuration is written as an object with all six keys in a fixed order, each an optional that is `null` exactly when the field is absent |
| Config.GroupConfigJson | lib/src/core/config_types.cpp:29-38 | the text written by the object scope is the text of that six-key object |
| Config.GroupConfigNameField | lib/src/core/config_types.cpp:20 | the written `name` key reads back as the configuration's name, reading the document the written text denotes |
| Config.GroupConfigAnnouncementField | lib/src/core/config_types.cpp:21 | the written `announcement` key reads back as the announcement, reading the document the written text denotes |
| Config.GroupConfigConfessField | lib/src/core/config_types.cpp:22 | the written `confessTalk` key reads back as the confess-talk flag |
| Config.GroupConfigInviteField | lib/src/core/config_types.cpp:23 | the written `allowMemberInvite` key reads back as the invitation flag |
| Config.GroupConfigApproveField | lib/src/core/config_types.cpp:24 | the written `autoApprove` key reads back as the approval flag |
| Config.GroupConfigAnonymousField | lib/src/core/config_types.cpp:25 | the written `anonymousChat` key reads back as the anonymous-chat flag |
| Config.DecodeGroupConfigTree | lib/src/core/config_types.cpp:16-27 | decoding the document of a group configuration gives that configuration |
| Config.GroupConfigDenotes | lib/src/core/config_types.cpp:29-38 | the written object denotes the document with the six fields in order |
| Config.GroupConfigRoundTrip | lib/src/core/config_types.cpp:16-38 | a group configuration written and read back is unchanged, because every field is read from the key it is written under, reading the document the written text denotes |
| Config.MemberInfoFromJson | lib/src/core/config_types.cpp:40-47 | member information succeeds exactly when both optional strings convert; name and special title are the values read under `name` and `specialTitle`, each present exactly when its key holds a non-null value |
| Config.MemberInfoWritable | lib/src/core/config_types.cpp:49-54 | member information is written as an object with the keys `name` and `specialTitle`, in that order |
| Config.MemberInfoRoundTrip | lib/src/core/config_types.cpp:40-54 | member information written and read back is unchanged, reading the document the written text denotes |
| Config.SessionConfigRoundTrip | lib/src/core/config_types.cpp:7-14 | the document a server sends for any session configuration, each setting as a value or null, reads back as that configuration |
| Segments.TypeNameInjective | lib/src/message/segment.cpp:21-35 | the wire names of the segment kinds are pairwise distinct |
| Segments.TypeFromName | lib/src/message/segment.cpp:21-35 | the dispatch finds a kind only for that kind's own name, and none for a name no kind has |
| Segments.TypeFromNameOfTypeName | lib/src/message/segment.cpp:21-35 | every kind's own name dispatches to that kind |
| Segments.Get | lib/include/mirai/message/segment.h:40-55 | `get<T>` succeeds exactly when the segment holds a T and throws a type-mismatch error otherwise |
| Segments.GetIf | lib/include/mirai/message/segment.h:57-63 | `get_if<T>` is non-null exactly when the segment holds a T |
| Segments.GetAgreesWithGetIf | lib/include/mirai/message/segment.h:40-63 | the checked and the nullable access succeed on the same segments and give the same component |
| Segments.FromText | lib/include/mirai/message/segment.h:70-74 | constructing a segment from a string gives a plain segment with that text, which compares equal to the string |
| Segments.CompareWithTextMeaning | lib/src/message/segment.cpp:10-15 | comparing with a string holds exactly for a plain segment with that text, and never for another kind |
| Segments.SegmentEqReflexiveSymmetric | lib/include/mirai/message/segment_types.h:26-172 | the per-kind equality is reflexive and symmetric |
| Segments.SegmentEqNotTransitive | lib/src/message/segment_types.cpp:27-31 | the per-kind equality is not transitive: two faces can share an id, and the second share a name with a third face with another id |
| Segments.SegmentEqFacts | lib/include/mirai/message/segment_types.h:26 | equal segments are of one kind, identical segments are equal, and an at compares its target only, whatever its display text |
| Segments.FirstPresent | lib/src/message/segment_types.cpp:71-77 | the first present of id, url and path, in that order, and none only when all three are absent |
| Segments.FormatText | lib/src/message/segment_types.cpp:71-77 | the text form of a plain, XML, JSON or app segment is its content, an image's is its first present field or `null`, and only a forwarded element has no text form here |
| Segments.FirstPresentEntries | lib/src/message/segment_types.cpp:79-86 | an image writes at most one field besides its type: the first present of id, url and path |
| Segments.SegmentWritable | lib/src/message/segment_types.cpp:11-192 | every kind other than a forwarded element is written as an object whose first entry is its type name; a forwarded element is written as the document it was read from |
| Segments.AtAllWritable | lib/include/mirai/message/segment_types.h:41 | at-all is written with its type entry only |
| Segments.AtAllJson | lib/include/mirai/message/segment_types.h:41 | at-all's JSON text is exactly the object holding the type name `AtAll` |
| Segments.ImageTextMatchesJson | lib/src/message/segment_types.cpp:71-86 | an image's text form and its JSON agree: the written field holds the text shown, and an image with no field shows `null` and writes only its type |
| Segments.SegmentFromJson | lib/src/message/segment.cpp:17-38 | a segment read from a document is of the kind its `type` names, and an unknown type name raises the unknown-segment-type error |
| Segments.DispatchOnType | lib/src/message/segment.cpp:21-35 | a document whose `type` names a kind is read by that kind's reader |
| Segments.ReadKind | lib/src/message/segment.cpp:23-34 | each kind's reader gives a segment of that kind |
| Segments.AtFromJson | lib/src/message/segment_types.cpp:18-25 | an at is read exactly when both the target and the display text are present with the right types, and keeps the target |
| Segments.FaceFromJson | lib/src/message/segment_types.cpp:48-55 | a face is read exactly when `faceId` is missing, null or a 32-bit unsigned integer and `name` is a string; the name is that string, the id is the integer read, and the id is absent exactly when `faceId` is missing or null |
| Segments.TextFromJson | lib/include/mirai/message/segment_types.h:72 | a one-string kind is read exactly when its key holds a string; the segment is of the requested kind and carries exactly that string |
| Segments.ThreeOptional | lib/src/message/segment_types.cpp:88-96 | the id, url and path triple is read exactly when all three keys convert to optional strings; each part is the value read under its key, absent exactly when the key is missing or null |
| Segments.FirstPresentDenoted | lib/src/message/segment_types.cpp:79-86 | the document of a written image holds the type and, if any, the first present field |
| Segments.MediaTreeDenoted | lib/src/message/segment_types.cpp:79-154 | the document an image, flash image or voice is written as is its type and first present field |
| Segments.FaceTreeDenoted | lib/src/message/segment_types.cpp:40-46 | the document a face is written as holds the type, the id or null, and the name or null |
| Segments.PlainKindTreeDenoted | lib/src/message/segment_types.cpp:57-192 | the document a one-string kind is written as holds its type and its string under the kind's key |
| Segments.SegmentTreeDenoted | lib/src/message/segment_types.cpp:11-192 | the written object of every kind denotes that kind's document |
| Segments.ReadTypeName | lib/src/message/segment.cpp:21 | a written segment names its own kind, so reading it back dispatches to that kind's reader |
| Segments.ReadTextKind | lib/include/mirai/message/segment_types.h:72 | a document holding a type name and one string under the kind's key reads back as that string |
| Segments.PlainRoundTrip | lib/src/message/segment_types.cpp:57-62 | a plain segment written and read back is unchanged, reading the document the written text denotes |
| Segments.XmlRoundTrip | lib/src/message/segment_types.cpp:166-171 | an XML segment written and read back is unchanged, reading the document the written text denotes |
| Segments.JsonRoundTrip | lib/src/message/segment_types.cpp:173-178 | a JSON segment written and read back is unchanged, reading the document the written text denotes |
| Segments.AppRoundTrip | lib/src/message/segment_types.cpp:180-185 | an app segment written and read back is unchanged, reading the document the written text denotes |
| Segments.PokeRoundTrip | lib/src/message/segment_types.cpp:187-192 | a poke segment written and read back is unchanged, reading the document the written text denotes |
| Segments.TextKindRoundTrip | lib/src/message/segment_types.cpp:57-192 | at-all and every one-string kind read back as themselves, reading the document the written text denotes |
| Segments.AtDoesNotRoundTrip | lib/src/message/segment_types.cpp:11-25 | an at never reads back: its display text is required but not written, so the read fails on the missing `display` key |
| Segments.ReadFaceId | lib/src/message/segment_types.cpp:44-52 | a written face id reads back exactly when it is absent or not negative, and then reads back as the same id |
| Segments.ReadFaceName | lib/src/message/segment_types.cpp:45-53 | a written face name reads back exactly when it is present; a `null` name is the wrong type, reading the document the written text denotes |
| Segments.FaceRoundTrip | lib/src/message/segment_types.cpp:40-55 | a face reads back exactly when it has a name and no negative id, and then reads back unchanged, reading the document the written text denotes |
| Segments.KeepFirstPresent | lib/src/message/segment_types.cpp:64-69 | keeping only the first present field gives a segment of the same kind that is equal to the original both ways |
| Segments.ReadOnlyType | lib/src/message/segment_types.cpp:88-96 | an image document holding only its type reads back with no fields |
| Segments.ReadOnlyId | lib/src/message/segment_types.cpp:88-96 | an image document holding its type and id reads back with only the id |
| Segments.ReadOnlyUrl | lib/src/message/segment_types.cpp:88-96 | an image document holding its type and url reads back with only the url |
| Segments.ReadOnlyPath | lib/src/message/segment_types.cpp:88-96 | an image document holding its type and path reads back with only the path |
| Segments.ReadFirstPresent | lib/src/message/segment_types.cpp:79-96 | reading back the fields written for an image gives its first present field, and the later fields absent, reading the document the written text denotes |
| Segments.ImageRoundTrip | lib/src/message/segment_types.cpp:79-96 | an image reads back with only its first present field, reading the document the written text denotes |
| Segments.FlashImageRoundTrip | lib/src/message/segment_types.cpp:113-130 | a flash image reads back with only its first present field, reading the document the written text denotes |
| Segments.VoiceRoundTrip | lib/src/message/segment_types.cpp:147-164 | a voice reads back with only its first present field, reading the document the written text denotes |
| Segments.MediaRoundTrip | lib/src/message/segment_types.cpp:64-164 | an image, flash image or voice reads back as a segment equal to the original under its own equality, reading the document the written text denotes |
| Segments.WrittenSegmentReadsBack | lib/src/message/segment.cpp:17-38 | every written segment reads back as an equal segment, and the one-string kinds and at-all as the very same segment; the exceptions are an at, a face without a name or with a negative id, and a forwarded element whose document does not name its type, reading the document the written text denotes |
| Messages.AppendSegment | lib/include/mirai/message/message.h:73-78 | `+=` with a segment keeps every existing segment and puts the new one last |
| Messages.Concat | lib/include/mirai/message/message.h:84-104 | concatenation keeps the left message as a prefix and the right one, in order, after it |
| Messages.Clear | lib/include/mirai/message/message.h:131 | a cleared message has no segments |
| Messages.Swap | lib/include/mirai/message/message.h:132-133 | swapping exchanges the two messages |
| Messages.MessageEqReflexiveSymmetric | lib/include/mirai/message/message.h:109 | message equality, segment by segment, is reflexive and symmetric |
| Messages.EqualityMeaning | lib/include/mirai/message/message.h:110-128 | a message equals a string exactly when it is the single plain segment with that text; comparing with a plain segment is comparing with its text; a message equal to a segment has one segment of that kind |
| Messages.StartsWithTextMeaning | lib/src/message/message.cpp:8-19 | comparing the first bytes of a leading plain segment's UTF-8 text with the prefix's bytes answers whether the text is empty or a character prefix of that segment's text |
| Messages.EndsWithText | lib/src/message/message.cpp:21-33 | the suffix test as written throws out-of-range exactly when the suffix is non-empty and has more UTF-8 bytes than the text of a leading plain segment |
| Messages.EndsWithTextAnswer | lib/src/message/message.cpp:21-33 | when the test as written answers, it answers whether the first segment is plain and its text ends with the suffix |
| Messages.EndsWithTextLooksAtFirst | lib/src/message/message.cpp:25-29 | as written, a message whose last plain segment ends with the text is not recognised, and a suffix longer than the first segment throws, also when it is one character of three bytes against two characters |
| Messages.EndsWithTextCountsBytes | lib/src/message/message.cpp:27-30 | lengths are UTF-8 byte counts: "ab" against the one three-byte character U+4E2D throws, and U+4E2D against "ab" compares its last two bytes and answers false |
| Messages.EndsWithTail | lib/src/message/message.cpp:27-30 | a string ends with a suffix exactly when the suffix fits and is the string's tail of that length |
| Messages.EndsWithTextIntendedMeaning | lib/src/message/message.cpp:21-33 | the corrected suffix test, still comparing UTF-8 bytes, holds exactly when the suffix is empty or the last segment is plain and ends with it, and appending the suffix as a plain segment always makes it hold |
| Utf8.ByteSuffixIsCharSuffix | lib/src/message/message.cpp:27-30 | the bytes of a suffix end the bytes of a text exactly when the suffix ends the text |
| Utf8.BytePrefixIsCharPrefix | lib/src/message/message.cpp:14-16 | the bytes of a prefix begin the bytes of a text exactly when the prefix begins the text |
| Messages.OccursFromMeaning | lib/src/message/message.cpp:43 | the search from a position finds the needle exactly when it occurs at that position or later |
| Messages.AnyPlainContainsMeaning | lib/src/message/message.cpp:38-46 | some plain segment from a position on contains the needle exactly when there is such a segment whose UTF-8 bytes contain the needle's UTF-8 bytes |
| Messages.ContainsTextMeaning | lib/src/message/message.cpp:35-47 | although the search runs over UTF-8 bytes, a message contains a text exactly when the text is empty or some plain segment has it as a substring of characters |
| Utf8.ByteInfixIsCharInfix | lib/src/message/message.cpp:35-47 | the UTF-8 bytes of a needle occur in the UTF-8 bytes of a text exactly when the needle occurs in the text as characters: a byte search never matches across a character boundary |
| Messages.StartsWithSegment | lib/src/message/message.cpp:66-72 | starting with a plain segment is the text prefix test; starting with any other segment means a first segment equal to it |
| Messages.StartsWithMessageNeverHolds | lib/src/message/message.cpp:74-77 | starting with a message is never true, not even for the empty message or the message itself |
| Messages.CollectTextConcat | lib/src/message/message.cpp:79-87 | the collected text of a concatenation is the two collected texts joined |
| Messages.Collect | lib/include/mirai/message/message.h:153-159 | collecting one kind gives only segments of that kind, and no more segments than the message has |
| Messages.CollectTextIsCollectedPlain | lib/src/message/message.cpp:79-87 | the collected text is the texts of the collected plain segments, joined in order |
| Messages.Push | lib/src/message/message.cpp:52-61 | one merge step appends to the previous plain segment when both are plain, and otherwise adds a segment |
| Messages.CollapseTwoPlain | lib/src/message/message.cpp:49-64 | two plain segments in a row become one with the texts joined |
| Messages.PushFacts | lib/src/message/message.cpp:52-61 | one merge step keeps "no two adjacent plain segments", extends the collected text by the segment's text, and keeps the other segments in order |
| Messages.CollapseInvariants | lib/src/message/message.cpp:49-64 | after merging no two adjacent segments are plain, and the collected text and the sequence of other segments are unchanged |
| Messages.CollapseFixesMerged | lib/src/message/message.cpp:49-64 | a message without adjacent plain segments is left as it is |
| Messages.CollapseIdempotent | lib/src/message/message.cpp:49-64 | merging twice is merging once |
| Messages.PushAllCollapse | lib/src/message/message.cpp:52-61 | pushing further segments onto a merged prefix merges the whole message |
| Messages.CollapseAdjacentText | lib/src/message/message.cpp:49-64 | the loop computes the merge: no adjacent plain segments remain, and the collected text and other segments are unchanged |
| Messages.FormatMessageMeaning | lib/src/message/message.cpp:89-93 | a message has a text form exactly when none of its segments is a forwarded element, and the text form of a concatenation extends that of its prefix |
| Messages.MessageWritable | lib/src/message/message.cpp:95-100 | a message is written as an array with one entry per segment, each written as that segment |
| Messages.MessageJsonText | lib/src/message/message.cpp:95-100 | the array scope writes exactly the array text of the segments |
| Messages.DecodePushIsCollapse | lib/src/message/message.cpp:102-118 | decoding and pushing element by element is pushing all decoded segments, and fails when any element fails |
| Messages.MessageFromJsonCollapses | lib/src/message/message.cpp:102-118 | reading a message merges adjacent plain segments exactly as `collapse_adjacent_text` does, and fails when a segment does |
| Messages.ReadsBackElementwise | lib/src/message/message.cpp:95-107 | every segment of a written message whose segments round-trip reads back as itself, reading the document the written text denotes |
| Messages.MessageRoundTrip | lib/src/message/message.cpp:95-118 | a written message of round-tripping segments reads back as the merged message, reading the document the written text denotes |
| Info.PermissionFromString | lib/src/core/info_types.cpp:10-22 | a permission is read exactly from the three names `MEMBER`, `ADMINISTRATOR` and `OWNER`; any other string raises the unknown-permission error |
| Info.PermissionNameRoundTrip | lib/src/core/info_types.cpp:14-19 | reading a level's name gives that level, and a name that is read is the level's own name |
| Info.GetPermission | lib/src/core/info_types.cpp:40 | a permission field is read exactly when it is a string naming a level, and names that level |
| Info.FriendFromJson | lib/src/core/info_types.cpp:24-32 | a friend is read exactly when `id` is a 64-bit integer and `nickname` and `remark` are strings, and carries those values |
| Info.GroupFromJson | lib/src/core/info_types.cpp:34-42 | a group is read exactly when `id`, `name` and `permission` read, and carries those values |
| Info.MemberFromJson | lib/src/core/info_types.cpp:44-53 | a member is read exactly when the nested group and the `id`, `memberName` and `permission` fields read, and carries those values |
| Info.FriendRoundTrip | lib/src/core/info_types.cpp:24-32 | the document the server sends for a friend decodes to that friend |
| Info.GroupRoundTrip | lib/src/core/info_types.cpp:34-42 | the document the server sends for a group decodes to that group |
| Info.MemberRoundTrip | lib/src/core/info_types.cpp:44-53 | the document the server sends for a member decodes to that member |
| Info.UnknownPermissionRejected | lib/src/core/info_types.cpp:19 | a group record with an unknown permission name fails to decode |
| Multipart.PartText | lib/src/detail/multipart_builder.cpp:11-16 | one part is the delimiter and disposition header naming the key, followed by the value verbatim |
| Multipart.AddKeyValue | lib/src/detail/multipart_builder.cpp:9-17 | adding a key/value part keeps the earlier text as a prefix and adds exactly that part's text |
| Multipart.TakeString | lib/src/detail/multipart_builder.cpp:41-45 | taking the body returns the accumulated text followed by the closing delimiter and leaves the builder empty |
| Multipart.AddAllText | lib/src/detail/multipart_builder.cpp:9-17 | a sequence of additions appends the parts' texts in call order and rewrites nothing written earlier |
| Multipart.BodyOfParts | lib/src/detail/multipart_builder.cpp:9-45 | a body built from an empty builder is the parts in call order followed by the closing delimiter |
| Status.DescriptionTable | lib/src/core/exceptions.cpp:7-27 | success reads "正常", every named code has a description of its own, and every other code gets the unknown-error text |
| Status.RevisionsShareCaseStructure | lib/src/core/mirai_exception.cpp:7-29 | the two revisions of the table name the same codes, share the fallback text, and agree on the codes whose texts have no Latin words or parentheses |
| Status.NewMiraiException | lib/include/mirai/core/exceptions.h:37-41 | the exception keeps its status code, and its message is the code's description |
| Status.CheckStatusCode | lib/src/core/exceptions.cpp:29-33 | checking a code passes exactly for success, and otherwise throws the exception carrying that code and its description |
| SentMessages.SentMessageEqIsEquivalence | lib/include/mirai/message/sent_message.h:32 | comparing received messages by source alone is an equivalence |
| SentMessages.EqualityIgnoresContent | lib/include/mirai/message/sent_message.h:22-32 | two received messages with one source are equal whatever their quotes and content, and two quotes with one id are equal whatever they quote and whoever sent them |
| SentMessages.SourceFromJson | lib/src/message/sent_message.cpp:7-14 | a source is read exactly when "id" and "time" are both 32-bit integers, and it holds those two values |
| SentMessages.QuoteFromJson | lib/src/message/sent_message.cpp:16-24 | a quote is read exactly when "id" is a 32-bit and "senderId" a 64-bit integer and "origin" is present and reads as a message; it then holds those three values |
| SentMessages.ReadItem | lib/src/message/sent_message.cpp:32-39 | an element is read exactly when its "type" is a string and the reader that string selects succeeds: "Source" gives a source, "Quote" a quote, anything else a segment, each being what its own reader gives |
| SentMessages.LastSource | lib/src/message/sent_message.cpp:29-36 | the reference source is present exactly when some element is a source, and then it is the last such element |
| SentMessages.LastQuote | lib/src/message/sent_message.cpp:29-37 | the reference quote is present exactly when some element is a quote, and then it is the last such element |
| SentMessages.SegmentsOf | lib/src/message/sent_message.cpp:38 | the segments collected from a chain are never more than its elements |
| SentMessages.ApplyAllMeaning | lib/src/message/sent_message.cpp:26-43 | reading the chain in order keeps the last source (else the default one), the last quote (else none), and every segment in order |
| SentMessages.SegmentsOfCount | lib/src/message/sent_message.cpp:38 | the content has exactly one segment per segment element, so adjacent plain text is not merged here |
| SentMessages.ApplyAllSnoc | lib/src/message/sent_message.cpp:29-41 | reading one more element applies it to the message read so far |
| SentMessages.ReadSentMessage | lib/src/message/sent_message.cpp:26-43 | the loop yields the functional reading: a non-array is an error, the first unreadable element is the error, and otherwise the elements are applied in order |
| Forwarded.ForwardedWritable | lib/src/message/forwarded_message.cpp:7-14 | a forwarded message is written as an object with senderId, time, senderName and messageChain in that order, the chain as its segment array |
| Forwarded.ForwardedJson | lib/src/message/forwarded_message.cpp:7-14 | the object scope's text is the generic writer's text of that object |
| Forwarded.ForwardedFromJson | lib/src/message/forwarded_message.cpp:16-25 | a forwarded message is read exactly when "senderId" is a 64-bit integer, "time" a 32-bit integer, "senderName" a string and "messageChain" is present and reads as a message; it then holds those four values |
| Forwarded.ForwardedDenotes | lib/src/message/forwarded_message.cpp:7-14 | the written object denotes the document with the four fields in order |
| Forwarded.ForwardedRoundTrip | lib/src/message/forwarded_message.cpp:7-25 | writing then reading a forwarded message keeps sender, time and name, and gives the content merged as the message reader merges it, reading the document the written text denotes |
| Forwarded.ForwardedRoundTripMerges | lib/include/mirai/message/forwarded_message.h:15 | two adjacent plain pieces come back as one, so the value read back differs from the one written under the defaulted comparison, reading the document the written text denotes |
| EventNames.PrimaryName | lib/src/event/event.cpp:16-48 | every event type has at least one "type" string the dispatch accepts for it |
| EventNames.MessageTypeFromName | lib/src/event/event.cpp:16-18 | the message run of the dispatch selects a message type exactly for one of that type's names, and rejects a name of no message type |
| EventNames.BotTypeFromName | lib/src/event/event.cpp:19-29 | the bot run selects a bot-event type exactly for one of that type's names, both online names and all three offline names included |
| EventNames.GroupTypeFromName | lib/src/event/event.cpp:30-37 | the recall and group run selects its type exactly for one of that type's names, all four setting names included |
| EventNames.MemberTypeFromName | lib/src/event/event.cpp:38-45 | the member run selects a member-event type exactly for one of that type's names |
| EventNames.RequestTypeFromName | lib/src/event/event.cpp:46-48 | the request run selects a request type exactly for one of that type's names |
| EventNames.EventTypeFromName | lib/src/event/event.cpp:12-49 | a selected type is one the string names, and a string that names no type selects nothing |
| EventNames.EventTypeFromNameComplete | lib/src/event/event.cpp:14-48 | every name of every type selects that very type |
| EventNames.EventNamesDisjoint | lib/src/event/event.cpp:14-48 | no string names two different types |
| EventNames.BotOnlineSubtypeOf | lib/src/event/event_types.cpp:73-81 | the subtype is login exactly for "BotOnlineEvent", and relogin for any other name |
| EventNames.BotOnlineSubtypeName | lib/src/event/event.cpp:19-20 | each online subtype has a name the dispatch sends to the online reader |
| EventNames.BotOfflineSubtypeOf | lib/src/event/event_types.cpp:83-103 | the offline subtype read from one of the three offline names is the one whose name that is |
| EventNames.BotOfflineSubtypeName | lib/src/event/event.cpp:21-23 | each offline subtype has a name the dispatch sends to the offline reader |
| EventNames.GroupConfigSubtypeOf | lib/src/event/event_types.cpp:190-205 | the setting read from one of the four setting names is the one whose name that is |
| EventNames.GroupConfigSubtypeName | lib/src/event/event.cpp:34-37 | each setting has a name the dispatch sends to the setting reader |
| EventNames.SubtypeNamesRoundTrip | lib/src/event/event_types.cpp:83-103 | every online, offline and setting subtype is read back from its own name |
| Events.MessageTags | lib/include/mirai/event/event.h:35 | each message event reports its own type |
| Events.BotTags | lib/include/mirai/event/event.h:35 | each bot event reports its own type |
| Events.GroupChangeTags | lib/include/mirai/event/event.h:35 | each recall and group event reports its own type |
| Events.MemberTags | lib/include/mirai/event/event.h:35 | each member event reports its own type |
| Events.RequestTags | lib/include/mirai/event/event.h:35 | each request event reports its own type |
| Events.Get | lib/include/mirai/event/event.h:42-49 | checked access succeeds exactly when the event holds the requested type, yields the event itself, and otherwise fails with the type-mismatch error |
| Events.GetIf | lib/include/mirai/event/event.h:51-57 | unchecked access yields the event exactly when it holds the requested type |
| Events.GetAgreesWithGetIf | lib/include/mirai/event/event.h:42-57 | checked and unchecked access succeed on the same events and yield the same value |
| Events.AtSender | lib/include/mirai/event/event_types.h:42 | the at for a group message or recall targets the sender of the message (or of the recalled one) and carries no display text |
| Events.AtSenderMatchesAnyDisplay | lib/include/mirai/event/event_types.h:181 | the sender's at equals an at of a user, whatever its display text, exactly when that user is the sender |
| Events.AtMember | lib/include/mirai/event/event_bases.h:71 | the at of a member event targets the member and carries no display text |
| Events.AtExecutor | lib/src/event/event_bases.cpp:35 | the executor's at targets the executor when there is one and the bot otherwise, and the bot-mute events target their operator |
| Events.QuoteTarget | lib/include/mirai/event/event_types.h:188 | a quote reply cites the event's own message for message events and the recalled message for recall events |
| Events.NewFriendResponseCode | lib/include/mirai/event/event_types.h:322 | the friend-request responses are coded within 0 to 2 |
| Events.MemberJoinResponseCode | lib/include/mirai/event/event_types.h:342-346 | the join-request responses are coded within 0 to 4 |
| Events.BotInvitedResponseCode | lib/include/mirai/event/event_types.h:367 | the invitation responses are coded within 0 to 1 |
| Events.ResponseCodesBijective | lib/include/mirai/event/event_types.h:322-367 | distinct responses have distinct codes, so each table is a bijection onto its range |
| EventDecode.Nested | lib/src/event/event_bases.cpp:25-28 | a nested record is read exactly when its key is present and its reader accepts the value found there |
| EventDecode.GetUid | lib/src/event/event_types.cpp:13 | a user id is read exactly when the value is a 64-bit integer, and holds it |
| EventDecode.GetGid | lib/src/event/event_types.cpp:14 | a group id is read exactly when the value is a 64-bit integer, and holds it |
| EventDecode.GetMid | lib/src/event/event_types.cpp:15 | a message id is read exactly when the value is a 32-bit integer, and holds it |
| EventDecode.ChangePair | lib/src/event/event_types.cpp:175-176 | a change is read exactly when both "origin" and "current" convert, old value first |
| EventDecode.FriendMessageFromJson | lib/src/event/event_types.cpp:24-31 | a friend message is read exactly when the chain under "messageChain" and the friend under "sender" both are, and it holds the two |
| EventDecode.GroupMessageFromJson | lib/src/event/event_types.cpp:49-56 | a group message is read exactly when the chain and the member under "sender" both are, and it holds the two |
| EventDecode.TempMessageFromJson | lib/src/event/event_types.cpp:64-71 | a temporary message is read exactly when the chain and the member under "sender" both are, and it holds the two |
| EventDecode.BotOnlineFromJson | lib/src/event/event_types.cpp:73-81 | an online event is read exactly when "qq" is a 64-bit integer; it holds that bot id and is a login exactly when sent as "BotOnlineEvent" |
| EventDecode.BotOfflineFromJson | lib/src/event/event_types.cpp:83-103 | an offline event is read exactly when "qq" is a 64-bit integer; it holds that bot id and the cause whose name it was sent under |
| EventDecode.BotGroupPermissionChangeFromJson | lib/src/event/event_types.cpp:105-113 | a permission change is read exactly when the group and both levels are, and holds them |
| EventDecode.BotMutedFromJson | lib/src/event/event_types.cpp:115-122 | a bot mute is read exactly when the operator and "durationSeconds" are, and holds the operator and the duration in seconds |
| EventDecode.BotUnmutedFromJson | lib/src/event/event_types.cpp:124-127 | a bot unmute is read exactly when the operator is, and holds it |
| EventDecode.BotJoinGroupFromJson | lib/src/event/event_types.cpp:129-132 | a join is read exactly when its group is, and holds it |
| EventDecode.BotQuitFromJson | lib/src/event/event_types.cpp:134-137 | a quit is read exactly when its group is, and holds it |
| EventDecode.BotKickedFromJson | lib/src/event/event_types.cpp:139-142 | a kick is read exactly when its group is, and holds it |
| EventDecode.GroupExecutorPart | lib/src/event/event_bases.cpp:37-44 | the group-executor base is read exactly when the group and the operator both are, and its executor is then always present |
| EventDecode.RecallPart | lib/src/event/event_types.cpp:149-151 | the recall fields are read exactly when "authorId" is a 64-bit, and "messageId" and "time" are 32-bit integers, and hold the author, message id and time |
| EventDecode.GroupRecallFromJson | lib/src/event/event_types.cpp:144-153 | a group recall is read exactly when the group-executor base and the recall fields are, and holds them |
| EventDecode.FriendRecallFromJson | lib/src/event/event_types.cpp:160-168 | a friend recall is read exactly when the recall fields are, and holds the recalled message's author, id and time |
| EventDecode.GroupNameChangeFromJson | lib/src/event/event_types.cpp:170-178 | a name change is read exactly when the base and both names are, and holds the base and the old and new names |
| EventDecode.GroupEntranceAnnouncementChangeFromJson | lib/src/event/event_types.cpp:180-188 | an announcement change is read exactly when the base and both texts are, and holds the base and the old and new texts |
| EventDecode.GroupConfigFromJson | lib/src/event/event_types.cpp:190-213 | a setting change is read exactly when the base and both flags are; it holds the setting whose name it was sent under, the base, and the old and new flags |
| EventDecode.MemberExecutorPart | lib/src/event/event_bases.cpp:73-80 | the member-executor base is read exactly when the member and the operator both are, and its executor is then always present |
| EventDecode.MemberJoinFromJson | lib/src/event/event_types.cpp:215-218 | a member join is read exactly when the member is, and holds it |
| EventDecode.MemberQuitFromJson | lib/src/event/event_types.cpp:220-223 | a member quit is read exactly when the member is, and holds it |
| EventDecode.MemberKickedFromJson | lib/src/event/event_types.cpp:225-228 | a member kick is read exactly when the member-executor base is, and holds it |
| EventDecode.MemberCardChangeFromJson | lib/src/event/event_types.cpp:230-238 | a card change is read exactly when the base and both cards are, and holds them |
| EventDecode.MemberSpecialTitleChangeFromJson | lib/src/event/event_types.cpp:240-248 | a title change is read exactly when the member and both titles are, and holds them |
| EventDecode.MemberPermissionChangeFromJson | lib/src/event/event_types.cpp:250-258 | a member permission change is read exactly when the member and both levels are, and holds them |
| EventDecode.MemberMutedFromJson | lib/src/event/event_types.cpp:260-267 | a member mute is read exactly when the base and "durationSeconds" are, and holds the base and the duration in seconds |
| EventDecode.MemberUnmutedFromJson | lib/src/event/event_types.cpp:269-272 | a member unmute is read exactly when the base is, and holds it |
| EventDecode.RequestHead | lib/src/event/event_types.cpp:278-280 | the request head is read exactly when "eventId", "fromId" and "groupId" are 64-bit integers, and holds the event id, the requester and the group |
| EventDecode.RequestTail | lib/src/event/event_types.cpp:281-282 | the request tail is read exactly when "nick" and "message" are strings, and holds them |
| EventDecode.NewFriendRequestFromJson | lib/src/event/event_types.cpp:274-284 | a friend request is read exactly when the head and the tail are, and holds them |
| EventDecode.MemberJoinRequestFromJson | lib/src/event/event_types.cpp:286-297 | a join request is read exactly when the head, "groupName" and the tail are, and holds them |
| EventDecode.BotInvitedJoinGroupRequestFromJson | lib/src/event/event_types.cpp:299-310 | an invitation is read exactly when the head, "groupName" and the tail are, and holds them |
| EventDecode.DispatchMessage | lib/src/event/event.cpp:16-18 | a friend, group or temporary message document is read by that message's own reader, and the read succeeds exactly when that reader's does |
| EventDecode.DispatchBot | lib/src/event/event.cpp:19-29 | each bot event document is read by its own reader, online and offline events under the name they were sent with |
| EventDecode.DispatchGroupChange | lib/src/event/event.cpp:30-37 | each recall, name, announcement or setting change document is read by its own reader, settings under the name they were sent with |
| EventDecode.DispatchMember | lib/src/event/event.cpp:38-41 | member join, kick, quit and card change documents are each read by their own reader |
| EventDecode.DispatchMemberChange | lib/src/event/event.cpp:42-45 | member title, permission, mute and unmute documents are each read by their own reader |
| EventDecode.DispatchRequest | lib/src/event/event.cpp:46-48 | each request document is read by its own reader |
| EventDecode.EventFromJson | lib/src/event/event.cpp:9-52 | a decoded event's type is one its "type" string names, and a string naming no type is the unknown-type error |
| EventDecode.DispatchOnName | lib/src/event/event.cpp:14-48 | a document sent under any name of a type is read by that type's reader |
| EventDecode.DecodedDispatch | lib/src/event/event.cpp:14-48 | a decoded document was read by the reader of its event's own type, under one of that type's names |
| EventDecode.BotEventDecoded | lib/src/event/event.cpp:19-23 | a decoded online or offline event is what its reader gives for the name it was sent under |
| EventDecode.GroupChangeDecoded | lib/src/event/event.cpp:30-37 | a decoded recall, name, announcement or setting change is what its own reader gives |
| EventDecode.MemberExecutorDecoded | lib/src/event/event.cpp:39-45 | a decoded kick, card change, mute or unmute is what its own reader gives |
| EventDecode.ExecutorAlwaysPresent | lib/src/event/event_bases.cpp:37-44 | every decoded event with an optional executor has one, read from "operator" |
| EventDecode.AtExecutorOfDecoded | lib/src/event/event_bases.cpp:35 | on a decoded event the executor's at always targets the operator |
| EventDecode.SubtypesFollowTypeName | lib/src/event/event_types.cpp:73-103 | the online, offline and setting subtypes of a decoded event follow its "type" string |
| Patterns.PatternForType | lib/include/mirai/pattern/pattern.h:9-11 | whether a pattern applies to an event depends only on the event's type, as the concept constrains the static event type |
| Patterns.FromUserIsSubjectAt | lib/include/mirai/pattern/pattern_types.h:9-17 | a user pattern accepts a friend message from that user, a member event about that user, and a bot mute event done by that user, in the last two cases exactly when an at of the user equals the event's at |
| Patterns.FromTempIsSessionEqual | lib/include/mirai/pattern/pattern_types.h:24-33 | a session pattern accepts a temporary message exactly when the sender and its group form that session id |
| Patterns.ReplyingIsQuoteEqual | lib/include/mirai/pattern/pattern_types.h:35-42 | a reply pattern never accepts a message without a quote, and accepts one with a quote exactly when the quote equals any quote of the given message |
| Patterns.ApplicablePatterns | lib/include/mirai/pattern/pattern_types.h:9-42 | a group pattern applies to no event, a group message admits only reply patterns, and an event that is not a message admits only user patterns |
| Patterns.MatchWith | lib/include/mirai/pattern/pattern.h:14-15 | the patterns together accept an event exactly when every one of them does |
| Patterns.ShortCircuit | lib/include/mirai/pattern/pattern.h:15 | when all accept every pattern was evaluated; otherwise evaluation stopped at the first pattern that refused, and all before it accepted |
| Patterns.MatchWithOrderIndependent | lib/include/mirai/pattern/pattern.h:15 | the result depends only on which patterns are given, not on their order or repetition |
| Patterns.MatchWithPermutation | lib/include/mirai/pattern/pattern.h:15 | reordering the patterns never changes the result |
| FilterQueues.EmptyQueueValid | lib/include/mirai/detail/filter/filter_queue.h:27-28 | a new queue, with null head and tail, is a well-formed empty list |
| FilterQueues.RemoveAt | lib/src/detail/filter/filter_queue.cpp:11-17 | the order after taking a position out is the order before it followed by the order after it |
| FilterQueues.EnqueueNodes | lib/src/detail/filter/filter_queue.cpp:19-29 | enqueueing marks the node as the queue's, links it after the old tail, makes it the tail (and the head of an empty queue), and touches no other node |
| FilterQueues.AppendedValid | lib/src/detail/filter/filter_queue.cpp:19-29 | once a node is appended the queue is well formed in the old order followed by the node |
| FilterQueues.EnqueueAppends | lib/src/detail/filter/filter_queue.cpp:19-29 | enqueueing a new node to a well-formed queue appends it at the back and keeps the queue well formed |
| FilterQueues.DequeueNodes | lib/src/detail/filter/filter_queue.cpp:11-17 | dequeueing a queued node moves head and tail off it, points its neighbours past it, and touches no other node |
| FilterQueues.RemoveAtDistinct | lib/src/detail/filter/filter_queue.cpp:11-17 | taking a node out of an order without repeats leaves one without repeats |
| FilterQueues.UnlinkedPosition | lib/src/detail/filter/filter_queue.cpp:15-16 | after the unlink every remaining node's neighbours are the ones beside it in the shortened order |
| FilterQueues.RemoveAtMembers | lib/src/detail/filter/filter_queue.cpp:11-17 | the shortened order holds every other queued node and only those |
| FilterQueues.UnlinkedFrame | lib/src/detail/filter/filter_queue.cpp:11-17 | unlinking changes pointers only: flags are kept and nodes outside the queue are untouched |
| FilterQueues.UnlinkedLinks | lib/src/detail/filter/filter_queue.cpp:11-17 | after the unlink the pointers link exactly the shortened order |
| FilterQueues.DequeueRemoves | lib/src/detail/filter/filter_queue.cpp:11-17 | dequeueing a queued node removes exactly that node and keeps the others in their order |
| FilterQueues.EnqueueKeepsClosed | lib/src/detail/filter/filter_queue.cpp:19-29 | enqueueing stores only pointers to existing nodes, so no pointer dangles |
| FilterQueues.DequeueKeepsClosed | lib/src/detail/filter/filter_queue.cpp:11-17 | dequeueing any node, queued or not, stores only pointers to existing nodes |
| FilterQueues.QueuedMembers | lib/include/mirai/detail/filter/filter_queue.h:52-55 | every queued node is active and belongs to the queue |
| FilterQueues.DequeueTakesOut | lib/src/detail/filter/filter_queue.cpp:11-17 | dequeueing a queued node takes it out of a well-formed queue, keeps the queue well formed and the node's flags unchanged |
| FilterQueues.SameLinksFrame | lib/include/mirai/detail/filter/filter_queue.h:52-55 | the active and owned flags play no part in the linking |
| FilterQueues.ChainStep | lib/src/detail/filter/filter_queue.cpp:36-45 | one step of the walk visits the node and continues at its next pointer |
| FilterQueues.FollowsNextTail | lib/src/detail/filter/filter_queue.cpp:45 | following a node's next pointer leads to the rest of the walk |
| FilterQueues.ChainFollows | lib/src/detail/filter/filter_queue.cpp:35-46 | a walk along next pointers through unseen nodes visits exactly those nodes, in order |
| FilterQueues.ChainIsOrder | lib/src/detail/filter/filter_queue.cpp:35-46 | the walk from the head visits the queued nodes front to back, so events are offered in registration order |
| FilterWaiters.MatchFilter | lib/include/mirai/detail/filter/next_event.h:22-27 | a waiter's filter accepts an event exactly when the event holds the type it waits for and the user filter accepts it |
| FilterWaiters.FirstAccepting | lib/src/detail/filter/filter_queue.cpp:35-47 | the position found is the first whose filter accepts the event; when none is found no node accepts it |
| FilterWaiters.DeactivateAll | lib/src/detail/filter/filter_queue.cpp:54-60 | every walked node ends inactive and every other node is as it was |
| FilterWaiters.NoWaitersInv | lib/include/mirai/detail/filter/filter_queue.h:27-31 | a new queue with no waiters satisfies the invariant |
| FilterWaiters.IndexOf | lib/src/detail/filter/filter_queue.cpp:72 | a queued node has a position in the order |
| FilterWaiters.DeactivateTakenOut | lib/src/detail/filter/filter_queue.cpp:40-41 | clearing the winner's active flag after dequeueing it keeps it out of the queue and the rest intact |
| FilterWaiters.RemovedFlags | lib/src/detail/filter/filter_queue.cpp:11-17 | the nodes left queued keep their active and owned flags |
| FilterWaiters.RemovedQueueInv | lib/src/detail/filter/filter_queue.cpp:11-17 | taking a queued node out keeps the queue part of the invariant for the shortened order |
| FilterWaiters.RemovedLogInv | lib/src/detail/filter/filter_queue.cpp:38-43 | taking a node out and logging its one resumption keeps the log part of the invariant |
| FilterWaiters.TakenOutInv | lib/src/detail/filter/filter_queue.cpp:38-43 | taking a node out and logging its resumption keeps the whole invariant for the shortened order |
| FilterWaiters.FilterEventPicksFirst | lib/src/detail/filter/filter_queue.cpp:31-48 | on a well-formed queue the event goes to the first queued waiter, in registration order, whose filter accepts it, and nothing changes when none does |
| FilterWaiters.FilterEventMatchedIff | lib/src/detail/filter/filter_queue.cpp:31-48 | filtering reports a match exactly when some queued waiter accepts the event, resumes exactly one waiter then, and changes nothing otherwise |
| FilterWaiters.FilterEventTakesOut | lib/src/detail/filter/filter_queue.cpp:38-43 | the matched waiter is dequeued, made inactive and logged as resumed with the event |
| FilterWaiters.FilterEventInv | lib/src/detail/filter/filter_queue.cpp:31-48 | after a match the winner has left the queue and the invariant holds for the rest |
| FilterWaiters.UnqueuedActiveWasCancelled | lib/src/detail/filter/filter_queue.cpp:64-79 | a waiter that is still active but no longer queued was resumed by its own cancellation |
| FilterWaiters.CancelTakesOut | lib/src/detail/filter/filter_queue.cpp:70-75 | cancelling a queued waiter dequeues it and logs one resumption with no event |
| FilterWaiters.CancelInv | lib/src/detail/filter/filter_queue.cpp:64-79 | cancelling an active waiter takes it out of the queue, resumes it with no event and keeps the invariant; cancelling an inactive one changes nothing |
| FilterWaiters.CancelAllWalksOrder | lib/src/detail/filter/filter_queue.cpp:54-61 | cancelling all walks exactly the queued waiters, front to back |
| FilterWaiters.DeactivateAllClosed | lib/src/detail/filter/filter_queue.cpp:54-61 | cancelling all leaves no dangling pointer |
| FilterWaiters.CancelAllQueueInv | lib/src/detail/filter/filter_queue.cpp:54-61 | after cancelling all the queue is well formed and empty |
| FilterWaiters.CancelLogAt | lib/src/detail/filter/filter_queue.cpp:58 | cancelling all logs one resumption with no event per queued waiter, in order, after the earlier entries |
| FilterWaiters.CancelAllEntries | lib/src/detail/filter/filter_queue.cpp:54-61 | every logged resumption is still consistent with the state after cancelling all |
| FilterWaiters.CancelAllOnce | lib/src/detail/filter/filter_queue.cpp:54-61 | cancelling all resumes no waiter that was already resumed |
| FilterWaiters.CancelAllResumed | lib/src/detail/filter/filter_queue.cpp:54-61 | after cancelling all every waiter that was queued has been resumed |
| FilterWaiters.CancelAllLogInv | lib/src/detail/filter/filter_queue.cpp:54-61 | cancelling all keeps the log part of the invariant |
| FilterWaiters.CancelAllInv | lib/src/detail/filter/filter_queue.cpp:50-62 | cancelling all resumes every queued waiter front to back with no event, leaves them inactive and the queue empty, and keeps the invariant |
| FilterWaiters.CreateQueueInv | lib/include/mirai/detail/filter/next_event.h:19-20 | a new waiter joins no queue and keeps the queue part of the invariant |
| FilterWaiters.CreateLogInv | lib/include/mirai/detail/filter/next_event.h:19-20 | a new waiter keeps the log part of the invariant |
| FilterWaiters.CreateInv | lib/include/mirai/detail/filter/next_event.h:19-20 | a new waiter disturbs nothing |
| FilterWaiters.WaitQueueInv | lib/include/mirai/detail/filter/next_event.h:35-43 | waiting appends the node at the back and keeps the queue part of the invariant |
| FilterWaiters.WaitLogInv | lib/include/mirai/detail/filter/next_event.h:35-43 | waiting keeps the log part of the invariant |
| FilterWaiters.WaitInv | lib/include/mirai/detail/filter/next_event.h:35-43 | waiting puts the node at the back of the queue, resumes nobody and keeps the invariant |
| FilterWaiters.StepInv | lib/src/detail/filter/filter_queue.cpp:31-79 | each operation keeps the invariant and only appends to the log |
| FilterWaiters.RunInv | lib/src/detail/filter/filter_queue.cpp:31-79 | any admissible sequence of operations keeps the invariant and only appends to the log |
| FilterWaiters.ResumedOutcome | lib/include/mirai/detail/filter/next_event.h:29-46 | a matched waiter returns its event, which holds the awaited type and was accepted by its filter, and a cancelled waiter stops |
| FilterWaiters.ResumedAtMostOnce | lib/include/mirai/detail/filter/next_event.h:44-45 | from an empty queue every interleaving resumes each waiter at most once, and reading a delivered event as the awaited type never fails |
| MatcherQueues.PatternsApply | lib/include/mirai/pattern/pattern_matcher_queue.h:30-31 | every pattern of a well-typed item applies to any event of the item's type |
| MatcherQueues.Accepts | lib/include/mirai/pattern/pattern_matcher_queue.h:95-96 | an item accepts only events that hold its event type |
| MatcherQueues.AcceptsMeaning | lib/include/mirai/pattern/pattern_matcher_queue.h:95-96 | an event of the item's type is accepted exactly when every one of its patterns matches it |
| MatcherQueues.SetDone | lib/include/mirai/pattern/pattern_matcher_queue.h:26 | the exchange leaves the flag set, reports its previous value and changes nothing else |
| MatcherQueues.SetDoneOnlyFirstWins | lib/include/mirai/pattern/pattern_matcher_queue.h:26 | a second exchange on the same item always sees the flag already set and changes nothing |
| MatcherQueues.ItemMatch | lib/include/mirai/pattern/pattern_matcher_queue.h:93-106 | an item reports a match and resumes its waiter exactly when it accepts the event and was not done; an accepted event is stored and the item made done even when another party won the flag |
| MatcherQueues.MatchOnDoneItem | lib/include/mirai/pattern/pattern_matcher_queue.h:93-106 | a cancelled item is never resumed or counted again, though an accepted event is still stored in it |
| MatcherQueues.Scan | lib/src/pattern/pattern_matcher_queue.cpp:9-18 | the scan keeps every item's type and patterns and touches no item outside the map |
| MatcherQueues.KeptRef | lib/src/pattern/pattern_matcher_queue.cpp:9-18 | the reference set of kept items is exactly the queued items that are pending and do not accept the event |
| MatcherQueues.HitsRef | lib/src/pattern/pattern_matcher_queue.cpp:9-18 | the reference set of hits is exactly the queued items that are pending and accept the event |
| MatcherQueues.WithEvent | lib/include/mirai/pattern/pattern_matcher_queue.h:55 | each hit is resumed with the delivered event, one resumption per hit in order |
| MatcherQueues.RefFrame | lib/src/pattern/pattern_matcher_queue.cpp:9-18 | the reference readings depend only on the items in the queue |
| MatcherQueues.ScanMatched | lib/src/pattern/pattern_matcher_queue.cpp:5-20 | the scan reports true exactly when it resumed at least one waiter |
| MatcherQueues.DistinctTail | lib/include/mirai/pattern/pattern_matcher_queue.h:110 | the tail of a queue without duplicates has none and does not contain its head |
| MatcherQueues.ScanKept | lib/src/pattern/pattern_matcher_queue.cpp:9-18 | on a queue without duplicates, the scan keeps exactly the pending non-matching items in order and resumes exactly the pending matching ones in order |
| MatcherQueues.ScanItems | lib/src/pattern/pattern_matcher_queue.cpp:9-18 | after the scan a pending matching item holds the event and is done, and every other item is unchanged |
| MatcherQueues.ScanMeaning | lib/src/pattern/pattern_matcher_queue.cpp:5-20 | the scan agrees with its reference reading: kept items, resumed waiters with their event, the reported result, and the new item states |
| MatcherQueues.ScanKeepsPending | lib/src/pattern/pattern_matcher_queue.cpp:9-18 | no done item is left in the queue and nothing new enters it |
| MatcherQueues.KeptDistinct | lib/src/pattern/pattern_matcher_queue.cpp:9-18 | the kept items have no duplicates |
| MatcherQueues.HitsDistinct | lib/src/pattern/pattern_matcher_queue.cpp:9-18 | the resumed items have no duplicates |
| MatcherQueues.StoreThenCommitIsMatch | lib/include/mirai/pattern/pattern_matcher_queue.h:93-106 | storing the event and then racing for the flag is the same as the item's match |
| MatcherQueues.CancelBetweenStoreAndCommit | lib/include/mirai/pattern/pattern_matcher_queue.h:76-80 | a cancel between the two halves of a match resumes the waiter with the matched event, while the match reports false and resumes nobody |
| MatcherQueues.CancelBeforeMatch | lib/include/mirai/pattern/pattern_matcher_queue.h:76-80 | a cancel first resumes the waiter with no event, and a later match neither reports true nor resumes it |
| MatcherQueues.EmptyInv | lib/include/mirai/pattern/pattern_matcher_queue.h:110 | the empty queue satisfies the invariant |
| MatcherQueues.EnqueueInv | lib/include/mirai/pattern/pattern_matcher_queue.h:65-74 | appending a new well-typed item keeps the invariant |
| MatcherQueues.CancelItemsInv | lib/include/mirai/pattern/pattern_matcher_queue.h:76-80 | a cancel keeps the item part of the invariant |
| MatcherQueues.CancelLogInv | lib/include/mirai/pattern/pattern_matcher_queue.h:76-80 | a cancel keeps the resumption-log part of the invariant |
| MatcherQueues.CancelInv | lib/include/mirai/pattern/pattern_matcher_queue.h:76-80 | a cancel keeps the invariant and resumes the waiter, with the event stored so far, exactly when it was not resumed before |
| MatcherQueues.StoreInv | lib/include/mirai/pattern/pattern_matcher_queue.h:98 | storing an accepted event in a pending item keeps the invariant |
| MatcherQueues.AcceptsFields | lib/include/mirai/pattern/pattern_matcher_queue.h:84-87 | whether an item accepts an event depends only on its type and patterns |
| MatcherQueues.MatchEventItemsInv | lib/src/pattern/pattern_matcher_queue.cpp:5-20 | offering an event keeps the item part of the invariant |
| MatcherQueues.HitsResumedOnce | lib/include/mirai/pattern/pattern_matcher_queue.h:99-103 | resuming the pending hits once each keeps every waiter resumed at most once |
| MatcherQueues.HitsResumedEvents | lib/include/mirai/pattern/pattern_matcher_queue.h:98-101 | every event a waiter is resumed with is of its type and passed its patterns |
| MatcherQueues.LoggedAppend | lib/src/pattern/pattern_matcher_queue.cpp:12-16 | after the hits are logged, a waiter counts as resumed exactly when it was before or is a hit |
| MatcherQueues.HitsResumedDone | lib/include/mirai/pattern/pattern_matcher_queue.h:99-103 | an item stays done exactly when its waiter has been resumed |
| MatcherQueues.MatchEventResumesHits | lib/src/pattern/pattern_matcher_queue.cpp:5-20 | offering an event stores it in the pending matching items, marks them done, leaves every other item alone and logs one resumption per hit |
| MatcherQueues.MatchEventLogInv | lib/src/pattern/pattern_matcher_queue.cpp:5-20 | offering an event keeps the resumption-log part of the invariant |
| MatcherQueues.MatchEventEmpty | lib/src/pattern/pattern_matcher_queue.cpp:5-20 | on an empty queue the result is false and nothing changes |
| MatcherQueues.MatchEventQueue | lib/src/pattern/pattern_matcher_queue.cpp:9-18 | every erased item is done and every kept item is pending |
| MatcherQueues.MatchEventInv | lib/src/pattern/pattern_matcher_queue.cpp:5-20 | offering an event keeps the invariant, resumes each pending matching waiter once, in queue order, with the event, and erases only resumed waiters |
| MatcherQueues.StepInv | lib/include/mirai/pattern/pattern_matcher_queue.h:65-106 | each enqueue, offer, cancel or half-done match keeps the invariant and only appends to the log |
| MatcherQueues.RunInv | lib/include/mirai/pattern/pattern_matcher_queue.h:65-106 | any admissible interleaving keeps the invariant and only appends to the log |
| MatcherQueues.ResumedAtMostOnce | lib/include/mirai/pattern/pattern_matcher_queue.h:55-106 | from an empty queue, under any interleaving, each waiter is resumed at most once, exactly when its item is done, and only with an event of its type that all its patterns matched |
| AwaiterQueues.DoMatch | lib/include/mirai/pattern/pattern_awaiter.h:86-96 | an item resumes its waiter exactly when it accepts the event, then records the event, and never touches the done flag |
| AwaiterQueues.OldScan | lib/src/pattern/pattern_awaiter.cpp:9-18 | the old scan keeps every item's type and patterns |
| AwaiterQueues.OldScanMeaning | lib/src/pattern/pattern_awaiter.cpp:5-20 | with no item done, the old scan keeps exactly the non-matching items and resumes exactly the matching ones, in order, and reports true iff it resumed one |
| AwaiterQueues.RevisionsAgreeWithoutCancel | lib/src/pattern/pattern_awaiter.cpp:5-20 | with no item done the earlier and the later revision report the same result, keep the same items and resume the same waiters |
| AwaiterQueues.OldEnqueueInv | lib/include/mirai/pattern/pattern_awaiter.h:63-72 | enqueuing a new well-typed item keeps the earlier revision's invariant |
| AwaiterQueues.OldScanItems | lib/src/pattern/pattern_awaiter.cpp:9-18 | after the old scan a matching item holds the event and every other item is unchanged |
| AwaiterQueues.OldMatchEventItems | lib/src/pattern/pattern_awaiter.cpp:5-20 | offering an event records it in exactly the matching queued items |
| AwaiterQueues.OldMatchEventQueue | lib/src/pattern/pattern_awaiter.cpp:9-18 | offering an event erases exactly the matching items and logs one resumption per match |
| AwaiterQueues.OldHitsItemsInv | lib/include/mirai/pattern/pattern_awaiter.h:86-96 | recording the event keeps the items well typed and never done |
| AwaiterQueues.OldHitsOnce | lib/include/mirai/pattern/pattern_awaiter.h:92 | resuming the queued hits once each keeps every waiter resumed at most once |
| AwaiterQueues.OldHitsEvents | lib/include/mirai/pattern/pattern_awaiter.h:91-92 | every waiter resumes with an event that its item accepts |
| AwaiterQueues.OldHitsQueued | lib/src/pattern/pattern_awaiter.cpp:9-18 | a waiter is resumed exactly when its item has left the queue |
| AwaiterQueues.LoggedNotQueued | lib/src/pattern/pattern_awaiter.cpp:9-18 | no resumed waiter is still queued |
| AwaiterQueues.OldMatchEventInv | lib/src/pattern/pattern_awaiter.cpp:5-20 | offering an event keeps the earlier revision's invariant and logs one resumption per matching item, in queue order |
| AwaiterQueues.OldStepInv | lib/include/mirai/pattern/pattern_awaiter.h:63-96 | each await or delivery keeps the invariant and only appends to the log |
| AwaiterQueues.OldRunInv | lib/include/mirai/pattern/pattern_awaiter.h:63-96 | any sequence of awaits and deliveries keeps the invariant and only appends to the log |
| AwaiterQueues.OldResumedAtMostOnce | lib/include/mirai/pattern/pattern_awaiter.h:55-96 | from an empty queue no item is ever done, each waiter is resumed at most once, exactly when its item has left the queue, and always with an event of its type |

## Left out

- Text is modelled as valid UTF-8 only. A Dafny `string` holds Unicode scalar values and
  reaches bytes only through `Utf8.Encode`, while `std::string` and `std::string_view` hold
  arbitrary bytes. So invalid UTF-8, and a needle, prefix or suffix that splits a multi-byte
  character (the byte `find` of `"\xE4"` in "中" succeeds), cannot be written, and
  `Utf8.ByteInfixIsCharInfix`, `Utf8.BytePrefixIsCharPrefix` and `Utf8.ByteSuffixIsCharSuffix`
  cover valid UTF-8 only. Text received from the server is parsed by simdjson, which
  validates UTF-8, so only texts built by the user and the query arguments are affected.

- Network I/O, the HTTP client, the event-stream connection and the JSON parser (simdjson) are not modelled. Decoders read an abstract JSON tree. The writers are modelled twice: as the text they write (`JsonWriter.Write`) and as the tree that text stands for (`JsonWriter.ToTree`). The two agree only for strings without `"` or `\`, which the writer does not escape (`JsonWriter.QuoteReadsBack`; see Findings). Parsing written text back is not modelled, so every round trip in the model is stated on the tree.
- Coroutine scheduling is not modelled. A resumption is a log entry, and a mutex-held section is one atomic step. Posting a continuation and resuming it directly are not told apart. `request_cancel` and task spawning are not modelled.
- The only race modelled inside a lock-free section is the unlocked `cancel` against the two halves of `ItemImpl::match`: the store of the event, then the flag exchange.
- Freeing erased items and destroying nodes is not modelled. Items stay in the item map after they leave the queue.
- The owning-queue pointer of a filter node is modelled as an `owned` flag.
- The earlier awaiter revision's `ev_` is a pointer to the delivered event. The model stores the event itself, so the lifetime of the pointee is not modelled.
- `MultipartBuilder::add_file` is not modelled, because it reads a file from disk. Exception logging (`log_exception`) and the `std::hash` specialisations are not modelled either, and neither are floating-point fields.
- The FNV-1a hashes the dispatch tables switch on are modelled as comparisons of the names themselves, so hash collisions are not modelled.
- `Forward` segments keep their JSON element as read and write it back unchanged. The forward node structure is not part of this model.
- Durations are modelled as integer seconds.
- The `format_to_json` overload priority between the writers is not modelled. Each writer is called directly.
- Copying an `Event` or `Segment`, including self-assignment, is value copying in the model.
- The `from`/`replying` helpers are the `Pattern` constructors applied to the given id.
- The bot's own id is a parameter of `Events.AtExecutor`, not read from a bot object.
- `HttpStatusException` and the other exception classes are modelled only through their fields.
- The message-event JSON round trip is not modelled. Message events are only decoded, since the library never writes them.
- EventNames.BotOfflineSubtypeOf: the `std::terminate` branch for an unknown name is excluded by a precondition.
- EventNames.GroupConfigSubtypeOf: the `std::terminate` branch for an unknown name is excluded by a precondition.
- FilterWaiters.Cancel: a second `cancel_task` on a waiter it has already resumed is excluded by a precondition. That call would touch a destroyed node.
- MatcherQueues.Cancel: requires the item to be still owned by the queue. After the queue has erased an item, `cancel` would touch freed memory.
- FilterQueues.Chain: the walk along `next` pointers stops at a node it has already visited. Under the queue invariant this never happens, and the stop exists only to make the walk terminate.
- Status.RevisionsShareCaseStructure: the two revisions' texts are shown equal only for the codes whose text is the same in both. For the other codes only the case structure is compared.
- Segments.PlainRoundTrip: reads back the tree the writer denotes, with `WStr(s)` standing for the string `s`; the written text reads back the same only when every string in it (keys included) has no `"` or `\`, because the writer copies those unescaped (see Findings).
- Segments.XmlRoundTrip: reads back the tree the writer denotes, with `WStr(s)` standing for the string `s`; the written text reads back the same only when every string in it (keys included) has no `"` or `\`, because the writer copies those unescaped (see Findings).
- Segments.JsonRoundTrip: reads back the tree the writer denotes, with `WStr(s)` standing for the string `s`; the written text reads back the same only when every string in it (keys included) has no `"` or `\`, because the writer copies those unescaped (see Findings).
- Segments.AppRoundTrip: reads back the tree the writer denotes, with `WStr(s)` standing for the string `s`; the written text reads back the same only when every string in it (keys included) has no `"` or `\`, because the writer copies those unescaped (see Findings).
- Segments.PokeRoundTrip: reads back the tree the writer denotes, with `WStr(s)` standing for the string `s`; the written text reads back the same only when every string in it (keys included) has no `"` or `\`, because the writer copies those unescaped (see Findings).
- Segments.TextKindRoundTrip: reads back the tree the writer denotes, with `WStr(s)` standing for the string `s`; the written text reads back the same only when every string in it (keys included) has no `"` or `\`, because the writer copies those unescaped (see Findings).
- Segments.ReadFaceName: reads back the tree the writer denotes, with `WStr(s)` standing for the string `s`; the written text reads back the same only when every string in it (keys included) has no `"` or `\`, because the writer copies those unescaped (see Findings).
- Segments.FaceRoundTrip: reads back the tree the writer denotes, with `WStr(s)` standing for the string `s`; the written text reads back the same only when every string in it (keys included) has no `"` or `\`, because the writer copies those unescaped (see Findings).
- Segments.ReadFirstPresent: reads back the tree the writer denotes, with `WStr(s)` standing for the string `s`; the written text reads back the same only when every string in it (keys included) has no `"` or `\`, because the writer copies those unescaped (see Findings).
- Segments.ImageRoundTrip: reads back the tree the writer denotes, with `WStr(s)` standing for the string `s`; the written text reads back the same only when every string in it (keys included) has no `"` or `\`, because the writer copies those unescaped (see Findings).
- Segments.FlashImageRoundTrip: reads back the tree the writer denotes, with `WStr(s)` standing for the string `s`; the written text reads back the same only when every string in it (keys included) has no `"` or `\`, because the writer copies those unescaped (see Findings).
- Segments.VoiceRoundTrip: reads back the tree the writer denotes, with `WStr(s)` standing for the string `s`; the written text reads back the same only when every string in it (keys included) has no `"` or `\`, because the writer copies those unescaped (see Findings).
- Segments.MediaRoundTrip: reads back the tree the writer denotes, with `WStr(s)` standing for the string `s`; the written text reads back the same only when every string in it (keys included) has no `"` or `\`, because the writer copies those unescaped (see Findings).
- Segments.WrittenSegmentReadsBack: reads back the tree the writer denotes, with `WStr(s)` standing for the string `s`; the written text reads back the same only when every string in it (keys included) has no `"` or `\`, because the writer copies those unescaped (see Findings).
- Messages.ReadsBackElementwise: reads back the tree the writer denotes, with `WStr(s)` standing for the string `s`; the written text reads back the same only when every string in it (keys included) has no `"` or `\`, because the writer copies those unescaped (see Findings).
- Messages.MessageRoundTrip: reads back the tree the writer denotes, with `WStr(s)` standing for the string `s`; the written text reads back the same only when every string in it (keys included) has no `"` or `\`, because the writer copies those unescaped (see Findings).
- Config.GroupConfigNameField: reads back the tree the writer denotes, with `WStr(s)` standing for the string `s`; the written text reads back the same only when every string in it (keys included) has no `"` or `\`, because the writer copies those unescaped (see Findings).
- Config.GroupConfigAnnouncementField: reads back the tree the writer denotes, with `WStr(s)` standing for the string `s`; the written text reads back the same only when every string in it (keys included) has no `"` or `\`, because the writer copies those unescaped (see Findings).
- Config.GroupConfigRoundTrip: reads back the tree the writer denotes, with `WStr(s)` standing for the string `s`; the written text reads back the same only when every string in it (keys included) has no `"` or `\`, because the writer copies those unescaped (see Findings).
- Config.MemberInfoRoundTrip: reads back the tree the writer denotes, with `WStr(s)` standing for the string `s`; the written text reads back the same only when every string in it (keys included) has no `"` or `\`, because the writer copies those unescaped (see Findings).
- Forwarded.ForwardedRoundTrip: reads back the tree the writer denotes, with `WStr(s)` standing for the string `s`; the written text reads back the same only when every string in it (keys included) has no `"` or `\`, because the writer copies those unescaped (see Findings).
- Forwarded.ForwardedRoundTripMerges: reads back the tree the writer denotes, with `WStr(s)` standing for the string `s`; the written text reads back the same only when every string in it (keys included) has no `"` or `\`, because the writer copies those unescaped (see Findings).
- JsonWriter.OptionalStringRoundTrip: reads back the tree the writer denotes, with `WStr(s)` standing for the string `s`; the written text reads back the same only when every string in it (keys included) has no `"` or `\`, because the writer copies those unescaped (see Findings).
- JsonWriter.FromTreeDenotes: reads back the tree the writer denotes, with `WStr(s)` standing for the string `s`; the written text reads back the same only when every string in it (keys included) has no `"` or `\`, because the writer copies those unescaped (see Findings).
- JsonWriter.FromTreesDenote: reads back the tree the writer denotes, with `WStr(s)` standing for the string `s`; the written text reads back the same only when every string in it (keys included) has no `"` or `\`, because the writer copies those unescaped (see Findings).
- JsonWriter.FromFieldsDenote: reads back the tree the writer denotes, with `WStr(s)` standing for the string `s`; the written text reads back the same only when every string in it (keys included) has no `"` or `\`, because the writer copies those unescaped (see Findings).

## Findings

The JSON writer and the message model keep the as-written behaviour, because they describe the program's output. The corrected definitions are stated and proved alongside them.

| source | as written | input that shows it | evidently intended | confidence | as-written member | corrected member |
|---|---|---|---|---|---|---|
| lib/src/detail/json.h:54-55 | `"` and `\` are copied into a quoted string unescaped | the newline string and the two-character string backslash, `n` are both written `"\n"`; `a"b` is written `"a"b"`, which is not valid JSON | escape them as `\"` and `\\`, so that the quoting is injective and reads back | high (not executed) | JsonWriter.QuoteNotInjective | JsonWriter.QuoteIntendedInjective |
| lib/src/message/message.cpp:21-33 | `ends_with_sv` tests the first segment, and cuts its UTF-8 text at `length() - sv.length()`; when the suffix is longer in bytes the unsigned difference wraps and `substr` throws `out_of_range` | `[Plain("ab"), Plain("cd")]` does not end with "cd"; `[Plain("ab")]` with "abc" throws, and so does `[Plain("ab")]` with the one character "中" (three bytes) | test the last segment, and answer false when the suffix does not fit | high (not executed) | Messages.EndsWithTextLooksAtFirst | Messages.EndsWithTextIntendedMeaning |
