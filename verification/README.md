# Verified models of the emulator's hard cores

Dafny models of five components, each from its empty start state, with proofs of
what they promise over all inputs and all runs:

| file | component |
|---|---|
| `Varint`, `WireFormat`, `Wire`, `Messages`, `CodecTheorems`, `WireBytes` | the hand-rolled protobuf codec: varints, fields, the encoder and the decoding cursor, the Pub/Sub message codecs, the laws they satisfy together, and each of them against the bytes of the specification |
| `Broker`, `Delivery`, `BrokerLaws`, `StreamingPull` | the Pub/Sub backend, whole runs of it with history, what callers see of each operation, and the StreamingPull select loop |
| `Decimal`, `ContentRange`, `Storage`, `Uploads`, `UploadClient`, `Tables`, `ObjectLaws` | Cloud Storage buckets and objects, the Content-Range header, resumable upload sessions, a client on an unreliable channel, buckets against object tables over whole runs, and what clients see of objects and of completion |
| `Secrets` | Secret Manager's flat version table and counters |
| `Money`, `Costs`, `Estimates` | cost queries and seeding, the price calculator, and rounding to cents |

`Prelude` holds the shared vocabulary. Code that updates state is a class whose
methods equate the new state with a transition function of the old one; loops
stay loops and are proved against those functions. The properties are lemmas
about the transition functions, over every input or every run.

A concurrent server is modelled as a state machine: one section under the mutex
is one step, and a run is any list of steps. Random identifiers and generated
session names are parameters that were never used before.

## How the pieces fit

**Codec.** `Fields(b)` is the list of fields in a byte string up to the first
one that does not parse. `Decoder.Next` is proved to peel that list one field at
a time, and each decoding loop to compute a meaning (`PublishOf`, `PullOf`, …)
given by per-number projections: the last value of a scalar, all values of a
repeated field. Merge, truncation, field order and unknown fields are then laws
of lists, carried to bytes by `FieldsOfConcat` and `FieldsOfTruncated`. `WireBytes`
spells tags out as numbers, so that the codec is tied to the specification and not
only to itself. Round
trips assume only that an encoding is no longer than the longest Go slice,
2^63 - 1 bytes.

**Broker.** `Inv` says that for every subscription name and topic what was
delivered is a prefix of the queue, so that the queue `Pull` reassembles is the
one it took apart. `World` adds what was published, deleted, acked, pulled and
handed out; `WorldInv` ties every queue and every delivery to that history, and
`BrokerLaws.LogIsSent` ties that history to what the callers asked for.

**Uploads.** `Apply` and `Run` interleave sessions, bucket operations and the two
halves of a simple upload at will. `Honest` says only that a body is what the file
has at the stated offset. `UploadClient` runs a client that prints its headers,
reads the answers' Range header and resends from there, while requests and answers
get lost and others go on working. `Tables` expands each handler into its locked
sections.

**Secrets.** `Refines` relates the three flat maps to a map from secrets to
numbered versions; `History` is, for each project and id, the plain list of payloads
added.

**Billing.** Sums are exact reals; rounding enters only where the code rounds.

## Where the code falls short of the simplest claim

Each is proved as an exact condition, for all inputs, and shown at an input:

- A finished upload session answers "not found" exactly when the request's
  Content-Range parses; otherwise the answer is "bad request", because the header
  is parsed before the session is looked up (`Uploads.GoneSessionStaysGone`,
  `Uploads.MalformedAfterStored`).
- The second half of a simple upload does not look at the buckets again. After
  any run there is an object table without a bucket exactly when a store found its
  bucket missing and the bucket was not created after it (`Tables.OrphanExactly`,
  `Tables.LateStoreLeavesOrphan`); without interleaving there never is
  (`Tables.HandlersAgree`).
- A Content-Range's end is never read. Every numeric range below 2^63 is accepted,
  and RFC 9110 calls it valid exactly when the start is not behind the end and the
  end is in front of the size (`ContentRange.EndIsIgnored`,
  `ContentRange.AcceptsInvalidRanges`); `bytes 9-2/20` is accepted
  (`ContentRange.BackwardRangeIsAccepted`).
- An acknowledgement through one subscription counts for all. A published message
  reaches a subscription of its topic exactly when it was delivered to it already,
  or fell neither to a deletion of the topic nor to an acknowledgement through any
  subscription (`Delivery.ReachesSubscription`, `Delivery.AckRemovesForAll`).
- A secret id comes from a query parameter or the body and may hold slashes.
  Deleting a secret spares all others exactly when no secret with versions has a
  name that continues `<secret>/versions/` (`Secrets.DeleteKeepsOthers`,
  `Secrets.NestedIdLosesVersions`); slash-free ids never do.
- Totals filtered by each project in turn add up to the unfiltered one exactly when
  the items that name no project cancel out (`Costs.ProjectsAddUp`,
  `Costs.ItemWithoutProject`).
- The formula text of a token line says "k-tokens times the price for 1k tokens",
  but the code divides by a thousand once more: the lines of an item cost their
  usage times their unit price exactly when it is not a Vertex AI item with tokens
  (`Estimates.CostIsUsageTimesPrice`, `Estimates.TokensCostAThousandth`).
- Storage, Pub/Sub and Cloud Run quantities are not guarded: an item's lines have
  positive usage and cost exactly unless it is one of those with a quantity that is
  not positive (`Estimates.ChargesArePositive`, `Estimates.NegativeStorage`).
- Two `ScanString` calls in a row find both fields exactly when they come in that
  order (`Wire.SequentialScansNeedOrder`, `Wire.SwappedFieldsAreMissed`), which is why CreateSubscription scans once.

## Model

| member | source | states |
|---|---|---|
| Varint.ConsumeInvertsAppend | internal/protow/wire.go:147-153 | reading inverts minimal writing for every uint64, whatever follows, in one to ten bytes |
| Varint.ConsumeFromLocal | internal/protow/wire.go:147-153 | a varint read is decided by its own bytes: any buffer that starts with them reads the same |
| Varint.CanonicalIsShortest | internal/protow/wire.go:153 | the canonical form Next re-encodes a varint to is never longer than what was read |
| Varint.AppendSize | internal/protow/wire.go:64 | a number between 128^k and 128^(k+1) takes k+1 bytes |
| Varint.VarintMeans | internal/protow/wire.go:148 | a read succeeds with n bytes exactly when these end a varint, at most ten and the tenth at most 1, and gives the number their seven-bit groups stand for, low group first |
| Varint.VarintOf150 | internal/protow/wire.go:64 | 150 is written 0x96 0x01 |
| Varint.ConversionsKeepResidue | internal/protow/wire.go:62-70 | the integer conversions keep the number modulo 2^64 or 2^32 and land in range |
| Varint.Int32SurvivesSignExtension | internal/protow/wire.go:70 | every int32 survives sign extension to 64 bits and truncation back; negative ones take ten bytes |
| WireFormat.ConsumeField | internal/protow/wire.go:133-180 | a successful step takes at least two bytes and never more than there are |
| WireFormat.TagRoundTrip | internal/protow/wire.go:138-144 | a tag written for any number and type reads back as the int32 number and 3-bit type, and is rejected exactly when the number is not positive |
| WireFormat.FixedRoundTrip | internal/protow/wire.go:154-167 | re-encoding the number read from fixed-width bytes gives those bytes back |
| WireFormat.FieldRoundTrip | internal/protow/wire.go:133-180 | every field the writers can produce reads back as exactly one field, consuming all its bytes |
| WireFormat.FieldLocal | internal/protow/wire.go:133-180 | a successful read is unchanged by anything done behind the field's own bytes |
| WireFormat.FirstFieldOfTruncated | internal/protow/wire.go:133-180 | prefix-freeness: a cut buffer gives its first field if the cut leaves it whole, and nothing otherwise |
| WireFormat.FieldsOfConcat | internal/protow/wire.go:133-180 | fields of a well-formed buffer followed by any other are the fields of the one, then of the other |
| WireFormat.FieldsGrow | internal/protow/wire.go:133-180 | appending bytes to any buffer never changes the fields already seen |
| WireFormat.FieldsOfTruncated | internal/protow/wire.go:133-180 | a truncated buffer decodes to exactly its complete leading fields |
| WireFormat.FieldsInvertEncode | internal/protow/wire.go:44-117 | any list of writable fields is read back from its encoding, which is well formed |
| WireFormat.Normalisation | internal/protow/wire.go:146-177 | re-encoding what was read from arbitrary bytes gives no longer bytes with the same fields |
| WireBytes.TagBytes | internal/protow/wire.go:44-46 | a tag is the varint of 8 times the number plus the type, one byte for numbers below 16 |
| WireBytes.VarintBytes | internal/protow/wire.go:147-153 | type 0 is read as a varint and gives exactly its bytes, for every number and value, whatever follows |
| WireBytes.FixedBytes | internal/protow/wire.go:154-167 | type 1 is read as eight bytes and type 5 as four, as they stand |
| WireBytes.RecordBytes | internal/protow/wire.go:168-174 | type 2 is read as a length and that many bytes |
| WireBytes.OtherTypes | internal/protow/wire.go:175-177 | types 3, 4, 6 and 7 stop the decoder |
| WireBytes.OtherNumbers | internal/protow/wire.go:138-141 | so do field number 0 and numbers beyond an int32 |
| WireBytes.TaggedIsField | internal/protow/wire.go:168-174 | a tag byte, a length and that many bytes are exactly one field |
| WireBytes.FixedIsTagged | internal/protow/wire.go:87-94 | a fixed field is its tag byte and its bytes |
| WireBytes.FixedIsLittleEndian | internal/protow/wire.go:87-94 | fixed widths are written low byte first |
| Wire.Encoder.Tag | internal/protow/wire.go:44-46 | appends the tag |
| Wire.Encoder.Int64 | internal/protow/wire.go:62-65 | appends one varint field, tag first, two's complement |
| Wire.Encoder.Uint64 | internal/protow/wire.go:66-69 | appends one varint field |
| Wire.Encoder.Int32 | internal/protow/wire.go:70 | appends one varint field, sign-extended |
| Wire.Encoder.Bool | internal/protow/wire.go:71-78 | appends one varint field that is 1 or 0 |
| Wire.Encoder.String | internal/protow/wire.go:79-86 | appends one length-delimited field |
| Wire.Encoder.Float64 | internal/protow/wire.go:87-90 | appends one 8-byte little-endian field |
| Wire.Encoder.Float32 | internal/protow/wire.go:91-94 | appends one 4-byte little-endian field |
| Wire.Encoder.AppendMessage | internal/protow/wire.go:98-101 | appends one length-delimited field holding the body |
| Wire.Encoder.MapEntry | internal/protow/wire.go:105-110 | appends one field whose body encodes key as field 1, value as field 2 |
| Wire.Encoder.RepeatedString | internal/protow/wire.go:113-117 | appends one field per value, in order |
| Wire.Decoder.constructor | internal/protow/wire.go:127-129 | the cursor starts at the front of the buffer |
| Wire.Decoder.Value | internal/protow/wire.go:146-177 | reads one value of the wire type, re-encoded, or fails without moving |
| Wire.Decoder.Next | internal/protow/wire.go:133-180 | on arbitrary bytes the cursor stays inside the buffer; a step succeeds exactly when the rest starts with a field, gives it and moves past it by at least two bytes; a failing step moves past a readable tag only |
| Wire.Decoder.ScanVarint | internal/protow/wire.go:183-194 | the first varint with the number as int64, and the cursor right after it; fails exactly when there is none; terminates |
| Wire.Decoder.ScanString | internal/protow/wire.go:197-220 | the first length-delimited value with the number, and the cursor right after it; fails exactly when there is none; terminates |
| Wire.Decoder.ScanRepeatedStrings | internal/protow/wire.go:223-234 | all length-delimited values with the number, in order |
| Wire.SequentialScansNeedOrder | internal/grpcsvc/pubsub/pubsub.go:403-407 | two ScanString calls in a row find both fields exactly when one with the second number comes after one with the first |
| Wire.SwappedFieldsAreMissed | internal/grpcsvc/pubsub/pubsub.go:403-407 | of field 2 followed by field 1, the two scans miss one |
| Messages.EntryMerge | internal/protow/messages.go:46-63 | decoding a map entry goes on from what was decoded before: the entry meaning of a concatenation is the fold of the rest over it |
| Messages.PubsubMerge | internal/protow/messages.go:37-67 | the same for a message: last scalar wins, entries accumulate |
| Messages.PublishMerge | internal/protow/messages.go:89-99 | the same for a publish request: messages accumulate |
| Messages.PullMerge | internal/protow/messages.go:132-147 | the same for a pull request |
| Messages.AckMerge | internal/protow/messages.go:197-207 | the same for acknowledge and streaming pull requests |
| Messages.SubscriptionMerge | internal/grpcsvc/pubsub/pubsub.go:412-426 | the same for CreateSubscription's scan, which ignores wire types |
| Messages.DecodeEntry | internal/protow/messages.go:46-62 | on arbitrary bytes the nested loop ends with the last key and the last value |
| Messages.DecodePubsubMessage | internal/protow/messages.go:34-69 | on arbitrary bytes: the last data and id, and the map where the last entry for a key wins |
| Messages.DecodePublishRequest | internal/protow/messages.go:86-101 | on arbitrary bytes: the last topic and every message, decoded, in order |
| Messages.DecodePullRequest | internal/protow/messages.go:129-149 | on arbitrary bytes: the last subscription, the last number truncated to int32, the last flag |
| Messages.DecodeAckRequest | internal/protow/messages.go:194-239 | on arbitrary bytes: the last subscription and every ack id in order |
| Messages.ScanSubscription | internal/grpcsvc/pubsub/pubsub.go:408-426 | on arbitrary bytes: the last name and the last topic, in either order of appearance |
| Messages.DecodeStringMsg | internal/protow/wire.go:260-264 | the first field 1, or empty |
| Messages.EncodePubsubMessage | internal/protow/messages.go:20-32 | writes data and id only when not empty, and every attribute once, in some order |
| Messages.EncodePublishRequest | internal/protow/messages.go:77-84 | writes the topic, then every message's encoding in order |
| Messages.EncodePullRequest | internal/protow/messages.go:121-127 | writes all three fields, zero values included |
| Messages.EncodeAckRequest | internal/protow/messages.go:187-192 | writes the subscription, then every ack id in order |
| Messages.EncodeSubscriptionMsg | internal/protow/messages.go:251-256 | writes name and topic |
| CodecTheorems.EntriesRebuildMap | internal/protow/messages.go:25-27 | the entries of a map, in any order of enumeration, decode to the map |
| CodecTheorems.PubsubRoundTrip | internal/protow/messages.go:20-69 | a message survives its encoding for every enumeration of its attributes |
| CodecTheorems.PublishRoundTrip | internal/protow/messages.go:77-101 | a publish request with any messages survives its encoding for every enumeration of every attribute map |
| CodecTheorems.PullRoundTrip | internal/protow/messages.go:121-149 | a pull request survives, with every int32 and both bools |
| CodecTheorems.ScanReturnsInt64 | internal/protow/wire.go:62-194 | ScanVarint returns the int64 that Int64 wrote, for every value, among any other fields |
| CodecTheorems.AckRoundTrip | internal/protow/messages.go:187-209 | an acknowledge request survives its encoding |
| CodecTheorems.SubscriptionRoundTrip | internal/grpcsvc/pubsub/pubsub.go:408-426 | the single-pass scan recovers name and topic of an encoded subscription |
| CodecTheorems.DecodersIgnoreOrder | internal/protow/messages.go:34-239 | two field lists that agree on each modelled number decode alike in every loop decoder, whatever the interleaving and whatever else is in them |
| CodecTheorems.ReorderedEncodingsDecodeAlike | internal/protow/messages.go:34-239 | on bytes: permuting an encoding's fields while keeping the order of same-numbered ones, with any unmodelled fields added or dropped, changes no loop decoder's result |
| CodecTheorems.UnknownFieldsAreInvisible | internal/protow/messages.go:37-67 | on bytes: well-formed fields with other numbers, inserted between fields, leave every modelled number's fields alone, even in front of garbage |
| CodecTheorems.DisjointFieldsCommute | internal/grpcsvc/pubsub/pubsub.go:403-426 | on bytes: neighbouring groups of fields that share no number can be exchanged |
| CodecTheorems.PublishOfConcat | internal/protow/messages.go:86-101 | decoding a concatenation concatenates the messages and takes the later topic if there is one |
| CodecTheorems.PublishOfTruncated | internal/protow/messages.go:86-101 | a truncated request decodes to its complete leading fields, so its messages are a prefix |
| CodecTheorems.AlikeMessagesDecodeAlike | internal/protow/messages.go:34-69 | order and unknown fields do not matter inside a message and inside each of its map entries |
| CodecTheorems.AlikeRequestsDecodeAlike | internal/protow/messages.go:34-101 | nor do they at any level of a publish request: in the request, in each message, in each map entry |
| CodecTheorems.UnknownFieldsInMessage | internal/protow/messages.go:34-101 | on bytes: unknown fields inserted into one message of an encoded request change nothing |
| WireBytes.EntryDecodes | internal/protow/messages.go:46-62 | one more field of any number and type: (1, 2) sets the key, (2, 2) the value, any other changes nothing |
| WireBytes.PubsubDecodes | internal/protow/messages.go:34-69 | (1, 2) sets the data, (2, 2) sets one attribute, (3, 2) sets the id, any other changes nothing |
| WireBytes.PublishDecodes | internal/protow/messages.go:86-101 | (1, 2) sets the topic, (2, 2) appends a message, any other changes nothing |
| WireBytes.PullDecodes | internal/protow/messages.go:129-149 | (1, 2) sets the subscription, (2, 0) the number, (3, 0) the flag, any other changes nothing |
| WireBytes.PullNumberDecodes | internal/protow/messages.go:140-142 | the byte 16 and any varint set the number to it, cut to an int32 |
| WireBytes.PullOfFive | internal/protow/messages.go:129-149 | the bytes 16 5 ask for five messages |
| WireBytes.AckDecodes | internal/protow/messages.go:194-239 | (1, 2) sets the subscription, (2, 2) appends an ack id, any other changes nothing |
| WireBytes.SubscriptionDecodes | internal/grpcsvc/pubsub/pubsub.go:412-426 | number 1 sets the name and number 2 the topic, of any type |
| WireBytes.EntryEncodes | internal/protow/wire.go:105-110 | 10 and the key, 18 and the value |
| WireBytes.PubsubEncodes | internal/protow/messages.go:20-32 | 10 and the data unless empty, 18 and each entry, 26 and the id unless empty |
| WireBytes.PublishEncodes | internal/protow/messages.go:77-84 | 10 and the topic, 18 and each message |
| WireBytes.PullEncodes | internal/protow/messages.go:121-127 | 10 and the subscription, 16 and the number as 64 bits, 24 and one byte that is 1 or 0 |
| WireBytes.AckEncodes | internal/protow/messages.go:187-192 | 10 and the subscription, 18 and each ack id |
| WireBytes.SubscriptionEncodes | internal/protow/messages.go:251-256 | 10 and the name, 18 and the topic |
| Broker.RebuildIsIdentity | internal/grpcsvc/pubsub/pubsub.go:195-213 | putting delivered before undelivered messages leaves the queue as it is exactly when the delivered ones form a prefix |
| Broker.PublishedInv | internal/grpcsvc/pubsub/pubsub.go:91-102 | publishing keeps the invariant: for every subscription name and topic, what was delivered is a prefix; ids are distinct and belong to one topic |
| Broker.TopicCreatedInv | internal/grpcsvc/pubsub/pubsub.go:104-111 | creating a topic keeps the invariant, even when it exists |
| Broker.TopicDeletedInv | internal/grpcsvc/pubsub/pubsub.go:119-128 | deleting a topic keeps the invariant |
| Broker.SubscriptionInv | internal/grpcsvc/pubsub/pubsub.go:143-168 | creating, moving and deleting a subscription keep the invariant |
| Broker.PulledInv | internal/grpcsvc/pubsub/pubsub.go:183-216 | pulling keeps the invariant |
| Broker.AcknowledgedInv | internal/grpcsvc/pubsub/pubsub.go:218-246 | acknowledging keeps the invariant, for arbitrary ack ids |
| Broker.PullKeepsQueues | internal/grpcsvc/pubsub/pubsub.go:210-213 | in every invariant state a pull changes no queue, marks all queued messages for its subscription name, and touches no other name |
| Broker.AckIdNamesMessage | internal/grpcsvc/pubsub/pubsub.go:227-234 | the ack ids that name a message are exactly its id and the ack id Pull handed out |
| Broker.MergeBackend.constructor | internal/grpcsvc/pubsub/pubsub.go:82-89 | the empty backend satisfies the invariant |
| Broker.MergeBackend.Publish | internal/grpcsvc/pubsub/pubsub.go:91-102 | the topic's queue is what it was, followed by the caller's messages in the caller's order, each with its data and attributes under its new id; the ids are returned in that order; nothing else changes; keeps the invariant |
| Broker.StampAll | internal/grpcsvc/pubsub/pubsub.go:95-99 | the loop of it |
| Broker.MergeBackend.CreateTopic | internal/grpcsvc/pubsub/pubsub.go:104-111 | adds the topic and keeps its queue if there is one |
| Broker.MergeBackend.DeleteTopic | internal/grpcsvc/pubsub/pubsub.go:119-128 | removes topic and queue, or reports that there is none |
| Broker.MergeBackend.CreateSubscription | internal/grpcsvc/pubsub/pubsub.go:143-151 | sets the topic and keeps what the name was delivered before |
| Broker.MergeBackend.DeleteSubscription | internal/grpcsvc/pubsub/pubsub.go:160-168 | removes the subscription but not its delivered set, or reports that there is none |
| Broker.Deliver | internal/grpcsvc/pubsub/pubsub.go:195-208 | the loop of Pull splits a queue with distinct ids into what was delivered before and what was not, each in order, and marks all of it |
| Broker.MsgsFromReceived | internal/grpcsvc/pubsub/pubsub.go:248-254 | gives the received messages in order |
| Broker.MergeBackend.Pull | internal/grpcsvc/pubsub/pubsub.go:183-216 | returns exactly the queued messages this name was never given, in order, with their ack ids; every queue comes out as it was |
| Broker.MergeBackend.Acknowledge | internal/grpcsvc/pubsub/pubsub.go:218-246 | removes exactly the named messages from the subscription's topic |
| Delivery.PullTakesNew | internal/grpcsvc/pubsub/pubsub.go:198-208 | what a pull takes is what was published after the last pull and the last deletion and was not acked since |
| Delivery.PullExtends | internal/grpcsvc/pubsub/pubsub.go:198-208 | the delivered part of the publish log grows by exactly what the pull returns, at its end |
| Delivery.PullIsNew | internal/grpcsvc/pubsub/pubsub.go:198-208 | a pull returns distinct messages never delivered to the name, and all are delivered afterwards |
| Delivery.StepKeepsInv | internal/grpcsvc/pubsub/pubsub.go:91-246 | every backend call and every event of a stream keeps queue, publish log, delivered sets and handouts in agreement |
| Delivery.RunKeepsInv | internal/grpcsvc/pubsub/pubsub.go:91-246 | so does every run |
| Delivery.RunDelivers | internal/grpcsvc/pubsub/pubsub.go:592-640 | over every interleaving of calls and streams, what a subscription name got from a topic is an order-preserving subsequence of what was published, and no message is handed to the same name twice, through whatever streams |
| Delivery.RunConserves | internal/grpcsvc/pubsub/pubsub.go:91-246 | in every reachable state a queue is the publish log since the last deletion less what was acked, delivered messages are its prefix, and Pull's rebuild is the identity |
| Delivery.PullReturnsExactly | internal/grpcsvc/pubsub/pubsub.go:183-216 | in every reachable state, exactly what the next pull will return, in terms of publishes, pulls, deletions and acks |
| Delivery.CarefulAck | internal/grpcsvc/pubsub/pubsub.go:218-246 | acking nothing but what the name received removes only delivered messages from its topic |
| Delivery.ExactlyOnce | internal/grpcsvc/pubsub/pubsub.go:183-246 | when only received messages are acked and the topic stays, the name has got everything published up to its last pull, once and in order, and its next pull returns all the rest |
| Delivery.NextPullReturnsIt | internal/grpcsvc/pubsub/pubsub.go:183-216 | a published message comes back from the first pull after it, however many other steps lie in between |
| Delivery.ReachesSubscription | internal/grpcsvc/pubsub/pubsub.go:183-246 | in every reachable state a published message was given to a subscription of its topic, or will be by its next pull, exactly when it was delivered to it or fell neither to a deletion nor to an ack through any subscription |
| Delivery.AckRemovesForAll | internal/grpcsvc/pubsub/pubsub.go:218-246 | two subscriptions, one message: after one pulls and acks it the other never gets it |
| Broker.PublishAppendsMessages | internal/grpcsvc/pubsub/pubsub.go:95-100 | publishing appends exactly the messages asked for, in order, and touches no other topic or map |
| BrokerLaws.LogIsSent | internal/grpcsvc/pubsub/pubsub.go:91-102 | the publish log of every run is what its callers published, message by message, in their order |
| BrokerLaws.ReceivedWasSent | internal/grpcsvc/pubsub/pubsub.go:183-216 | what a subscription name receives from a topic in any run is a subsequence of what callers published there |
| BrokerLaws.PullGives | internal/grpcsvc/pubsub/pubsub.go:198-208 | a pull gives exactly the queued messages the name was not given, in queue order, with id and "-ack" as ack id, and a second one nothing |
| BrokerLaws.AckRemoves | internal/grpcsvc/pubsub/pubsub.go:227-243 | exactly the messages go whose id is listed as it is or with "-ack"; the rest stays in order, other topics and all maps as they are |
| BrokerLaws.TopicLaws | internal/grpcsvc/pubsub/pubsub.go:104-128 | a created topic is there with its messages and can be deleted; a deleted one is gone with them; deleting an unknown one changes nothing |
| BrokerLaws.SubscriptionLaws | internal/grpcsvc/pubsub/pubsub.go:143-168 | a created subscription pulls from its topic, all of it under a new name; a deleted one pulls and acks nothing; deliveries stay on record |
| BrokerLaws.NextTickPulls | internal/grpcsvc/pubsub/pubsub.go:606-621 | a request that names a subscription directs its acks and the next tick there: the tick hands out exactly what a pull of it would |
| BrokerLaws.FailedSend | internal/grpcsvc/pubsub/pubsub.go:632-636 | a failed send ends the stream and leaves the backend as a successful one would |
| BrokerLaws.SilentRequest | internal/grpcsvc/pubsub/pubsub.go:606-619 | a request without a subscription keeps the stream's; a stream without one ignores acks and ticks |
| StreamingPull.StreamLoop.constructor | internal/grpcsvc/pubsub/pubsub.go:590 | a stream starts without a subscription |
| StreamingPull.StreamLoop.OnRequest | internal/grpcsvc/pubsub/pubsub.go:606-614 | is the request step of a run: a stated subscription replaces the old one, and ids are acked on the current one |
| StreamingPull.StreamLoop.OnRecvError | internal/grpcsvc/pubsub/pubsub.go:594-604 | ends the stream and changes nothing else |
| StreamingPull.StreamLoop.OnTick | internal/grpcsvc/pubsub/pubsub.go:616-639 | is the tick step of a run: what is sent is what was pulled; a failed send ends the stream and what was pulled stays delivered |
| Decimal.DigitsRoundTrip | internal/service/secretmanager/secretmanager.go:223 | decimal printing gives digits only, at least one, with the printed value |
| Decimal.ParseInvertsDigits | internal/service/gcs/gcs.go:483 | parsing inverts printing below 2^63 |
| Decimal.CutInvertsJoin | internal/service/gcs/gcs.go:474 | cutting at the first separator undoes joining a part without it |
| ContentRange.AcceptedHeaders | internal/service/gcs/gcs.go:468-511 | exactly which headers are accepted, by their text: none, or the unit, a span without a slash, a slash and a size, where the size is a star or an offset below 2^63, and the span is a star or such an offset before the first dash |
| ContentRange.ParseInvertsPrint | internal/service/gcs/gcs.go:468-511 | for each of the six forms and all values below 2^63, parsing the printed header gives its start, size, query and last |
| ContentRange.EndIsIgnored | internal/service/gcs/gcs.go:497-510 | whatever text stands behind the dash, the header means its start and size; only a star there says anything |
| ContentRange.AcceptsInvalidRanges | internal/service/gcs/gcs.go:468-511 | every numeric range below 2^63 is accepted, and it is valid by section 14.4 of RFC 9110 exactly when start <= end < size |
| ContentRange.BackwardRangeIsAccepted | internal/service/gcs/gcs.go:468-511 | `bytes 9-2/20` is accepted as start 9 of 20, and is not valid |
| ContentRange.OffsetIsPersisted | internal/service/gcs/gcs.go:517-520 | the offset a client reads off the Range header, or off its absence, is the number of persisted bytes |
| ContentRange.WireTexts | internal/service/gcs/gcs.go:468-520 | a missing header is a last body at 0; `bytes */*` is a query; five bytes are reported as `bytes=0-4` |
| Storage.Service.constructor | internal/service/gcs/gcs.go:76-81 | the service starts empty |
| Storage.Service.CreateBucket | internal/service/gcs/gcs.go:141-168 | adds a bucket with an empty table, or refuses an empty or a taken name |
| Storage.Service.DeleteBucket | internal/service/gcs/gcs.go:205-221 | removes bucket and table together, or answers not found; sessions stay |
| Storage.Service.DeleteObj | internal/service/gcs/gcs.go:631-654 | removes one object, or answers not found |
| Storage.Service.CheckBucket | internal/service/gcs/gcs.go:226-234 | the first section of an upload: is there such a bucket |
| Storage.Service.StoreObject | internal/service/gcs/gcs.go:285-301 | the second section: stores the object, making a table if there is none, without a look at the buckets |
| Storage.Service.UploadObj | internal/service/gcs/gcs.go:223-302 | both sections with nothing in between: stores exactly when the bucket exists and the name is not empty |
| Storage.Service.StartResumable | internal/service/gcs/gcs.go:365-379 | opens an empty session under the new id, or refuses an empty name |
| Storage.Service.ResumeUpload | internal/service/gcs/gcs.go:396-458 | the header first, then the session; data is taken only at the persisted offset; completes on a taken last body or on the stated size; looks for the bucket again |
| Storage.Service.Continue | internal/service/gcs/gcs.go:413-457 | the locked section of it |
| Uploads.HonestStep | internal/service/gcs/gcs.go:413-457 | one step of any client keeps an honest session's data a growing prefix of the file; a commit stores the file itself, in an existing bucket; a session ends only by its own request, with the object or with "bucket not found" |
| Uploads.UploadIsSafe | internal/service/gcs/gcs.go:423-457 | over every run with duplicated, reordered, gapped or missing requests and status queries, session data is a prefix of the file and a committed object is the file |
| Uploads.PersistedGrows | internal/service/gcs/gcs.go:423-437 | for any client, persisted data only grows, and requests on other sessions never touch it |
| Uploads.GoneSessionStaysGone | internal/service/gcs/gcs.go:396-421 | after a session ended every request on it changes nothing, and is answered "not found" exactly when its header parses, "bad request" otherwise |
| Uploads.MalformedAfterStored | internal/service/gcs/gcs.go:396-421 | a stored upload that is asked about with a malformed header does answer "bad request" |
| Uploads.CommitsAtMostOnce | internal/service/gcs/gcs.go:440-457 | a session commits at most once |
| Uploads.RemainingDrops | internal/service/gcs/gcs.go:423-430 | the bytes still to persist never increase, and drop by exactly the body of an applied request |
| Uploads.OpenSessionLacksChunks | internal/service/gcs/gcs.go:423-437 | a session that is still open has had fewer full chunks applied than it lacked |
| Uploads.SessionEndsInCommit | internal/service/gcs/gcs.go:440-457 | when an honest client's session is gone after a run, one of its requests ended it: the file was stored, or the bucket was missing at that instant |
| Uploads.CommitsAfterItsChunks | internal/service/gcs/gcs.go:423-457 | for any loss, duplication, reordering and interleaving: once as many full chunks were applied as the file has, a request of the run stored the file, or found the bucket missing |
| Uploads.ReportsGrow | internal/service/gcs/gcs.go:430-437 | the offsets reported to the clients of a session never decrease |
| Uploads.ChunksIsCeiling | internal/service/gcs/gcs.go:423-437 | that number is the file's length over the chunk size, rounded up |
| UploadClient.ClientOpMeans | internal/service/gcs/gcs.go:468-511 | the printed header of the client's chunk reads as what the client means |
| UploadClient.ConversationIsHonest | internal/service/gcs/gcs.go:391-395 | whatever gets lost, the requests of a client that resends from the last offset it was told are honest |
| UploadClient.ExchangeStep | internal/service/gcs/gcs.go:423-437 | a request from the persisted offset is applied; one from an older offset changes nothing and is told the persisted offset |
| UploadClient.ConversationProgress | internal/service/gcs/gcs.go:396-458 | in any state: the session stays open while fewer requests arrived than chunks lacked, and is over once as many were answered, one more if the client was behind |
| UploadClient.ClientCommits | internal/service/gcs/gcs.go:396-458 | over a channel that loses requests and answers, with others working in between, the client is done once as many of its requests were answered as the file has chunks, never before as many arrived, and the file was stored unless the bucket was gone |
| UploadClient.ClientStoresFile | internal/service/gcs/gcs.go:396-458 | when nobody deletes the bucket, the file was stored |
| Tables.RunKeepsTables | internal/service/gcs/gcs.go:155-165 | in every interleaving every existing bucket has an object table |
| Tables.CommitsHaveTheirBucket | internal/service/gcs/gcs.go:440-455 | in every run a resumable commit puts its object under a bucket that exists at that instant, and changes no other table |
| Tables.KeysDisagreeOnlyByLateStore | internal/service/gcs/gcs.go:293-299 | from agreeing key sets a step leads to disagreeing ones exactly when it is a store whose bucket is gone |
| Tables.LateStoreLeavesOrphan | internal/service/gcs/gcs.go:223-302 | create, check, delete, store does leave a table without a bucket |
| Tables.OrphanExactly | internal/service/gcs/gcs.go:223-302 | after any run a name has a table without a bucket exactly when a store found the bucket missing and it was not created after that |
| Tables.HandlersAgree | internal/service/gcs/gcs.go:223-302 | when handlers run whole, one after the other, buckets and tables have the same keys |
| ObjectLaws.CompletesExactly | internal/service/gcs/gcs.go:423-457 | for any client and request on an open session: when its body is taken, that the session stays open exactly when the body was not a taken last one and the length is not the stated size, queries included, and what it is told or what is stored |
| ObjectLaws.MalformedChangesNothing | internal/service/gcs/gcs.go:397-402 | a malformed header is a bad request and changes nothing, on any session |
| ObjectLaws.QueryCommits | internal/service/gcs/gcs.go:430-457 | chunks of unknown total: once they amount to the file, a query that states the size stores it, unless the bucket is gone |
| ObjectLaws.PersistedIsApplied | internal/service/gcs/gcs.go:423-430 | an open session holds as many bytes as it held plus those of the applied bodies |
| ObjectLaws.CommitCarriesStart | internal/service/gcs/gcs.go:377-454 | a session keeps the bucket, name and type it was started with, and its commit carries them |
| ObjectLaws.StartAnswers | internal/service/gcs/gcs.go:365-379 | a started session is empty with the given name and type; an empty name starts none |
| ObjectLaws.LookupStep | internal/service/gcs/gcs.go:141-654 | an object is found after a step exactly when its answer says it was stored, or it was there and not taken away |
| ObjectLaws.StoredStays | internal/service/gcs/gcs.go:141-654 | read your write: what was answered as stored is found after any run in which nobody stored or took it away since |
| ObjectLaws.StoreAnswers | internal/service/gcs/gcs.go:285-301 | a named object is stored and found; an unnamed one is a bad request |
| ObjectLaws.DeleteAnswers | internal/service/gcs/gcs.go:631-654 | a deleted object is not found; deleting what is not there changes nothing |
| ObjectLaws.BucketLaws | internal/service/gcs/gcs.go:141-221 | a created bucket is there, empty and cannot be created again; a deleted one is gone with its objects; sessions stay |
| ObjectLaws.PostRuns | internal/service/gcs/gcs.go:223-302 | whole uploads, session starts and POSTs to a session stop at a missing bucket |
| ObjectLaws.SingleRuns | internal/service/gcs/gcs.go:141-654 | the other handlers are one section each |
| Secrets.VersionKeyInjective | internal/service/secretmanager/secretmanager.go:222-224 | a version key determines secret and number, for any ids |
| Secrets.PrefixCatches | internal/service/secretmanager/secretmanager.go:172-178 | the prefix deletion removes catches a key exactly when it is the secret's own or that of a secret nested under it |
| Secrets.PlainNamesDoNotNest | internal/service/secretmanager/secretmanager.go:107 | names of slash-free ids never nest |
| Secrets.SecretNameInjective | internal/service/secretmanager/secretmanager.go:107 | for projects without slashes the name determines project and id |
| Secrets.NamesAreAsDocumented | internal/service/secretmanager/secretmanager.go:107-224 | names and version keys as the API writes them |
| Secrets.CreateRefines | internal/service/secretmanager/secretmanager.go:107-120 | creating keeps the flat tables in agreement with the numbered versions |
| Secrets.AddRefines | internal/service/secretmanager/secretmanager.go:222-229 | so does adding a version under the next number |
| Secrets.DeleteRefines | internal/service/secretmanager/secretmanager.go:170-180 | deleting by prefix removes exactly the versions of the secret and of those nested under it |
| Secrets.LookupRefines | internal/service/secretmanager/secretmanager.go:236-252 | a slash-free version text finds an entry exactly when it is the number of a stored version, and then that one |
| Secrets.WithoutPrefix | internal/service/secretmanager/secretmanager.go:173-178 | the loop keeps exactly the keys without the prefix |
| Secrets.SecretManager.constructor | internal/service/secretmanager/secretmanager.go:35-40 | the empty tables stand for no secrets |
| Secrets.SecretManager.Create | internal/service/secretmanager/secretmanager.go:83-123 | a new secret has no versions and counter 0; an empty id and a taken name are refused |
| Secrets.SecretManager.StoreVersion | internal/service/secretmanager/secretmanager.go:203-232 | adds the next number with the payload and answers with its key, or not found |
| Secrets.SecretManager.Delete | internal/service/secretmanager/secretmanager.go:158-183 | drops the secret, its counter and its versions, or answers not found |
| Secrets.SecretManager.Access | internal/service/secretmanager/secretmanager.go:234-265 | a number gives that version, "latest" the one numbered by the counter, any other slash-free text nothing |
| Secrets.VersionsAreHistory | internal/service/secretmanager/secretmanager.go:158-247 | for slash-free ids, after every run there is a secret for exactly each project and id created and not deleted since; its versions are 1..counter with the payloads added since, in order, the latest being the last; projects do not touch each other, even under one id |
| Secrets.TablesAreHistory | internal/service/secretmanager/secretmanager.go:158-247 | the same of the flat tables: a key is there exactly when it is that of a payload added to that project's secret since it was last created, and holds it; counters count them |
| Secrets.DeleteKeepsOthers | internal/service/secretmanager/secretmanager.go:172-180 | deletion leaves all other secrets alone exactly when no secret with versions is nested under the deleted one |
| Secrets.NestedIdLosesVersions | internal/service/secretmanager/secretmanager.go:86-107 | an id with slashes does lose its version to another secret's deletion, and keeps its counter |
| Money.RoundError | internal/service/billing/billing.go:945-947 | rounding to cents moves a number by at most half a cent |
| Money.Round2Means | internal/service/billing/billing.go:945-947 | the result is the whole number of cents that is nearest, away from zero at a tie, and no other |
| Money.Round2IsWholeCents | internal/service/billing/billing.go:945-947 | it has no fraction of a cent, and rounding is symmetric about zero |
| Money.RoundedCents | internal/service/billing/billing.go:945-947 | four fifths of a cent and half a cent are a cent |
| Money.RoundedSumError | internal/service/billing/billing.go:573 | rounding n parts moves their sum by at most n half cents |
| Money.PartsAgainstWhole | internal/service/billing/billing.go:573-579 | rounded parts miss a rounded whole by at most half a cent for each rounding |
| Costs.GroupsAddUp | internal/service/billing/billing.go:543-557 | every item is in exactly one group: sums over distinct keys that cover the items add up to the total |
| Costs.ProjectsAddUp | internal/service/billing/billing.go:539-541 | totals filtered by each project in turn add up to the unfiltered one if and only if the items without a project cancel out |
| Costs.ItemWithoutProject | internal/service/billing/billing.go:539-541 | a single item without a project is in no filtered total |
| Costs.ServicesAddUp | internal/service/billing/billing.go:535-537 | the same for the service filter |
| Costs.WindowsSplit | internal/service/billing/billing.go:527-533 | a window cut in two at a day: the two totals exceed the whole by exactly the items that run across the day |
| Costs.NoFilter | internal/service/billing/billing.go:527-541 | without window and filters everything passes |
| Costs.KeysAreApart | internal/service/billing/billing.go:545-554 | each dimension groups by its own text and by no other; anything else groups by service |
| Costs.LessMeans | internal/service/billing/billing.go:527-533 | texts are ordered by their first difference, a text before its continuations |
| Costs.CurrencyIsLast | internal/service/billing/billing.go:522-561 | the currency of the last item that states one, dollars if none does |
| Costs.GroupsAreFilters | internal/service/billing/billing.go:543-574 | a group by project or service is what the query filtered by it totals |
| Costs.ReportIsInCents | internal/service/billing/billing.go:573-579 | every amount of a report is a whole number of cents |
| Costs.SeededItems | internal/service/billing/billing.go:594-600 | seeded items are the given ones, dollars where no currency is stated |
| Costs.SeedingAdds | internal/service/billing/billing.go:594-602 | seeding adds exactly what the new items contribute, to the total and to each group |
| Costs.Insert | internal/service/billing/billing.go:569 | keeps keys sorted and distinct and adds exactly one |
| Costs.SortKeys | internal/service/billing/billing.go:564-569 | every key once, in ascending order |
| Costs.Results | internal/service/billing/billing.go:571-574 | one result per key, in order, with its rounded sum |
| Costs.CostService.SeedCost | internal/service/billing/billing.go:584-606 | appends the items in order, USD where no currency is given, and reports both counts |
| Costs.CostService.QueryCost | internal/service/billing/billing.go:506-582 | reports exactly the keys of the passing items, ascending and distinct, each with the rounded sum of its items, and the rounded total |
| Costs.ReportConserves | internal/service/billing/billing.go:556-581 | in every report the exact group sums add up to the exact total, and with k groups the rounded ones miss the rounded total by at most half a cent times k+1 |
| Estimates.PriceCompute | internal/service/billing/billing.go:676-749 | the lines and the cost are those of CPU, memory and, if any, disk |
| Estimates.PriceRunJobs | internal/service/billing/billing.go:751-791 | the lines and the cost are those of CPU and memory seconds |
| Estimates.PriceVertex | internal/service/billing/billing.go:793-854 | training, GPU and token lines, each under its condition |
| Estimates.PriceBigQuery | internal/service/billing/billing.go:883-908 | query and storage lines, each under its condition |
| Estimates.PriceOne | internal/service/billing/billing.go:910-932 | a branch with a single line |
| Estimates.PriceItem | internal/service/billing/billing.go:658-934 | the branch taken appends exactly the item's rounded charges and adds their exact costs |
| Estimates.CalculateEstimate | internal/service/billing/billing.go:641-943 | refuses an empty list; otherwise the rounded exact total and every item's lines in order |
| Estimates.CostIsUsageTimesPrice | internal/service/billing/billing.go:711-932 | all lines of an item cost usage times unit price exactly when it is not a Vertex AI item with tokens |
| Estimates.TokensAreNotPriced | internal/service/billing/billing.go:830-854 | every token line costs a thousandth of its usage times its unit price, and so never that |
| Estimates.TokensCostAThousandth | internal/service/billing/billing.go:830-842 | a million k-tokens cost 15 cents |
| Estimates.DefaultsArePositive | internal/service/billing/billing.go:659-671 | whatever an item states, the hours, instances, seconds, vCPUs and memory that count are positive, and a positive stated value counts as stated |
| Estimates.ChargesArePositive | internal/service/billing/billing.go:658-934 | all lines of an item have positive usage and cost exactly unless it is a storage, Pub/Sub or Cloud Run item whose quantity is not positive |
| Estimates.NegativeStorage | internal/service/billing/billing.go:872-881 | a negative amount of storage takes money off |
| Estimates.TotalOfConcat | internal/service/billing/billing.go:655-937 | the exact total is additive over lists of items |
| Estimates.TotalOfPermutation | internal/service/billing/billing.go:655-937 | the exact total does not depend on the order of items |
| Estimates.AtMostFourLinesEach | internal/service/billing/billing.go:658-934 | no more than four lines per item, over the whole list |
| Estimates.EstimateBound | internal/service/billing/billing.go:655-943 | with n lines, at most four an item, the rounded lines miss the rounded total by at most half a cent times n+1 |
| Estimates.EstimateIsInCents | internal/service/billing/billing.go:711-943 | every usage, cost and total of an estimate is a whole number of hundredths |
| Estimates.SmallStorage | internal/service/billing/billing.go:872-881 | 0.777 GiB are billed as 0.78 GiB at two cents |
| Estimates.MachineScales | internal/service/billing/billing.go:711-749 | CPU scales with vCPUs, RAM with memory, both with instances and hours, the disk with instances only |
| Estimates.JobScales | internal/service/billing/billing.go:768-791 | the same of a job and its seconds |
| Estimates.NodeScales | internal/service/billing/billing.go:803-828 | training scales with instances and node hours, GPU hours with GPUs and node hours |
| Estimates.ComputeLinesApart | internal/service/billing/billing.go:676-749 | memory does not touch the CPU line, vCPUs not the RAM line, hours not the disk line |
| Estimates.JobLinesApart | internal/service/billing/billing.go:751-791 | the same of jobs |
| Estimates.ChargesAtListPrice | internal/service/billing/billing.go:676-932 | the unit price of a line depends on its kind only |
| Estimates.Scenario | internal/service/billing/billing.go:676-854 | the machine, job and training run of the repository's own scenario, line by line |
| Estimates.NothingStated | internal/service/billing/billing.go:659-758 | what an item that states nothing is charged |
| Estimates.GpuNodes | internal/service/billing/billing.go:793-828 | two GPUs on three instances for two hours a day |
| Estimates.OtherServices | internal/service/billing/billing.go:883-932 | BigQuery, Pub/Sub and Cloud Run quantities, line by line |
| Estimates.StorageClasses | internal/service/billing/billing.go:856-881 | the classes, anything else being standard, and the one line of stored GiB |
| Estimates.KnownMachines | internal/service/billing/billing.go:678-710 | the machine types override what is stated, other texts do not |

## Left out

- HTTP and gRPC plumbing, JSON, logging, the recv goroutine's channel, persistence and snapshot-loaded states: wiring and I/O.
- Random ids and session names: parameters that were never used before; an id is not empty and has no dash. The clock fallback of the id generator is not modelled.
- Clocks, creation times and the version's state field: opaque data.
- GetTopic, ListTopics, GetSubscription, ListSubscriptions, the list and get handlers, the Pub/Sub REST layer and the generic resource stores: one map read or update each.
- The response encoders, TopicMsg and the Firestore messages: they use the same writers.
- `BytesField` and `ScanBytes` are the same on byte strings as `String` and `ScanString`, and DecodeStreamingPullRequest as DecodeAcknowledgeRequest: one member stands for each pair.
- Group wire types: the decoder stops there, as the model does; they are outside the unknown-field claims.
- Object identity: messages and sessions are values in maps, not shared pointers, so aliasing between a caller's message and the queue is not modelled.
- Nil and empty slices, strings and maps are the same value.
- Wire.Encoder.Float64, Wire.Encoder.Float32: the caller passes the IEEE bits; the conversion is a library's.
- IEEE rounding inside sums and products of costs: exact reals.
- Estimates.PriceVertex: the product of GPU count and instances is not cut to 64 bits.
- Lower-casing of calculator texts: items come in lower case. The description, formula and unit texts are data; a line carries a tag instead.
- Each branch of the calculator's loop is a method of its own, and the products of an item's quantities are computed in front of the method that appends its lines.
- Multipart bodies, checksums, the choice of name and content type in a request, the X-GUploader-No-308 variant of an answer.
- Per-subscription fan-out and redelivery are not claimed: the code has neither.
