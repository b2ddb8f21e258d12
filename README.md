# Terra DTN core in Dafny

A model of the core of the Terra DTN library, a Java implementation of the
Bundle Protocol version 7 (RFC 9171). It covers these parts:

- **CBOR encoder.** Bundles and blocks are written in CBOR (RFC 8949). The encoder
  appends heads and items to a ByteBuffer; the buffer's relative puts are modelled
  as well.
- **Blobs.** The volatile blob keeps a payload in memory, and the blob factory
  chooses between memory and a file.
- **Tags and hop count.** The tag map every bundle carries, and the hop-count
  extension block.
- **Endpoint identifiers.** dtn eids, the api:me eids of the local application
  agent, the cla eids of the convergence layers, and the stcp and bows cla eids.
  Bows eids carry a base64-encoded websocket URL. The object form `BaseDtnEid`
  is included.
- **Application-agent registrar.** It hands out registrations and delivers
  bundles to them.
- **Event listener and storage.** The event listener watches bundles per channel.
  The storage index and the volatile storage keep bundles.
- **Routing.** The routing table resolves an eid to the convergence-layer eids
  that reach it, and the routing engine chooses a strategy.
- **Extension manager.** It registers extension blocks.
- **Bundle processing.** Bundle processing as section 5 of RFC 9171 lays it out.
- **LDCP router.** The request router of the LDCP protocol.

The model takes each part in its source's form:

- Objects whose fields the Java code updates are classes with `modifies`
  clauses: the encoder, the buffers, the blobs, the registrar, the tables and
  the bundle processor.
- Each of their methods is proved against a pure function of the same
  behaviour, and the properties of that function are lemmas.
- Pure helpers are functions: the eid predicates, the CBOR byte layout, base64,
  and the bundle-processing steps on a snapshot of the bundle.

Java's 64-bit `long` arithmetic is written out where it wraps (module
`JavaInts`). A Java `byte` is its 8-bit pattern. Java's `null` is `None`.

Exceptions are values:

- An operation that can throw returns `Result`, with one error constructor per
  exception class. An example is `Eids.EidError`.
- The encoder reports `BufferOverflowException` as the status `Overflow`. It has
  then written a proper prefix of what the call meant to write.

The parts are decoded with a reference reader:

- `CborEncoder.DecodeHead` reads a CBOR head the way section 3 of RFC 8949 lays
  it out.
- The round-trip lemmas read every encoding back through it.
- Several of the findings below were found this way.

## Model

| member | source | states |
|---|---|---|
| Tags.PutIfAbsent | libdtn-core/src/main/java/io/disruptedsystems/libdtn/core/aa/Registrar.java:158 | Map.putIfAbsent on a map without nulls: the key is added, keeps its value if present, and every other key is unchanged |
| Tags.Attach | libdtn-common/src/main/java/io/disruptedsystems/libdtn/common/data/Tag.java:31-34 | Map.putIfAbsent on the tag map: a key absent or mapped to null takes the new value, a key with a value keeps it, every other key is unchanged |
| Tags.AttachWithoutNull | libdtn-common/src/main/java/io/disruptedsystems/libdtn/common/data/Tag.java:31-34 | where the key holds no null, attaching is putting if absent |
| Tags.AttachAfterPlainTag | libdtn-common/src/main/java/io/disruptedsystems/libdtn/common/data/Tag.java:17-20 | a plain tag does not hold its key: a later attachment replaces the null, a real attachment stays |
| Tags.PlainTagsIff | libdtn-common/src/main/java/io/disruptedsystems/libdtn/common/data/Tag.java:22-29 | a key is a plain tag iff it is tagged with a null attachment |
| Tags.PlainTagAfterTag | libdtn-common/src/main/java/io/disruptedsystems/libdtn/common/data/Tag.java:17-20 | tag(key) makes the key a plain tag unless it already carries an attachment |
| Tags.PlainTagsAfterRemove | libdtn-common/src/main/java/io/disruptedsystems/libdtn/common/data/Tag.java:36-39 | removing a key drops it, and only it, from the plain tags |
| Tags.Tagged.constructor | libdtn-common/src/main/java/io/disruptedsystems/libdtn/common/data/Tag.java:15 | a new tag map is empty |
| Tags.Tagged.Tag | libdtn-common/src/main/java/io/disruptedsystems/libdtn/common/data/Tag.java:17-20 | tag(key) is tag(key, null), and the key is tagged afterwards |
| Tags.Tagged.TagWith | libdtn-common/src/main/java/io/disruptedsystems/libdtn/common/data/Tag.java:31-34 | the first non-null attachment for a key wins; the key is tagged afterwards |
| Tags.Tagged.RemoveTag | libdtn-common/src/main/java/io/disruptedsystems/libdtn/common/data/Tag.java:36-39 | only that key leaves the map, and it is no longer tagged |
| Tags.Tagged.GetAllTags | libdtn-common/src/main/java/io/disruptedsystems/libdtn/common/data/Tag.java:22-29 | exactly the tagged keys whose attachment is null |
| Tags.Tagged.GetTagAttachment | libdtn-common/src/main/java/io/disruptedsystems/libdtn/common/data/Tag.java:46-49 | a non-null attachment only for a tagged key |
| HopCount.HopsToLiveOf | libdtn-common/src/main/java/io/disruptedsystems/libdtn/common/data/HopCountBlock.java:28-30 | as written: 0 when the limit is below the count, otherwise the long difference, which is exact for a count between 0 and the limit |
| HopCount.HopsToLiveWraps | libdtn-common/src/main/java/io/disruptedsystems/libdtn/common/data/HopCountBlock.java:28-30 | as written, a negative count can wrap the difference to the most negative long |
| HopCount.HopsToLiveIntended | libdtn-common/src/main/java/io/disruptedsystems/libdtn/common/data/HopCountBlock.java:28-30 | corrected: never negative, 0 when the limit is below the count, and the exact difference whenever it fits in a long |
| HopCount.HopsToLiveAgree | libdtn-common/src/main/java/io/disruptedsystems/libdtn/common/data/HopCountBlock.java:28-30 | for a count that is not negative, the corrected and as-written values agree |
| HopCount.HopCountBlock.constructor | libdtn-common/src/main/java/io/disruptedsystems/libdtn/common/data/HopCountBlock.java:21-26 | a new block has count 0, limit 0 and no hop to live |
| HopCount.HopCountBlock.HopsToLive | libdtn-common/src/main/java/io/disruptedsystems/libdtn/common/data/HopCountBlock.java:28-30 | the corrected value: never negative, 0 once the count passes the limit, limit - count for a count between 0 and the limit, and the as-written value for every count that is not negative |
| HopCount.HopCountBlock.Increment | libdtn-common/src/main/java/io/disruptedsystems/libdtn/common/data/HopCountBlock.java:32-34 | the count grows by the hops with long wrap-around; the limit is unchanged |
| HopCount.HopCountBlock.SetLimit | libdtn-common/src/main/java/io/disruptedsystems/libdtn/common/data/HopCountBlock.java:36-39 | the count is reset to 0 and the limit set, so a non-negative limit is the hops to live |
| HopCount.IncrementOneHop | libdtn-common/src/main/java/io/disruptedsystems/libdtn/common/data/HopCountBlock.java:28-34 | one more hop leaves one hop less to live, down to none |
| BlobFactories.BaseBlobFactory.constructor | libdtn-common/src/main/java/io/disruptedsystems/libdtn/common/data/blob/BaseBlobFactory.java:16-18 | a new factory has maximum 0 and no path, so neither kind is enabled |
| BlobFactories.BaseBlobFactory.SetVolatileMaxSize | libdtn-common/src/main/java/io/disruptedsystems/libdtn/common/data/blob/BaseBlobFactory.java:26-29 | the maximum is set, the path kept, and volatile blobs are enabled iff the limit is positive |
| BlobFactories.BaseBlobFactory.SetPersistentPath | libdtn-common/src/main/java/io/disruptedsystems/libdtn/common/data/blob/BaseBlobFactory.java:38-41 | the path is set, the maximum kept, and file blobs are enabled iff the path is not null |
| BlobFactories.BaseBlobFactory.CreateVolatileBlob | libdtn-common/src/main/java/io/disruptedsystems/libdtn/common/data/blob/BaseBlobFactory.java:70-79 | a volatile blob of the expected size iff enabled and 0 <= size <= maximum; otherwise "not enabled" when disabled and "exceeds maximum" when enabled |
| BlobFactories.BaseBlobFactory.CreateFileBlob | libdtn-common/src/main/java/io/disruptedsystems/libdtn/common/data/blob/BaseBlobFactory.java:88-104 | a file blob in the directory iff enabled, the device has room and the file is created; "not enabled" whenever disabled |
| BlobFactories.BaseBlobFactory.CreateBlob | libdtn-common/src/main/java/io/disruptedsystems/libdtn/common/data/blob/BaseBlobFactory.java:106-115 | the volatile blob whenever one is allowed, otherwise exactly what createFileBlob answers |
| BlobFactories.CreateBlobFails | libdtn-common/src/main/java/io/disruptedsystems/libdtn/common/data/blob/BaseBlobFactory.java:106-115 | createBlob fails iff neither kind can serve the size, and then with a file-blob cause |
| VolatileBlobs.InputStream.Read | libdtn-common/src/main/java/io/disruptedsystems/libdtn/common/data/blob/VolatileBlob.java:165 | -1 once the stream is exhausted, otherwise its next byte, which is consumed |
| VolatileBlobs.StreamWriteOutcome | libdtn-common/src/main/java/io/disruptedsystems/libdtn/common/data/blob/VolatileBlob.java:160-172 | write(InputStream) as written succeeds iff the stream ends strictly before the room runs out, and then answers the count of bytes it gave |
| VolatileBlobs.StreamExactFillAsWritten | libdtn-common/src/main/java/io/disruptedsystems/libdtn/common/data/blob/VolatileBlob.java:164-171 | a stream exactly as long as the room is refused with the capacity error although all of it was written |
| VolatileBlobs.StreamWriteOutcomeIntended | libdtn-common/src/main/java/io/disruptedsystems/libdtn/common/data/blob/VolatileBlob.java:160-172 | a stream that fits the room, exactly filling it included, is accepted with its length |
| VolatileBlobs.SizedWriteOutcome | libdtn-common/src/main/java/io/disruptedsystems/libdtn/common/data/blob/VolatileBlob.java:175-190 | write(InputStream, size) succeeds iff size is at most the room; the count never exceeds what the stream had, the room or the size, and is the size when the stream has enough |
| VolatileBlobs.VolatileBlob.Size | libdtn-common/src/main/java/io/disruptedsystems/libdtn/common/data/blob/VolatileBlob.java:84-86 | size() is the limit, never more than the capacity |
| VolatileBlobs.VolatileBlob.Observe | libdtn-common/src/main/java/io/disruptedsystems/libdtn/common/data/blob/VolatileBlob.java:89-95 | the view holds exactly the bytes between position and limit |
| VolatileBlobs.VolatileBlob.WithExpectedSize | libdtn-common/src/main/java/io/disruptedsystems/libdtn/common/data/blob/VolatileBlob.java:30-32 | a fresh buffer whose capacity and size are the expected size, read from 0 |
| VolatileBlobs.VolatileBlob.FromArray | libdtn-common/src/main/java/io/disruptedsystems/libdtn/common/data/blob/VolatileBlob.java:38-40 | the blob shares the given array and shows all of its bytes |
| VolatileBlobs.VolatileBlob.FromBuffer | libdtn-common/src/main/java/io/disruptedsystems/libdtn/common/data/blob/VolatileBlob.java:46-50 | the blob holds a copy of the source's remaining bytes and the source's position reaches its limit |
| VolatileBlobs.VolatileBlob.Map | libdtn-common/src/main/java/io/disruptedsystems/libdtn/common/data/blob/VolatileBlob.java:98-113 | the blob becomes a fresh buffer holding the opening, mapped and closing bytes in that order, positioned and marked at 0 |
| VolatileBlobs.VolatileBlob.GetWritableBlob | libdtn-common/src/main/java/io/disruptedsystems/libdtn/common/data/blob/VolatileBlob.java:116-121 | the writer's creation rewinds the same buffer to position 0 and opens it to its capacity |
| VolatileBlobs.WritableBlob.Dispose | libdtn-common/src/main/java/io/disruptedsystems/libdtn/common/data/blob/VolatileBlob.java:124-126 | the buffer is cleared: position 0, limit at capacity |
| VolatileBlobs.WritableBlob.WriteByte | libdtn-common/src/main/java/io/disruptedsystems/libdtn/common/data/blob/VolatileBlob.java:129-136 | 1 and the byte appended when there is room, otherwise the capacity error with nothing written |
| VolatileBlobs.WritableBlob.WriteBytes | libdtn-common/src/main/java/io/disruptedsystems/libdtn/common/data/blob/VolatileBlob.java:139-146 | the array length and the bytes appended when they fit, otherwise the capacity error with nothing written |
| VolatileBlobs.WritableBlob.WriteBuffer | libdtn-common/src/main/java/io/disruptedsystems/libdtn/common/data/blob/VolatileBlob.java:149-157 | the source's remaining count, its bytes appended and the source consumed when they fit; otherwise the capacity error and neither buffer moved |
| VolatileBlobs.WritableBlob.WriteStream | libdtn-common/src/main/java/io/disruptedsystems/libdtn/common/data/blob/VolatileBlob.java:160-172 | the outcome is StreamWriteOutcome of the stream length and the room; the bytes written are the stream's first min(length, room) bytes, which the stream loses |
| VolatileBlobs.WritableBlob.WriteStreamIntended | libdtn-common/src/main/java/io/disruptedsystems/libdtn/common/data/blob/VolatileBlob.java:160-172 | the same writes with the corrected outcome: an exact fill is accepted |
| VolatileBlobs.WritableBlob.WriteStreamSized | libdtn-common/src/main/java/io/disruptedsystems/libdtn/common/data/blob/VolatileBlob.java:175-190 | the outcome is SizedWriteOutcome; on success exactly the counted prefix of the stream is written and consumed, on failure nothing changes |
| VolatileBlobs.WritableBlob.Close | libdtn-common/src/main/java/io/disruptedsystems/libdtn/common/data/blob/VolatileBlob.java:193-196 | the blob then shows exactly the bytes written, read from position 0 with the mark there |
| ByteBuffers.BigEndian | libdtn/src/main/java/io/left/rightmesh/libdtn/data/bundleV7/cbor/Encoder.java:417-436 | putShort, putInt and putLong write exactly w bytes |
| ByteBuffers.BigEndianRoundTrip | libdtn/src/main/java/io/left/rightmesh/libdtn/data/bundleV7/cbor/Encoder.java:417-436 | reading back the w big-endian bytes of a value below 256^w gives the value |
| ByteBuffers.FromBigEndianBound | libdtn/src/main/java/io/left/rightmesh/libdtn/data/bundleV7/cbor/Encoder.java:417-436 | w big-endian bytes spell a number below 256^w |
| ByteBuffers.ByteBuffer.Allocate | libdtn-common/src/main/java/io/disruptedsystems/libdtn/common/data/blob/VolatileBlob.java:30-32 | a fresh zero-filled buffer at position 0 with the limit at capacity and no mark |
| ByteBuffers.ByteBuffer.Wrap | libdtn-common/src/main/java/io/disruptedsystems/libdtn/common/data/blob/VolatileBlob.java:38-40 | a buffer sharing the array, at position 0 with the limit at its length |
| ByteBuffers.ByteBuffer.Put | libdtn-common/src/main/java/io/disruptedsystems/libdtn/common/data/blob/VolatileBlob.java:131-134 | succeeds iff position < limit; then the byte is stored at the position, which advances; otherwise nothing changes |
| ByteBuffers.ByteBuffer.PutBytes | libdtn-common/src/main/java/io/disruptedsystems/libdtn/common/data/blob/VolatileBlob.java:141-144 | succeeds iff the bytes fit the remaining room; then they are appended, otherwise nothing changes |
| ByteBuffers.ByteBuffer.PutBuffer | libdtn-common/src/main/java/io/disruptedsystems/libdtn/common/data/blob/VolatileBlob.java:150-155 | succeeds iff the source's remaining bytes fit; then they are appended and the source consumed, otherwise neither moves |
| ByteBuffers.ByteBuffer.Flip | libdtn-common/src/main/java/io/disruptedsystems/libdtn/common/data/blob/VolatileBlob.java:193-196 | the limit becomes the old position, the position 0, and what was written is what is readable |
| ByteBuffers.ByteBuffer.Clear | libdtn-common/src/main/java/io/disruptedsystems/libdtn/common/data/blob/VolatileBlob.java:124-126 | position 0, limit at capacity, no mark |
| ByteBuffers.ByteBuffer.Mark | libdtn-common/src/main/java/io/disruptedsystems/libdtn/common/data/blob/VolatileBlob.java:111-112 | the mark is the position, nothing else changes |
| ByteBuffers.ByteBuffer.SetPosition | libdtn-common/src/main/java/io/disruptedsystems/libdtn/common/data/blob/VolatileBlob.java:119 | the position is set and a mark beyond it is discarded |
| ByteBuffers.ByteBuffer.SetLimit | libdtn-common/src/main/java/io/disruptedsystems/libdtn/common/data/blob/VolatileBlob.java:120 | the limit is set, the position pulled back to it and a mark beyond it discarded |
| CborEncoder.InitialByte | libdtn/src/main/java/io/left/rightmesh/libdtn/data/bundleV7/cbor/Encoder.java:405 | the initial byte mt or ai carries the major type in its top three bits and ai in its low five |
| CborEncoder.HeadWithArgument | libdtn/src/main/java/io/left/rightmesh/libdtn/data/bundleV7/cbor/Encoder.java:417-435 | a head byte with additional information 24..27 followed by its argument bytes reads back as that major type and the big-endian argument |
| CborEncoder.WideHeadRoundTrip | libdtn/src/main/java/io/left/rightmesh/libdtn/data/bundleV7/cbor/Encoder.java:406-414 | an argument written after additional information 24..27 reads back unchanged and in the shortest form |
| CborEncoder.WideShape | libdtn/src/main/java/io/left/rightmesh/libdtn/data/bundleV7/cbor/Encoder.java:406-414 | an argument of 24 or more takes additional information 24, 25, 26 or 27 as it is below 2^8, 2^16, 2^32 or not, followed by that many big-endian bytes |
| CborEncoder.NumberBytesRoundTrip | libdtn/src/main/java/io/left/rightmesh/libdtn/data/bundleV7/cbor/Encoder.java:403-415 | every non-negative long is read back with its major type, in the shortest of the 1, 2, 3, 5 or 9 byte forms (preferred serialization, section 4.2.1 of RFC 8949) |
| CborEncoder.IntRoundTrip | libdtn/src/main/java/io/left/rightmesh/libdtn/data/bundleV7/cbor/Encoder.java:371-377 | every long written by cbor_encode_int reads back as itself, non-negatives as major type 0 and negatives as major type 1 |
| CborEncoder.NegativeUintRoundTrip | libdtn/src/main/java/io/left/rightmesh/libdtn/data/bundleV7/cbor/Encoder.java:398-401 | a positive absolute value a is written as the integer -a |
| CborEncoder.StringRoundTrip | libdtn/src/main/java/io/left/rightmesh/libdtn/data/bundleV7/cbor/Encoder.java:437-441 | a string reads back as a head carrying its length followed by exactly its bytes |
| CborEncoder.ContainerHeadDefinite | libdtn/src/main/java/io/left/rightmesh/libdtn/data/bundleV7/cbor/Encoder.java:142-149 | a non-negative length gives a definite-length head carrying it |
| CborEncoder.ContainerHeadIndefiniteAsWritten | libdtn/src/main/java/io/left/rightmesh/libdtn/data/bundleV7/cbor/Encoder.java:142-149 | as written, a negative length yields the two bytes 0x98 0x1f, a definite array of 31 items, not the indefinite marker |
| CborEncoder.ContainerHeadIntendedRoundTrip | libdtn/src/main/java/io/left/rightmesh/libdtn/data/bundleV7/cbor/Encoder.java:142-149 | the corrected head reads back as indefinite for a negative length and as the length otherwise |
| CborEncoder.SimpleValueRejected | libdtn/src/main/java/io/left/rightmesh/libdtn/data/bundleV7/cbor/Encoder.java:357-359 | the guard rejects exactly the simple values 25 to 31 |
| CborEncoder.SimpleValueAsWritten | libdtn/src/main/java/io/left/rightmesh/libdtn/data/bundleV7/cbor/Encoder.java:357-361 | as written, simple value 200 is written as the single byte 0xe8, which reads back as simple value 8 |
| CborEncoder.SimpleValueIntendedRoundTrip | libdtn/src/main/java/io/left/rightmesh/libdtn/data/bundleV7/cbor/Encoder.java:357-361 | with the value read unsigned, exactly 24 to 31 are rejected and every other value reads back as major type 7 carrying it, in one byte below 24 and in two from 32 up |
| CborEncoder.UintAsWritten | libdtn/src/main/java/io/left/rightmesh/libdtn/data/bundleV7/cbor/Encoder.java:386-389 | as written, cbor_encode_uint(-1), meant as 2^64 - 1, writes the single byte 0xff, the break code |
| CborEncoder.NumberBytesUnsignedRoundTrip | libdtn/src/main/java/io/left/rightmesh/libdtn/data/bundleV7/cbor/Encoder.java:403-415 | with the long read as unsigned, every long reads back as its value modulo 2^64 |
| CborEncoder.ThenAssoc | libdtn/src/main/java/io/left/rightmesh/libdtn/data/bundleV7/cbor/Encoder.java:106-130 | writing calls one after another does not depend on how they are grouped |
| CborEncoder.WroteThen | libdtn/src/main/java/io/left/rightmesh/libdtn/data/bundleV7/cbor/Encoder.java:106-130 | two calls made in sequence, the second only after the first returned, write what their combined emission means or throw after a prefix of it |
| CborEncoder.EmitCompleteIff | libdtn/src/main/java/io/left/rightmesh/libdtn/data/bundleV7/cbor/Encoder.java:65-95 | cbor_encode_object gets to its end exactly when the value holds no object of an unsupported class at any depth |
| CborEncoder.ItemsCompleteIff | libdtn/src/main/java/io/left/rightmesh/libdtn/data/bundleV7/cbor/Encoder.java:106-112 | the item loop gets to its end exactly when every item is encodable |
| CborEncoder.EntriesCompleteIff | libdtn/src/main/java/io/left/rightmesh/libdtn/data/bundleV7/cbor/Encoder.java:123-130 | the entry loop gets to its end exactly when every key and value is encodable |
| CborEncoder.EmitStartsWithHead | libdtn/src/main/java/io/left/rightmesh/libdtn/data/bundleV7/cbor/Encoder.java:65-95 | the encoding of every supported value starts with the head that describes it: sign and magnitude, size, or simple value 20, 21 or 22 |
| CborEncoder.HeadParts | libdtn/src/main/java/io/left/rightmesh/libdtn/data/bundleV7/cbor/Encoder.java:65-95 | the encoding of every supported value is the encode_number head of its major type and argument followed by its content |
| CborEncoder.Encoder.constructor | libdtn/src/main/java/io/left/rightmesh/libdtn/data/bundleV7/cbor/Encoder.java:35-39 | the encoder writes to the buffer it is given |
| CborEncoder.Encoder.EncodeObject | libdtn/src/main/java/io/left/rightmesh/libdtn/data/bundleV7/cbor/Encoder.java:65-95 | the bytes written are those Emit means when they fit, with CborEncodingUnknown for an unsupported object; otherwise BufferOverflowException after a prefix |
| CborEncoder.Encoder.EncodeCollection | libdtn/src/main/java/io/left/rightmesh/libdtn/data/bundleV7/cbor/Encoder.java:106-112 | an array head for the size, then every item in order, with the same overflow and unknown-type outcomes |
| CborEncoder.Encoder.EncodeMap | libdtn/src/main/java/io/left/rightmesh/libdtn/data/bundleV7/cbor/Encoder.java:123-130 | a map head for the size, then each key followed by its value, with the same outcomes |
| CborEncoder.Encoder.EncodeEntry | libdtn/src/main/java/io/left/rightmesh/libdtn/data/bundleV7/cbor/Encoder.java:126-127 | the key's encoding followed by its value's |
| CborEncoder.Encoder.StartArray | libdtn/src/main/java/io/left/rightmesh/libdtn/data/bundleV7/cbor/Encoder.java:142-149 | writes ContainerHead of major type 4 for the length, or overflows after a prefix |
| CborEncoder.Encoder.StopContainer | libdtn/src/main/java/io/left/rightmesh/libdtn/data/bundleV7/cbor/Encoder.java:157-160 | writes the break byte 0xff, or overflows writing nothing |
| CborEncoder.Encoder.StartMap | libdtn/src/main/java/io/left/rightmesh/libdtn/data/bundleV7/cbor/Encoder.java:171-178 | writes ContainerHead of major type 5 for the length |
| CborEncoder.Encoder.StartByteString | libdtn/src/main/java/io/left/rightmesh/libdtn/data/bundleV7/cbor/Encoder.java:201-208 | writes ContainerHead of major type 2 for the length |
| CborEncoder.Encoder.StartTextString | libdtn/src/main/java/io/left/rightmesh/libdtn/data/bundleV7/cbor/Encoder.java:244-251 | writes ContainerHead of major type 3 for the length |
| CborEncoder.Encoder.PutByteStringChunk | libdtn/src/main/java/io/left/rightmesh/libdtn/data/bundleV7/cbor/Encoder.java:217-220 | a chunk is written as a definite-length byte string |
| CborEncoder.Encoder.PutTextStringChunk | libdtn/src/main/java/io/left/rightmesh/libdtn/data/bundleV7/cbor/Encoder.java:260-263 | a chunk is written as a definite-length text string |
| CborEncoder.Encoder.EncodeByteString | libdtn/src/main/java/io/left/rightmesh/libdtn/data/bundleV7/cbor/Encoder.java:284-287 | writes the length head of major type 2 and then the bytes |
| CborEncoder.Encoder.EncodeTextString | libdtn/src/main/java/io/left/rightmesh/libdtn/data/bundleV7/cbor/Encoder.java:297-300 | writes the length head of major type 3 and then the bytes |
| CborEncoder.Encoder.EncodeTag | libdtn/src/main/java/io/left/rightmesh/libdtn/data/bundleV7/cbor/Encoder.java:309-312 | writes a major type 6 head carrying the tag |
| CborEncoder.Encoder.EncodeSimpleValue | libdtn/src/main/java/io/left/rightmesh/libdtn/data/bundleV7/cbor/Encoder.java:357-362 | values 25 to 31 raise CborErrorIllegalSimpleType with nothing written; any other value is written as SimpleValueBytes |
| CborEncoder.Encoder.EncodeInt | libdtn/src/main/java/io/left/rightmesh/libdtn/data/bundleV7/cbor/Encoder.java:371-377 | writes IntBytes, which IntRoundTrip reads back as the value |
| CborEncoder.Encoder.EncodeUint | libdtn/src/main/java/io/left/rightmesh/libdtn/data/bundleV7/cbor/Encoder.java:386-389 | writes the major type 0 head of the long as encode_number compares it, signed |
| CborEncoder.Encoder.EncodeNegativeUint | libdtn/src/main/java/io/left/rightmesh/libdtn/data/bundleV7/cbor/Encoder.java:398-401 | writes the major type 1 head of absolute_value - 1 in long arithmetic |
| CborEncoder.Encoder.EncodeNumber | libdtn/src/main/java/io/left/rightmesh/libdtn/data/bundleV7/cbor/Encoder.java:403-415 | writes exactly NumberBytes, whose round trip and shortest form NumberBytesRoundTrip proves, or overflows after a prefix |
| CborEncoder.Encoder.PutUInt8 | libdtn/src/main/java/io/left/rightmesh/libdtn/data/bundleV7/cbor/Encoder.java:417-420 | the byte mt or 24, then the argument byte |
| CborEncoder.Encoder.PutUIntN | libdtn/src/main/java/io/left/rightmesh/libdtn/data/bundleV7/cbor/Encoder.java:422-435 | the byte mt or ai, then the argument in big-endian order |
| CborEncoder.Encoder.EncodeString | libdtn/src/main/java/io/left/rightmesh/libdtn/data/bundleV7/cbor/Encoder.java:437-441 | the length head then the bytes, or overflow after a prefix |
| CborEncoder.CollectionWrote | libdtn/src/main/java/io/left/rightmesh/libdtn/data/bundleV7/cbor/Encoder.java:106-112 | what the collection loop writes is the array head followed by the items |
| CborEncoder.ItemsStop | libdtn/src/main/java/io/left/rightmesh/libdtn/data/bundleV7/cbor/Encoder.java:108-110 | an item loop that stops after an item leaves the bytes and status of the whole call |
| CborEncoder.ItemsSplit | libdtn/src/main/java/io/left/rightmesh/libdtn/data/bundleV7/cbor/Encoder.java:108-110 | the first n items are the first i items followed by items i to n - 1 |
| CborEncoder.ItemStep | libdtn/src/main/java/io/left/rightmesh/libdtn/data/bundleV7/cbor/Encoder.java:108-110 | writing one more item extends what the items before it wrote |
| CborEncoder.EntriesStop | libdtn/src/main/java/io/left/rightmesh/libdtn/data/bundleV7/cbor/Encoder.java:125-128 | a map loop that stops after an entry leaves the bytes and status of the whole call |
| CborEncoder.EntriesSplit | libdtn/src/main/java/io/left/rightmesh/libdtn/data/bundleV7/cbor/Encoder.java:125-128 | the first n entries are the first i entries followed by entries i to n - 1 |
| Eids.HierNotNone | libdtn-common/src/main/java/io/disruptedsystems/libdtn/common/data/eid/Dtn.java:35 | a hierarchical URI's scheme-specific part starts with "/", so it is never "none" |
| Eids.CheckValidDtnEid | libdtn-common/src/main/java/io/disruptedsystems/libdtn/common/data/eid/Dtn.java:31-41 | valid iff the scheme is "dtn" and the scheme-specific part is "none" or the path is present and not empty; otherwise InvalidDtnEid |
| Eids.IsSingleton | libdtn-common/src/main/java/io/disruptedsystems/libdtn/common/data/eid/Dtn.java:56-58 | answers iff the URI has a path (a null path throws NullPointerException), and then true iff the path does not start with "/~" |
| Eids.NullEid | libdtn-common/src/main/java/io/disruptedsystems/libdtn/common/data/eid/Dtn.java:60-62 | nullEid() prints as "dtn:none" |
| Eids.NullEidIsNullAndValid | libdtn-common/src/test/java/io/disruptedsystems/libdtn/common/data/EidTest.java:76-79 | nullEid() is both a null eid and a valid dtn eid, with neither path nor authority |
| Eids.NewDtnUri | libdtn-common/src/main/java/io/disruptedsystems/libdtn/common/data/eid/Dtn.java:69-85 | new URI("dtn", node, path, query, fragment) succeeds iff the path is absent, empty or absolute (and not empty when there is an authority); the result keeps the query, fragment, path and authority it was given |
| Eids.Create | libdtn-common/src/main/java/io/disruptedsystems/libdtn/common/data/eid/Dtn.java:69-71 | create(node) is dtn://node/ for a non-empty node |
| Eids.CreateChecked | libdtn-common/src/main/java/io/disruptedsystems/libdtn/common/data/eid/Dtn.java:81-85 | the four-argument create succeeds iff the URI can be built and it has a non-empty path; it passes on the URI syntax error and the result is a valid dtn eid with that path |
| Eids.CreateNode | libdtn-common/src/test/java/io/disruptedsystems/libdtn/common/data/EidTest.java:84-88 | create(node) prints as "dtn://node/", is a valid dtn eid with path "/", and is a singleton |
| Eids.CheckValidApiEid | libdtn-common/src/main/java/io/disruptedsystems/libdtn/common/data/eid/Api.java:16-21 | valid iff a valid dtn eid with authority "api:me"; NullPointerException exactly for a valid dtn eid without authority |
| Eids.IsApiEidAsWritten | libdtn-common/src/main/java/io/disruptedsystems/libdtn/common/data/eid/Api.java:23-30 | as written, isApiEid throws exactly when given a valid dtn eid without authority |
| Eids.IsApiEidNullEid | libdtn-common/src/main/java/io/disruptedsystems/libdtn/common/data/eid/Api.java:23-30 | as written, isApiEid(dtn:none) throws NullPointerException instead of answering false |
| Eids.IsApiEidAgrees | libdtn-common/src/main/java/io/disruptedsystems/libdtn/common/data/eid/Api.java:23-30 | wherever isApiEid as written answers, it answers as the corrected predicate, which is false for dtn:none |
| Eids.Me | libdtn-common/src/test/java/io/disruptedsystems/libdtn/common/data/EidTest.java:121-123 | me() is an api eid and prints as "dtn://api:me/" |
| Eids.MeWith | libdtn-common/src/main/java/io/disruptedsystems/libdtn/common/data/eid/Api.java:68-72 | me(path, query, fragment) succeeds iff the path is absolute and not empty, and the result is an api eid with those path, query and fragment |
| Eids.SwapApiMe | libdtn-common/src/main/java/io/disruptedsystems/libdtn/common/data/eid/Api.java:42-46 | fails with InvalidDtnEid when either URI is not a valid dtn eid; a result is a valid dtn eid with uri1's path, query and fragment and uri2's authority |
| Eids.SwapApiMeSucceeds | libdtn-common/src/test/java/io/disruptedsystems/libdtn/common/data/EidTest.java:129-135 | swapping a valid hierarchical dtn eid with a path into another dtn eid with an authority succeeds, giving dtn://authority2/path1?query1#fragment1 |
| Eids.SwapApiMeUnsafe | libdtn-common/src/main/java/io/disruptedsystems/libdtn/common/data/eid/Api.java:48-54 | the same result as swapApiMe, with any failure turned into IllegalArgumentException |
| Eids.CheckValidClaEid | libdtn-common/src/main/java/io/disruptedsystems/libdtn/common/data/eid/Cla.java:20-25 | valid iff a valid dtn eid whose authority starts with "@"; NullPointerException exactly for a valid dtn eid without authority |
| Eids.IsClaEidAsWritten | libdtn-common/src/main/java/io/disruptedsystems/libdtn/common/data/eid/Cla.java:33-40 | as written, isClaEid throws exactly when given a valid dtn eid without authority |
| Eids.IsClaEidNullEid | libdtn-common/src/main/java/io/disruptedsystems/libdtn/common/data/eid/Cla.java:33-40 | as written, isClaEid(dtn:none) throws NullPointerException instead of answering false |
| Eids.IsClaEidAgrees | libdtn-common/src/main/java/io/disruptedsystems/libdtn/common/data/eid/Cla.java:33-40 | wherever isClaEid as written answers, it answers as the corrected predicate, which is false for dtn:none |
| Eids.IndexOf | libdtn-common/src/main/java/io/disruptedsystems/libdtn/common/data/eid/Cla.java:15 | the first position of the character, or the length when it does not occur |
| Eids.MatchClaAuthority | libdtn-common/src/main/java/io/disruptedsystems/libdtn/common/data/eid/Cla.java:15 | a match of "^@([^:]+)(:(.+))?" yields a non-empty scheme without ':' and parameters without line terminators, and the authority is "@" + scheme, then ":" + parameters when present |
| Eids.MatchClaAuthorityOf | libdtn-common/src/main/java/io/disruptedsystems/libdtn/common/data/eid/Cla.java:15 | every scheme and parameters the pattern can accept are read back from the authority built of them |
| Eids.IndexOfPrefix | libdtn-common/src/main/java/io/disruptedsystems/libdtn/common/data/eid/Cla.java:15 | a character absent from a prefix is first found in what follows it |
| Eids.GetClaScheme | libdtn-common/src/main/java/io/disruptedsystems/libdtn/common/data/eid/Cla.java:42-47 | succeeds exactly for a cla eid whose authority the pattern matches, and answers group 1 |
| Eids.GetClaParameters | libdtn-common/src/main/java/io/disruptedsystems/libdtn/common/data/eid/Cla.java:60-65 | succeeds exactly when getClaScheme does, and answers group 3, null when there is no colon |
| Eids.CreateCla | libdtn-common/src/main/java/io/disruptedsystems/libdtn/common/data/eid/Cla.java:77-94 | succeeds iff the path is absolute and not empty; the result is a cla eid whose authority is "@" + scheme plus ":" + ssp unless the ssp is null or empty, with the given path, query and fragment |
| Eids.ClaRoundTrip | libdtn-common/src/main/java/io/disruptedsystems/libdtn/common/data/eid/Cla.java:42-94 | a cla eid created from a scheme without ':' gives back that scheme and the ssp, or null for an empty ssp |
| Eids.ToStringPlain | libdtn-common/src/test/java/io/disruptedsystems/libdtn/common/data/EidTest.java:156 | a URI with authority and no query or fragment prints as scheme://authority/path |
| Eids.ClaExampleCamera | libdtn-common/src/test/java/io/disruptedsystems/libdtn/common/data/EidTest.java:155-159 | create("camera", "") prints as "dtn://@camera/", with scheme "camera" and null parameters |
| Eids.ClaExampleStcp | libdtn-common/src/test/java/io/disruptedsystems/libdtn/common/data/EidTest.java:161-162 | create("stcp", "1.2.3.4:8118") is dtn://@stcp:1.2.3.4:8118/ |
| Eids.ClaExampleStcpParts | libdtn-common/src/test/java/io/disruptedsystems/libdtn/common/data/EidTest.java:163-165 | its scheme is "stcp" and its parameters "1.2.3.4:8118" |
| ClaStcp.MatchStcpParams | modules/cla/libdtn-module-stcp/src/main/java/io/disruptedsystems/libdtn/module/cla/stcp/ClaStcp.java:20 | a full match of "^([^:/?#]+):([0-9]+)$" splits the parameters into a host without ':', '/', '?' or '#' and a string of digits, joined by ':' |
| ClaStcp.MatchStcpParamsOf | modules/cla/libdtn-module-stcp/src/main/java/io/disruptedsystems/libdtn/module/cla/stcp/ClaStcp.java:20 | every host and digit string the pattern accepts is read back from host + ":" + port |
| ClaStcp.NatToString | modules/cla/libdtn-module-stcp/src/main/java/io/disruptedsystems/libdtn/module/cla/stcp/ClaStcp.java:90 | the decimal digits of a number, with no leading zero |
| ClaStcp.DigitsValueOfNat | modules/cla/libdtn-module-stcp/src/main/java/io/disruptedsystems/libdtn/module/cla/stcp/ClaStcp.java:64 | the digits of a number are read back as that number |
| ClaStcp.ParseInt | modules/cla/libdtn-module-stcp/src/main/java/io/disruptedsystems/libdtn/module/cla/stcp/ClaStcp.java:64 | Integer.parseInt of a digit string succeeds iff its value fits an int, and then gives that value; otherwise NumberFormatException |
| ClaStcp.ParseIntOfNat | modules/cla/libdtn-module-stcp/src/main/java/io/disruptedsystems/libdtn/module/cla/stcp/ClaStcp.java:64 | the digits of any non-negative int parse back to it |
| ClaStcp.CheckValidClaStcpEid | modules/cla/libdtn-module-stcp/src/main/java/io/disruptedsystems/libdtn/module/cla/stcp/ClaStcp.java:26-33 | succeeds only for a cla eid of scheme "stcp" whose parameters match host:port, giving both groups; passes on getClaScheme's failure, rejects another scheme with InvalidClaStcpEid, and throws NullPointerException when the parameters are null |
| ClaStcp.IsClaStcpEidAsWritten | modules/cla/libdtn-module-stcp/src/main/java/io/disruptedsystems/libdtn/module/cla/stcp/ClaStcp.java:35-43 | true exactly when the check succeeds; the only exception that escapes is NullPointerException |
| ClaStcp.IsClaStcpEidNoParameters | modules/cla/libdtn-module-stcp/src/main/java/io/disruptedsystems/libdtn/module/cla/stcp/ClaStcp.java:30-43 | as written, isClaStcpEid("dtn://@stcp/") throws NullPointerException instead of answering false |
| ClaStcp.IsClaStcpEidAgrees | modules/cla/libdtn-module-stcp/src/main/java/io/disruptedsystems/libdtn/module/cla/stcp/ClaStcp.java:35-43 | wherever isClaStcpEid as written answers, it answers as the corrected predicate, which holds exactly when the check succeeds |
| ClaStcp.GetStcpHost | modules/cla/libdtn-module-stcp/src/main/java/io/disruptedsystems/libdtn/module/cla/stcp/ClaStcp.java:45-49 | succeeds exactly when the check does, with the host group |
| ClaStcp.GetStcpPort | modules/cla/libdtn-module-stcp/src/main/java/io/disruptedsystems/libdtn/module/cla/stcp/ClaStcp.java:61-65 | the port group's value when the check succeeds and it fits an int; NumberFormatException when it does not; otherwise the check's error |
| ClaStcp.Unchecked | modules/cla/libdtn-module-stcp/src/main/java/io/disruptedsystems/libdtn/module/cla/stcp/ClaStcp.java:56-57 | the eid exceptions become IllegalArgumentException; any other result passes through |
| ClaStcp.GetStcpHostUnsafe | modules/cla/libdtn-module-stcp/src/main/java/io/disruptedsystems/libdtn/module/cla/stcp/ClaStcp.java:51-59 | the same host as getStcpHost; any failure is IllegalArgumentException or NullPointerException |
| ClaStcp.GetStcpPortUnsafe | modules/cla/libdtn-module-stcp/src/main/java/io/disruptedsystems/libdtn/module/cla/stcp/ClaStcp.java:67-75 | the same port as getStcpPort; a failure is IllegalArgumentException, NullPointerException or NumberFormatException |
| ClaStcp.Create | modules/cla/libdtn-module-stcp/src/main/java/io/disruptedsystems/libdtn/module/cla/stcp/ClaStcp.java:77-91 | succeeds iff the path is absolute and not empty, and gives a cla eid with that path |
| ClaStcp.CreateDefault | modules/cla/libdtn-module-stcp/src/main/java/io/disruptedsystems/libdtn/module/cla/stcp/ClaStcp.java:77-79 | create(host, port) always succeeds with path "/" |
| ClaStcp.CreateRoundTrip | modules/cla/libdtn-module-stcp/src/main/java/io/disruptedsystems/libdtn/module/cla/stcp/ClaStcp.java:45-91 | an eid created from a host the pattern accepts and a non-negative port is an stcp eid whose host and port read back as given |
| ClaBows.B64Char | modules/cla/libdtn-module-bows/src/main/java/io/disruptedsystems/libdtn/module/cla/bows/ClaBows.java:80 | a character of the base64 alphabet of Table 1 of RFC 4648, never the pad '=' |
| ClaBows.B64Value | modules/cla/libdtn-module-bows/src/main/java/io/disruptedsystems/libdtn/module/cla/bows/ClaBows.java:87 | the value of an alphabet character, below 64 and mapped back to that character |
| ClaBows.B64ValueOfChar | modules/cla/libdtn-module-bows/src/main/java/io/disruptedsystems/libdtn/module/cla/bows/ClaBows.java:80-87 | each 6-bit value's character decodes to that value |
| ClaBows.Base64Encode | modules/cla/libdtn-module-bows/src/main/java/io/disruptedsystems/libdtn/module/cla/bows/ClaBows.java:80 | the encoder writes 4 characters per started group of 3 bytes, all from the alphabet or '=' |
| ClaBows.Val | modules/cla/libdtn-module-bows/src/main/java/io/disruptedsystems/libdtn/module/cla/bows/ClaBows.java:87 | an alphabet character carries a 6-bit value |
| ClaBows.FinalUnit | modules/cla/libdtn-module-bows/src/main/java/io/disruptedsystems/libdtn/module/cla/bows/ClaBows.java:87 | a final unit is 2 to 4 characters giving fewer bytes than characters; anything else is IllegalArgumentException |
| ClaBows.Base64Decode | modules/cla/libdtn-module-bows/src/main/java/io/disruptedsystems/libdtn/module/cla/bows/ClaBows.java:87 | the decoder fails only with IllegalArgumentException |
| ClaBows.GroupBits | modules/cla/libdtn-module-bows/src/main/java/io/disruptedsystems/libdtn/module/cla/bows/ClaBows.java:80-87 | the three bytes of a group come back out of its four 6-bit values |
| ClaBows.DecodeQuad1 | modules/cla/libdtn-module-bows/src/main/java/io/disruptedsystems/libdtn/module/cla/bows/ClaBows.java:80-87 | a final group of one byte, padded with "==", decodes to that byte |
| ClaBows.DecodeQuad2 | modules/cla/libdtn-module-bows/src/main/java/io/disruptedsystems/libdtn/module/cla/bows/ClaBows.java:80-87 | a final group of two bytes, padded with "=", decodes to those bytes |
| ClaBows.DecodeQuad3 | modules/cla/libdtn-module-bows/src/main/java/io/disruptedsystems/libdtn/module/cla/bows/ClaBows.java:80-87 | a full group of three bytes decodes to them, followed by what the rest decodes to |
| ClaBows.RoundTripShort | modules/cla/libdtn-module-bows/src/main/java/io/disruptedsystems/libdtn/module/cla/bows/ClaBows.java:80-87 | one or two bytes round-trip through the encoder and decoder |
| ClaBows.Base64RoundTrip | modules/cla/libdtn-module-bows/src/main/java/io/disruptedsystems/libdtn/module/cla/bows/ClaBows.java:80-87 | decoding what the base64 encoder wrote gives back the bytes |
| ClaBows.ReplaceAll | modules/cla/libdtn-module-bows/src/main/java/io/disruptedsystems/libdtn/module/cla/bows/ClaBows.java:81-83 | replaceAll of one literal character by another changes exactly those characters |
| ClaBows.Encode | modules/cla/libdtn-module-bows/src/main/java/io/disruptedsystems/libdtn/module/cla/bows/ClaBows.java:79-84 | encode writes 4 characters per started group of 3 bytes of the url |
| ClaBows.Decode | modules/cla/libdtn-module-bows/src/main/java/io/disruptedsystems/libdtn/module/cla/bows/ClaBows.java:86-91 | decode fails only with IllegalArgumentException |
| ClaBows.EncodeIsBowsParam | modules/cla/libdtn-module-bows/src/main/java/io/disruptedsystems/libdtn/module/cla/bows/ClaBows.java:79-84 | the encoding of a non-empty url matches "^([a-zA-Z0-9-_.]+)$", so it is accepted as bows parameters |
| ClaBows.DecodeEncode | modules/cla/libdtn-module-bows/src/main/java/io/disruptedsystems/libdtn/module/cla/bows/ClaBows.java:79-91 | decode(encode(url)) gives back the url's ASCII bytes |
| ClaBows.CheckValidClaBowsEid | modules/cla/libdtn-module-bows/src/main/java/io/disruptedsystems/libdtn/module/cla/bows/ClaBows.java:28-35 | succeeds only for a cla eid of scheme "bows" whose parameters match the pattern, giving them; passes on getClaScheme's failure, rejects another scheme with InvalidClaBowsEid, and throws NullPointerException when the parameters are null |
| ClaBows.IsClaBowsEidAsWritten | modules/cla/libdtn-module-bows/src/main/java/io/disruptedsystems/libdtn/module/cla/bows/ClaBows.java:37-45 | true exactly when the check succeeds; the only exception that escapes is NullPointerException |
| ClaBows.IsClaBowsEidNoParameters | modules/cla/libdtn-module-bows/src/main/java/io/disruptedsystems/libdtn/module/cla/bows/ClaBows.java:32-45 | as written, isClaBowsEid("dtn://@bows/") throws NullPointerException instead of answering false |
| ClaBows.IsClaBowsEidAgrees | modules/cla/libdtn-module-bows/src/main/java/io/disruptedsystems/libdtn/module/cla/bows/ClaBows.java:37-45 | wherever isClaBowsEid as written answers, it answers as the corrected predicate, which holds exactly when the check succeeds |
| ClaBows.GetWebsocketUrl | modules/cla/libdtn-module-bows/src/main/java/io/disruptedsystems/libdtn/module/cla/bows/ClaBows.java:47-51 | a result comes from a bows eid and is the decoding of its parameters; when the check fails, its error |
| ClaBows.Create | modules/cla/libdtn-module-bows/src/main/java/io/disruptedsystems/libdtn/module/cla/bows/ClaBows.java:63-77 | succeeds iff the path is absolute and not empty, and gives a cla eid with that path |
| ClaBows.CreateRoundTrip | modules/cla/libdtn-module-bows/src/main/java/io/disruptedsystems/libdtn/module/cla/bows/ClaBows.java:47-91 | a bows eid created from a non-empty url is a bows eid whose websocket url reads back as that url |
| BaseDtnEids.NormalDemux | libdtn-common/src/main/java/io/disruptedsystems/libdtn/common/data/eid/BaseDtnEid.java:29-30 | a null demux becomes "", and a demux starting with "/" loses exactly that one character |
| BaseDtnEids.BaseDtnEid.constructor | libdtn-common/src/main/java/io/disruptedsystems/libdtn/common/data/eid/BaseDtnEid.java:23-33 | a null node name becomes "", the demux is normalised, the ssp is "//" + node + "/" + demux, and the eid is not the null endpoint |
| BaseDtnEids.BaseDtnEid.Null | libdtn-common/src/main/java/io/disruptedsystems/libdtn/common/data/eid/DtnEid.java:13-17 | nullEid() has ssp "none" and empty node name and demux; it is the null endpoint, a singleton, and not authoritative |
| BaseDtnEids.BaseDtnEid.Copy | libdtn-common/src/main/java/io/disruptedsystems/libdtn/common/data/eid/BaseDtnEid.java:17-21 | copy() keeps ssp, node name and demux, and so every answer of the predicates |
| BaseDtnEids.BaseDtnEid.CopyDemux | libdtn-common/src/main/java/io/disruptedsystems/libdtn/common/data/eid/BaseDtnEid.java:66-69 | the demux is the other's and the ssp and node name are unchanged, so the ssp stays consistent iff the demux did not change |
| BaseDtnEids.NodeEidAuthoritative | libdtn-common/src/main/java/io/disruptedsystems/libdtn/common/data/eid/BaseDtnEid.java:82-91 | an eid made of a node name alone is a singleton and authoritative over every eid of that node |
| BaseDtnEids.AuthoritativeOverIff | libdtn-common/src/main/java/io/disruptedsystems/libdtn/common/data/eid/BaseDtnEid.java:72-91 | authority over another eid holds iff the ssp is not "none", the demux is empty, the other is a BaseDtnEid and the node names are equal |
| Registrars.CheckSink | libdtn-core/src/main/java/io/disruptedsystems/libdtn/core/aa/Registrar.java:94-103 | success iff enabled, the eid is not null and has an entry, which is returned; otherwise RegistrarDisabled, NullArgument or EidNotRegistered, in that order of checking |
| Registrars.CheckSinkCookie | libdtn-core/src/main/java/io/disruptedsystems/libdtn/core/aa/Registrar.java:105-118 | as CheckSink with a non-null cookie that must equal the registration's, BadCookie otherwise |
| Registrars.DeliverTo | libdtn-core/src/main/java/io/disruptedsystems/libdtn/core/aa/Registrar.java:329-338 | an active registration hands the bundle to its callback; a passive one fails with PassiveRegistration |
| Registrars.Deliver | libdtn-core/src/main/java/io/disruptedsystems/libdtn/core/aa/Registrar.java:292-327 | DeliveryDisabled when disabled; the registration under the destination's endpoint when there is one; UnregisteredEid when there is none and the local table matched an AA registration or the destination is not a dtn eid; any success goes to an active callback of the table |
| Registrars.DeliverApiMeFallback | libdtn-core/src/main/java/io/disruptedsystems/libdtn/core/aa/Registrar.java:315-321 | otherwise a dtn destination is delivered through the registration of the same path, query and fragment under api:me, or is unregistered when there is none; dtn:none makes the swap throw IllegalArgument |
| Registrars.Registrar.constructor | libdtn-core/src/main/java/io/disruptedsystems/libdtn/core/aa/Registrar.java:62-66 | a new registrar has an empty table |
| Registrars.Registrar.IsRegistered | libdtn-core/src/main/java/io/disruptedsystems/libdtn/core/aa/Registrar.java:137-142 | RegistrarDisabled when disabled, NullArgument for a null eid, else whether the eid has an entry |
| Registrars.Registrar.Register | libdtn-core/src/main/java/io/disruptedsystems/libdtn/core/aa/Registrar.java:150-167 | succeeds iff enabled, eid and callback non-null and the endpoint free; it then returns the new registration's cookie and adds exactly that entry; any failure leaves the table unchanged, with RegistrarDisabled, NullArgument or EidAlreadyRegistered |
| Registrars.Registrar.RegisterPassive | libdtn-core/src/main/java/io/disruptedsystems/libdtn/core/aa/Registrar.java:144-148 | register(eid) makes a passive registration, with the same success condition |
| Registrars.Registrar.Unregister | libdtn-core/src/main/java/io/disruptedsystems/libdtn/core/aa/Registrar.java:169-179 | succeeds iff the cookie check succeeds, and then removes exactly that entry; otherwise the check's error and an unchanged table |
| Registrars.Registrar.SetActive | libdtn-core/src/main/java/io/disruptedsystems/libdtn/core/aa/Registrar.java:235-244 | NullArgument for a null callback before any other check; otherwise the cookie check's error when it fails, and once it passes only that entry's callback changes; the table is unchanged on every error |
| Registrars.Registrar.SetPassive | libdtn-core/src/main/java/io/disruptedsystems/libdtn/core/aa/Registrar.java:246-253 | once the eid checks, only that entry becomes passive; otherwise the check's error and an unchanged table |
| Registrars.Registrar.SetPassiveWithCookie | libdtn-core/src/main/java/io/disruptedsystems/libdtn/core/aa/Registrar.java:255-262 | as SetPassive, with the cookie checked |
| Registrars.Registrar.DeliverBundle | libdtn-core/src/main/java/io/disruptedsystems/libdtn/core/aa/Registrar.java:292-327 | deliver on the registrar's own table: DeliveryDisabled when disabled, the endpoint's registration when present, UnregisteredEid after an AA match or for a non-dtn destination, otherwise the api:me registration of the same path (IllegalArgument for dtn:none), and only active callbacks receive bundles |
| Registrars.CookieOpensRegistration | libdtn-core/src/main/java/io/disruptedsystems/libdtn/core/aa/Registrar.java:105-118 | after a registration, its cookie opens the cookie-checked operations and any other cookie gets BadCookie |
| Registrars.UnregisterRemovesOnly | libdtn-core/src/main/java/io/disruptedsystems/libdtn/core/aa/Registrar.java:169-179 | after removal the eid is unregistered and every other eid checks as before |
| Registrars.DeliverToRegistered | libdtn-core/src/main/java/io/disruptedsystems/libdtn/core/aa/Registrar.java:299-302 | a bundle for a registered endpoint goes to its callback when active and fails with PassiveRegistration when passive |
| Registrars.SetActiveThenDeliver | libdtn-core/src/main/java/io/disruptedsystems/libdtn/core/aa/Registrar.java:236-262 | delivery follows the registration's current callback after setActive and after setPassive |
| EventListeners.Watched | libdtn-core/src/main/java/io/disruptedsystems/libdtn/core/storage/EventListener.java:124 | the key's set gains the id and is created when absent; every other key keeps its set |
| EventListeners.Unwatched | libdtn-core/src/main/java/io/disruptedsystems/libdtn/core/storage/EventListener.java:137-142 | the id leaves every set and no key is added or dropped |
| EventListeners.EventListener.constructor | libdtn-core/src/main/java/io/disruptedsystems/libdtn/core/storage/EventListener.java:90-94 | a new listener has an empty watch list |
| EventListeners.EventListener.Watch | libdtn-core/src/main/java/io/disruptedsystems/libdtn/core/storage/EventListener.java:115-126 | true iff enabled and the id was not yet watched under the key; the list becomes Watched when enabled and is unchanged otherwise |
| EventListeners.EventListener.UnwatchAll | libdtn-core/src/main/java/io/disruptedsystems/libdtn/core/storage/EventListener.java:128-144 | unwatch(bid): when enabled the list becomes Unwatched (loop over the keys), otherwise unchanged |
| EventListeners.EventListener.Unwatch | libdtn-core/src/main/java/io/disruptedsystems/libdtn/core/storage/EventListener.java:146-161 | false iff disabled or the key has no set; otherwise only that key's set loses the id |
| EventListeners.EventListener.GetBundlesOfInterest | libdtn-core/src/main/java/io/disruptedsystems/libdtn/core/storage/EventListener.java:163-176 | an id is returned iff the listener is enabled and the id is in the key's set |
| EventListeners.EventListener.ComponentDown | libdtn-core/src/main/java/io/disruptedsystems/libdtn/core/storage/EventListener.java:101-113 | every set is cleared and the list ends empty, so no key has bundles of interest |
| EventListeners.WatchThenUnwatch | libdtn-core/src/main/java/io/disruptedsystems/libdtn/core/storage/EventListener.java:116-144 | a watched id is of interest under its key, no key keeps it after unwatch(bid), and other keys are untouched by watch |
| EventListeners.WatchIdempotent | libdtn-core/src/main/java/io/disruptedsystems/libdtn/core/storage/EventListener.java:124 | watching the same id under the same key twice is the same as once |
| EventListeners.UnwatchKeepsOthers | libdtn-core/src/main/java/io/disruptedsystems/libdtn/core/storage/EventListener.java:137-142 | unwatching one id leaves every other id's membership under every key as it was |
| Storages.StorageIndex.constructor | libdtn-core/src/main/java/io/disruptedsystems/libdtn/core/storage/simple/StorageIndex.java:27 | a new index is empty |
| Storages.StorageIndex.Teardown | libdtn-core/src/main/java/io/disruptedsystems/libdtn/core/storage/simple/StorageIndex.java:29-31 | teardown empties the index, so its size is 0 |
| Storages.StorageIndex.Put | libdtn-core/src/main/java/io/disruptedsystems/libdtn/core/storage/simple/StorageIndex.java:33-38 | the entry for the bid is stored or replaced, the bundle is returned and tagged "in_storage", and it can then be pulled |
| Storages.StorageIndex.PutAttached | libdtn-core/src/main/java/io/disruptedsystems/libdtn/core/storage/simple/StorageIndex.java:40-45 | as Put, with the attachment stored in the entry |
| Storages.StorageIndex.PullBundle | libdtn-core/src/main/java/io/disruptedsystems/libdtn/core/storage/simple/StorageIndex.java:47-52 | null iff the bid is not indexed, else the indexed bundle |
| Storages.StorageIndex.PullEntry | libdtn-core/src/main/java/io/disruptedsystems/libdtn/core/storage/simple/StorageIndex.java:54-59 | null iff the bid is not indexed, else the indexed entry |
| Storages.StorageIndex.Remove | libdtn-core/src/main/java/io/disruptedsystems/libdtn/core/storage/simple/StorageIndex.java:61-63 | only that bid leaves the index; every other bid's membership is unchanged |
| Storages.StorageIndex.Size | libdtn-core/src/main/java/io/disruptedsystems/libdtn/core/storage/simple/StorageIndex.java:65-67 | the size is the number of indexed bids |
| Storages.StorageIndex.AllBid | libdtn-core/src/main/java/io/disruptedsystems/libdtn/core/storage/simple/StorageIndex.java:73-75 | a bid is in the key set iff the index contains it |
| Storages.Create | libdtn-core/src/main/java/io/disruptedsystems/libdtn/core/storage/simple/SimpleStorage.java:30-42 | a volatile storage iff the path is null, "@DISABLED" or not a writable directory; otherwise a file storage on that path |
| Storages.VolatileStorage.constructor | libdtn-core/src/main/java/io/disruptedsystems/libdtn/core/storage/simple/SimpleStorage.java:44-49 | a fresh empty index and a fresh blob factory with the configured volatile maximum, enabled iff that maximum is positive |
| Storages.VolatileStorage.GetBlobFactory | libdtn-core/src/main/java/io/disruptedsystems/libdtn/core/storage/simple/SimpleStorage.java:51-58 | the null-blob factory iff disabled, the storage's own factory otherwise |
| Storages.VolatileStorage.ComponentDown | libdtn-core/src/main/java/io/disruptedsystems/libdtn/core/storage/simple/SimpleStorage.java:70-73 | the index is emptied |
| Storages.VolatileStorage.Count | libdtn-core/src/main/java/io/disruptedsystems/libdtn/core/storage/simple/SimpleStorage.java:75-82 | 0 when disabled, else the number of indexed bids |
| Storages.VolatileStorage.Contains | libdtn-core/src/main/java/io/disruptedsystems/libdtn/core/storage/simple/SimpleStorage.java:84-91 | StorageUnavailable iff disabled, else whether the bid is indexed |
| Storages.VolatileStorage.Clear | libdtn-core/src/main/java/io/disruptedsystems/libdtn/core/storage/simple/SimpleStorage.java:93-102 | StorageUnavailable and nothing removed when disabled; otherwise every bid is removed and the count is 0 |
| Storages.VolatileStorage.Store | libdtn-core/src/main/java/io/disruptedsystems/libdtn/core/storage/simple/VolatileStorage.java:24-36 | StorageUnavailable when disabled, BundleAlreadyExists for an indexed bid, both leaving index and tags unchanged; otherwise the bundle is indexed and tagged, the count rises by one and contains is true |
| Storages.VolatileStorage.GetAsWritten | libdtn-core/src/main/java/io/disruptedsystems/libdtn/core/storage/simple/VolatileStorage.java:38-49 | the indexed bundle iff enabled and indexed; an absent bid fails with BundleAlreadyExists, a disabled storage with StorageUnavailable |
| Storages.VolatileStorage.Get | libdtn-core/src/main/java/io/disruptedsystems/libdtn/core/storage/simple/VolatileStorage.java:38-49 | as GetAsWritten, but an absent bid fails with BundleNotFound |
| Storages.VolatileStorage.Remove | libdtn-core/src/main/java/io/disruptedsystems/libdtn/core/storage/simple/VolatileStorage.java:51-55 | the bid leaves the index, whether or not it was there and whether or not the storage is enabled |
| Storages.GetMissReadsAsDuplicate | libdtn-core/src/main/java/io/disruptedsystems/libdtn/core/storage/simple/VolatileStorage.java:44-46 | as written, a missing bid reads as the duplicate error store gives; the corrected Get tells the two apart |
| RoutingEngines.FirstRegistered | libdtn-core/src/main/java/io/disruptedsystems/libdtn/core/routing/RoutingEngine.java:96-105 | the position of the first routing block whose strategy id is registered: every earlier one is unregistered, and None iff none is registered |
| RoutingEngines.RoutingEngine.constructor | libdtn-core/src/main/java/io/disruptedsystems/libdtn/core/routing/RoutingEngine.java:43-47 | a new engine has no additional strategy |
| RoutingEngines.RoutingEngine.AddRoutingStrategy | libdtn-core/src/main/java/io/disruptedsystems/libdtn/core/routing/RoutingEngine.java:59-66 | refused iff the id is already registered, leaving the map unchanged; otherwise the strategy is added under its id |
| RoutingEngines.RoutingEngine.FindAlternateStrategy | libdtn-core/src/main/java/io/disruptedsystems/libdtn/core/routing/RoutingEngine.java:95-108 | the loop returns the strategy of the first registered routing block, and NoAlternateStrategyFound iff there is none |
| RoutingEngines.RoutingEngine.Route | libdtn-core/src/main/java/io/disruptedsystems/libdtn/core/routing/RoutingEngine.java:68-84 | a direct failure or Forwarded passes through, CustodyAccepted becomes IllegalRoutingResult, and CustodyRefused takes the alternate strategy or, failing it, forwardLater |
| RoutingEngines.RoutingEngine.DirectForwardingContraindicated | libdtn-core/src/main/java/io/disruptedsystems/libdtn/core/routing/RoutingEngine.java:86-93 | forwardLater's answer when no alternate strategy is found or the alternate one fails, the alternate one's answer otherwise |
| RoutingEngines.FirstRegisteredMonotone | libdtn-core/src/main/java/io/disruptedsystems/libdtn/core/routing/RoutingEngine.java:95-108 | registering more strategies can only move the first match earlier, never lose it |
| RoutingTables.Successors | libdtn-core/src/main/java/io/disruptedsystems/libdtn/core/routing/RoutingTable.java:80-85 | the eids an entry leads to from the given eid, exactly |
| RoutingTables.Candidates | libdtn-core/src/main/java/io/disruptedsystems/libdtn/core/routing/RoutingTable.java:80-85 | the potential next hops: the eid itself and exactly the `next` of every entry whose `to` is that eid |
| RoutingTables.Next | libdtn-core/src/main/java/io/disruptedsystems/libdtn/core/routing/RoutingTable.java:73-76 | the candidates a step recurses on: successors that are expanded and not yet on the path |
| RoutingTables.SearchSound | libdtn-core/src/main/java/io/disruptedsystems/libdtn/core/routing/RoutingTable.java:69-78 | every result of the search is emitted and ends a chain of entries from the start whose eids in between are expanded, off the path and distinct; the chain is returned |
| RoutingTables.SearchComplete | libdtn-core/src/main/java/io/disruptedsystems/libdtn/core/routing/RoutingTable.java:69-78 | conversely, the emitted end of every such chain is a result, so the recursion loses nothing by skipping eids already on the path |
| RoutingTables.RoutingTable.constructor | libdtn-core/src/main/java/io/disruptedsystems/libdtn/core/routing/RoutingTable.java:33-37 | a new table has empty static and learned sets |
| RoutingTables.RoutingTable.AddRoute | libdtn-core/src/main/java/io/disruptedsystems/libdtn/core/routing/RoutingTable.java:113-122 | a disabled table ignores the route; an enabled one learns the entry, which then shows in dumpTable |
| RoutingTables.RoutingTable.SetStaticRoutes | libdtn-core/src/main/java/io/disruptedsystems/libdtn/core/routing/RoutingTable.java:49-53 | the static set is replaced by one entry per configured (to, next) pair |
| RoutingTables.RoutingTable.SetEnabled | libdtn-core/src/main/java/io/disruptedsystems/libdtn/core/CoreComponent.java:24-44 | the enable switch: switched on, componentUp (libdtn-core/src/main/java/io/disruptedsystems/libdtn/core/routing/RoutingTable.java lines 44-53) takes the static-routing switch and the configured routes, which then show in dumpTable when static routing is on; switched off, nothing else changes |
| RoutingTables.RoutingTable.SetStaticEnabled | libdtn-core/src/main/java/io/disruptedsystems/libdtn/core/routing/RoutingTable.java:46-48 | the static-routing switch takes the configured value and nothing else changes |
| RoutingTables.RoutingTable.DumpTable | libdtn-core/src/main/java/io/disruptedsystems/libdtn/core/routing/RoutingTable.java:124-135 | empty when disabled; otherwise the learned entries, plus the static ones exactly when static routing is on |
| RoutingTables.RoutingTable.ResolveEid | libdtn-core/src/main/java/io/disruptedsystems/libdtn/core/routing/RoutingTable.java:60-67 | ComponentIsDown iff disabled; every eid found is a cla eid |
| RoutingTables.RoutingTable.ReverseCla | libdtn-core/src/main/java/io/disruptedsystems/libdtn/core/routing/RoutingTable.java:87-94 | ComponentIsDown iff disabled; the cla eid itself is always in the answer |
| RoutingTables.ResolveEidFinds | libdtn-core/src/main/java/io/disruptedsystems/libdtn/core/routing/RoutingTable.java:69-85 | an eid is found iff it is a cla eid ending a loop-free chain of entries from the destination through non-cla eids |
| RoutingTables.ReverseClaFinds | libdtn-core/src/main/java/io/disruptedsystems/libdtn/core/routing/RoutingTable.java:96-110 | an eid is found iff it ends a loop-free chain of entries followed backwards from the cla eid |
| RoutingTables.ResolveEidDirect | libdtn-core/src/main/java/io/disruptedsystems/libdtn/core/routing/RoutingTable.java:80-85 | a cla eid that is a direct next hop of the destination is always found |
| RoutingTables.SearchLoopBack | libdtn-core/src/main/java/io/disruptedsystems/libdtn/core/routing/RoutingTable.java:73-76 | an edge back into the start changes no result when the start is not emitted, because the path filter never follows it |
| RoutingTables.ResolveEidIgnoresLoop | libdtn-core/src/test/java/io/disruptedsystems/libdtn/core/routing/RoutingTableTest.java:70-77 | adding a route back to a non-cla destination (a routing loop) leaves the cla eids resolved for it unchanged |
| ExtensionManagers.ExtensionManager.constructor | libdtn-core/src/main/java/io/disruptedsystems/libdtn/core/extension/ExtensionManager.java:54-58 | a new manager has four empty registries and the given base factories |
| ExtensionManagers.ExtensionManager.AddExtensionBlock | libdtn-core/src/main/java/io/disruptedsystems/libdtn/core/extension/ExtensionManager.java:150-163 | BlockTypeAlreadyManaged iff the type is registered, with all four registries unchanged; otherwise all four gain the type together, and the block and processor factories then serve it when the base does not |
| ExtensionManagers.ExtensionManager.CreateBlock | libdtn-core/src/main/java/io/disruptedsystems/libdtn/core/extension/ExtensionManager.java:60-74 | the base block when the base knows the type, else the registered supplier's, else UnknownBlockType |
| ExtensionManagers.ExtensionManager.CreateParser | libdtn-core/src/main/java/io/disruptedsystems/libdtn/core/extension/ExtensionManager.java:76-93 | the base parser for known types and unknown extension blocks, else the registered parser supplier, else UnknownBlockType |
| ExtensionManagers.ExtensionManager.CreateSerializer | libdtn-core/src/main/java/io/disruptedsystems/libdtn/core/extension/ExtensionManager.java:95-109 | the base serializer when the base knows the type, else the registered supplier's, else UnknownBlockType |
| ExtensionManagers.ExtensionManager.CreateProcessor | libdtn-core/src/main/java/io/disruptedsystems/libdtn/core/extension/ExtensionManager.java:111-125 | the base processor when the base knows the type, else the registered supplier's, else ProcessorNotFound |
| ExtensionManagers.BaseTypesWin | libdtn-core/src/main/java/io/disruptedsystems/libdtn/core/extension/ExtensionManager.java:64-72 | an extension registered for a type the base knows is accepted but never used by the block and processor factories |
| ExtensionManagers.RegisteredTypeServed | libdtn-core/src/main/java/io/disruptedsystems/libdtn/core/extension/ExtensionManager.java:150-163 | every registered type gets a block, a parser, a serializer and a processor |
| Bundles.RemoveFirst | libdtn-core/src/main/java/io/disruptedsystems/libdtn/core/processor/BundleProtocol.java:194-196 | delBlock's list removal: unchanged when the block is absent, otherwise one occurrence fewer with everything else kept |
| BundleProtocols.ReportFor | libdtn-core/src/main/java/io/disruptedsystems/libdtn/core/processor/BundleProtocol.java:314-342 | no report iff report-to is dtn:none or the bundle's flag for the assertion is unset; a report carries report-to, the assertion, the reason, the bundle id and its source |
| BundleProtocols.AddReport | libdtn-core/src/main/java/io/disruptedsystems/libdtn/core/processor/BundleProtocol.java:363-369 | the report is appended to the status-reports list, which is created when absent; every other tag is kept |
| BundleProtocols.Report | libdtn-core/src/main/java/io/disruptedsystems/libdtn/core/processor/BundleProtocol.java:314-370 | making a report changes nothing but the tags |
| BundleProtocols.Sends | libdtn-core/src/main/java/io/disruptedsystems/libdtn/core/processor/BundleProtocol.java:304-309 | one send per waiting report, in order, each from the node id |
| BundleProtocols.ProcessingEnded | libdtn-core/src/main/java/io/disruptedsystems/libdtn/core/processor/BundleProtocol.java:300-311 | ending processing only appends the sends of the waiting reports |
| BundleProtocols.Discarding | libdtn-core/src/main/java/io/disruptedsystems/libdtn/core/processor/BundleProtocol.java:291-298 | the storage is asked to remove the bundle before anything else is sent, and the bundle is cleared; tags, blocks and source are kept |
| BundleProtocols.Deletion | libdtn-core/src/main/java/io/disruptedsystems/libdtn/core/processor/BundleProtocol.java:271-289 | none of the three retention tags remains, no other tag appears or disappears besides the report list, the bundle is cleared and removal is requested first |
| BundleProtocols.ForwardingSuccessful | libdtn-core/src/main/java/io/disruptedsystems/libdtn/core/processor/BundleProtocol.java:129-136 | a forwarded bundle ends cleared with its blocks and source unchanged |
| BundleProtocols.ForwardingFailed | libdtn-core/src/main/java/io/disruptedsystems/libdtn/core/processor/BundleProtocol.java:138-153 | a bundle for a local destination is discarded, any other is deleted; cleared either way, with blocks and source kept |
| BundleProtocols.ForwardingFailedOutcome | libdtn-core/src/main/java/io/disruptedsystems/libdtn/core/processor/BundleProtocol.java:146-151 | local destination: only forward-pending goes, no report is added, removal is requested and the waiting reports are sent; otherwise the retention tags go and the deletion report the bundle asks for joins the waiting ones |
| BundleProtocols.ForwardingFailedOnLocalEid | libdtn-core/src/main/java/io/disruptedsystems/libdtn/core/processor/BundleProtocol.java:146-151 | with the lookup read from isEidLocal's nullable answer, a non-null answer discards and a null one deletes |
| Bundles.LookUpOf | libdtn-core/src/main/java/io/disruptedsystems/libdtn/core/routing/LocalEidTable.java:54-79 | the null answer is exactly "not local", and a registration match is exactly an AA match |
| BundleProtocols.Forwarding | libdtn-core/src/main/java/io/disruptedsystems/libdtn/core/processor/BundleProtocol.java:102-127 | routing is requested first; blocks and source are kept |
| BundleProtocols.Transmission | libdtn-core/src/main/java/io/disruptedsystems/libdtn/core/processor/BundleProtocol.java:62-76 | transmission keeps the blocks and only appends requests |
| BundleProtocols.LocalDeliverySuccessful | libdtn-core/src/main/java/io/disruptedsystems/libdtn/core/processor/BundleProtocol.java:224-233 | a delivered bundle ends cleared with its blocks and source unchanged |
| BundleProtocols.LocalDeliveryFailure | libdtn-core/src/main/java/io/disruptedsystems/libdtn/core/processor/BundleProtocol.java:235-263 | delivery failure keeps blocks and source and only appends requests |
| BundleProtocols.LocalDelivery | libdtn-core/src/main/java/io/disruptedsystems/libdtn/core/processor/BundleProtocol.java:209-222 | delivery is requested first, with the local table's answer |
| BundleProtocols.Dispatching | libdtn-core/src/main/java/io/disruptedsystems/libdtn/core/processor/BundleProtocol.java:78-100 | dispatching keeps blocks and source and only appends requests |
| BundleProtocols.Expired | libdtn-core/src/main/java/io/disruptedsystems/libdtn/core/processor/BundleProtocol.java:155-161 | an expired bundle ends cleared |
| BundleProtocols.ReceiveBlock | libdtn-core/src/main/java/io/disruptedsystems/libdtn/core/processor/BundleProtocol.java:179-197 | one block asks for deletion iff its processor fails, or it has none and is flagged delete-bundle; otherwise only a dropped block leaves the list; a block with a processor changes nothing; an unprocessable block adds the ReportingNodeReceivedBundle/BlockUnintelligible report when it and the bundle ask for one, and, flagged delete-bundle, attaches the reason BlockUnintelligible unless a reason is already attached |
| BundleProtocols.UnintelligibleBlockDeletes | libdtn-core/src/main/java/io/disruptedsystems/libdtn/core/processor/BundleProtocol.java:179-202 | an unprocessable block flagged delete-bundle gets the bundle deleted and cleared with the reason BlockUnintelligible (unless one was attached), its report and the deletion report joining the waiting reports |
| BundleProtocols.ReceiveBlocks | libdtn-core/src/main/java/io/disruptedsystems/libdtn/core/processor/BundleProtocol.java:178-202 | the block loop leaves source, sends and the cleared state as they were |
| BundleProtocols.Received | libdtn-core/src/main/java/io/disruptedsystems/libdtn/core/processor/BundleProtocol.java:165-174 | reception tags dispatch-pending and keeps blocks, source and sends |
| BundleProtocols.AfterBlocks | libdtn-core/src/main/java/io/disruptedsystems/libdtn/core/processor/BundleProtocol.java:199-206 | the bundle after the block loop is deleted or dispatched, and nothing sent is undone |
| BundleProtocols.Reception | libdtn-core/src/main/java/io/disruptedsystems/libdtn/core/processor/BundleProtocol.java:163-207 | reception only appends requests |
| BundleProtocols.DeletionReleases | libdtn-core/src/main/java/io/disruptedsystems/libdtn/core/processor/BundleProtocol.java:271-289 | deletion keeps every other tag's value, adds exactly the deletion report when asked for and reporting is on, and requests removal before sending each waiting report |
| BundleProtocols.ExpiredReason | libdtn-core/src/main/java/io/disruptedsystems/libdtn/core/processor/BundleProtocol.java:155-161 | an expired bundle is cleared without retention tags, and its reason is LifetimeExpired unless a reason was already set |
| BundleProtocols.DispatchingFirstRequest | libdtn-core/src/main/java/io/disruptedsystems/libdtn/core/processor/BundleProtocol.java:84-99 | the first request is delivery for a local destination, else routing when forwarding is on, else removal with the reason NoKnownRouteForDestination |
| BundleProtocols.ForwardingTags | libdtn-core/src/main/java/io/disruptedsystems/libdtn/core/processor/BundleProtocol.java:106-127 | dispatch-pending is gone; forward-pending remains iff custody was accepted, which is also the only outcome that leaves the bundle uncleared |
| BundleProtocols.TransmissionSource | libdtn-core/src/main/java/io/disruptedsystems/libdtn/core/processor/BundleProtocol.java:64-75 | a source that is one of the node's ids (and not dtn:none) becomes the node id, and routing is requested first |
| BundleProtocols.LocalDeliveryDelivered | libdtn-core/src/main/java/io/disruptedsystems/libdtn/core/processor/BundleProtocol.java:224-233 | a delivered bundle is cleared, without retention tags, and its in_storage tag is unchanged |
| BundleProtocols.LocalDeliveryUndelivered | libdtn-core/src/main/java/io/disruptedsystems/libdtn/core/processor/BundleProtocol.java:235-263 | an undelivered bundle is kept, uncleared and tagged delivery-pending and in_storage, iff it was in storage or storing it succeeded |
| BundleProtocols.ReceiveBlocksDeletes | libdtn-core/src/main/java/io/disruptedsystems/libdtn/core/processor/BundleProtocol.java:178-202 | the block loop asks for deletion iff some block triggers it |
| BundleProtocols.ReceiveBlocksDrops | libdtn-core/src/main/java/io/disruptedsystems/libdtn/core/processor/BundleProtocol.java:178-202 | without deletion, the block loop removes exactly one occurrence of each dropped block |
| BundleProtocols.ReceiveBlockDrops | libdtn-core/src/main/java/io/disruptedsystems/libdtn/core/processor/BundleProtocol.java:194-196 | one block: a dropped block loses one occurrence and any other leaves the blocks as they were |
| BundleProtocols.ReceptionDropsBlocks | libdtn-core/src/main/java/io/disruptedsystems/libdtn/core/processor/BundleProtocol.java:163-202 | on reception the bundle is deleted iff one of its blocks triggers it, and otherwise exactly the discardable blocks are removed |
| BundleProtocols.BundleProtocol.constructor | libdtn-core/src/main/java/io/disruptedsystems/libdtn/core/processor/BundleProtocol.java:54-56 | a new processor has made no request |
| BundleProtocols.BundleProtocol.CreateStatusReport | libdtn-core/src/main/java/io/disruptedsystems/libdtn/core/processor/BundleProtocol.java:313-370 | the bundle's new state is Report of its old state |
| BundleProtocols.BundleProtocol.EndProcessing | libdtn-core/src/main/java/io/disruptedsystems/libdtn/core/processor/BundleProtocol.java:300-311 | the loop sends every waiting report: the new state is ProcessingEnded of the old |
| BundleProtocols.BundleProtocol.BundleDiscarding | libdtn-core/src/main/java/io/disruptedsystems/libdtn/core/processor/BundleProtocol.java:291-298 | the new state is Discarding of the old |
| BundleProtocols.BundleProtocol.BundleDeletion | libdtn-core/src/main/java/io/disruptedsystems/libdtn/core/processor/BundleProtocol.java:271-289 | the new state is Deletion of the old |
| BundleProtocols.BundleProtocol.BundleForwardingSuccessful | libdtn-core/src/main/java/io/disruptedsystems/libdtn/core/processor/BundleProtocol.java:129-136 | the new state is ForwardingSuccessful of the old |
| BundleProtocols.BundleProtocol.BundleForwardingFailed | libdtn-core/src/main/java/io/disruptedsystems/libdtn/core/processor/BundleProtocol.java:138-153 | the new state is ForwardingFailed of the old |
| BundleProtocols.BundleProtocol.BundleForwarding | libdtn-core/src/main/java/io/disruptedsystems/libdtn/core/processor/BundleProtocol.java:102-127 | the new state is Forwarding of the old, for the routing engine's answer |
| BundleProtocols.BundleProtocol.BundleTransmission | libdtn-core/src/main/java/io/disruptedsystems/libdtn/core/processor/BundleProtocol.java:62-76 | the new state is Transmission of the old |
| BundleProtocols.BundleProtocol.BundleLocalDeliverySuccessful | libdtn-core/src/main/java/io/disruptedsystems/libdtn/core/processor/BundleProtocol.java:224-233 | the new state is LocalDeliverySuccessful of the old |
| BundleProtocols.BundleProtocol.BundleLocalDeliveryFailure | libdtn-core/src/main/java/io/disruptedsystems/libdtn/core/processor/BundleProtocol.java:235-263 | the new state is LocalDeliveryFailure of the old, for the storage's answer |
| BundleProtocols.BundleProtocol.BundleLocalDelivery | libdtn-core/src/main/java/io/disruptedsystems/libdtn/core/processor/BundleProtocol.java:209-222 | the new state is LocalDelivery of the old, for the registrar's answer |
| BundleProtocols.BundleProtocol.BundleDispatching | libdtn-core/src/main/java/io/disruptedsystems/libdtn/core/processor/BundleProtocol.java:78-100 | the new state is Dispatching of the old |
| BundleProtocols.BundleProtocol.BundleExpired | libdtn-core/src/main/java/io/disruptedsystems/libdtn/core/processor/BundleProtocol.java:155-161 | the new state is Expired of the old |
| BundleProtocols.BundleProtocol.ProcessBlock | libdtn-core/src/main/java/io/disruptedsystems/libdtn/core/processor/BundleProtocol.java:179-197 | one pass of the block loop: the new state and the deletion flag are ReceiveBlock's |
| BundleProtocols.BundleProtocol.ProcessBlocks | libdtn-core/src/main/java/io/disruptedsystems/libdtn/core/processor/BundleProtocol.java:178-202 | the block loop: the new state and the deletion flag are ReceiveBlocks' over the blocks as they were |
| BundleProtocols.BundleProtocol.BundleReception | libdtn-core/src/main/java/io/disruptedsystems/libdtn/core/processor/BundleProtocol.java:163-207 | the new state is Reception of the old |
| Bundles.Bundle.SetSource | libdtn-core/src/main/java/io/disruptedsystems/libdtn/core/processor/BundleProtocol.java:69 | only the source changes |
| Bundles.Bundle.DelBlock | libdtn-core/src/main/java/io/disruptedsystems/libdtn/core/processor/BundleProtocol.java:195 | the block list loses its first occurrence of the block; source and cleared state are kept |
| Bundles.Bundle.ClearBundle | libdtn-core/src/main/java/io/disruptedsystems/libdtn/core/processor/BundleProtocol.java:294-296 | the bundle is marked cleared and nothing else changes |
| LdcpRouters.CompletionOf | libldcp/src/main/java/io/disruptedsystems/ldcp/Router.java:38-48 | the Completable fails iff the prefix test threw or the chosen handler failed |
| LdcpRouters.Response.constructor | libldcp/src/main/java/io/disruptedsystems/ldcp/Router.java:44 | a response starts with the given code |
| LdcpRouters.Router.constructor | libldcp/src/main/java/io/disruptedsystems/ldcp/Router.java:18-24 | a new router has no route |
| LdcpRouters.Router.Get | libldcp/src/main/java/io/disruptedsystems/ldcp/Router.java:26-29 | the handler is registered under the path, replacing any earlier one |
| LdcpRouters.Router.Post | libldcp/src/main/java/io/disruptedsystems/ldcp/Router.java:31-34 | the same registry as GET, so POST and GET on one path overwrite each other |
| LdcpRouters.Router.Handle | libldcp/src/main/java/io/disruptedsystems/ldcp/Router.java:36-49 | a null request path throws iff there is a route to test; no route is found iff no registered path is a prefix of the request path, and then the code becomes ERROR and handling completes; otherwise some route whose path is a prefix runs and the code is left to it, and when exactly one path is a prefix it is that route |
| LdcpRouters.RegisterMatches | libldcp/src/main/java/io/disruptedsystems/ldcp/Router.java:26-34 | registering under a path makes it match exactly the requests it is a prefix of, and leaves the other paths' matches as they were |

## Left out

- The floating-point branches of the encoder are not modelled: `cbor_encode_double`, `cbor_encode_float`, `cbor_encode_half_float` and `halfPrecisionToRawIntBits`. `CborEncoder.Value` has no float case, so a Double or Float passed to `cbor_encode_object` is outside the model.
- `encode_string` with a null array would write a zero length and then throw NullPointerException. Strings here are sequences, so they are never null.
- The array branch of `cbor_encode_object` goes through `Array.get`. Here it shares `EncodeCollection`, so the model writes the same bytes for it.
- The encoder does not model the allocation of the buffer. `BufferOverflowException` leaves the buffer's position wherever the relative puts stopped, and the model states only that a proper prefix was written.
- `VolatileBlob.observe` and `moveToFile` use RxJava and the file system. `Observe` gives the bytes the duplicate buffer shows, and `moveToFile` is not modelled.
- `isFileBlob`, `getFilePath` and the `FileBlob` class are not modelled. `createFileBlob` takes the free space and whether the file could be created as parameters, and yields a `FileBlob` value naming the directory.
- `VolatileBlob(int)` with a negative size would throw IllegalArgumentException from `ByteBuffer.allocate`. The model takes a `nat`; the factory never asks for a negative size.
- `Eids.Uri` is a datatype of the components `java.net.URI` reports. Parsing, percent-quoting and `URI.create`'s exceptions are not modelled, and `WellFormed` states what the model relies on.
- Dtn.generate and DtnEid.generate draw a random UUID and are not modelled.
- The two- and three-argument `Dtn.create` skip the validity check. They are `NewDtnUri` with the missing parts absent.
- The overloads of `Cla.create`, `ClaStcp.create` and `ClaBows.create` that only fill in defaults are covered by the five- and four-argument forms.
- `getClaSchemeUnsafe`, `getClaParametersUnsafe` and `ClaBows.getWebsocketUrlUnsafe` are not modelled. The stcp Unsafe getters are.
- `ClaBows.getWebsocketUrl` and `decode` end with `new URI(...)` on the decoded text. The model returns the decoded ASCII bytes and does not parse them as a URI.
- `ClaBows.encode` takes `URI.toASCIIString().getBytes()`. The model takes those bytes as its input.
- `BaseEid.checkValidity`, which the `BaseDtnEid` constructor calls, is not part of this model. Neither are `ianaNumber` and `getScheme`, which are constants.
- The registrar's random cookie (a UUID) is a parameter of `Register`.
- `Registrars.Registrar.DeliverBundle` answers with the active callback the bundle is handed to. What the callback then does is not modelled, so the DeliveryRefused failure of a callback that errs is left out.
- `Registrar.send`, `replaceApiMe`, `checkInbox`, `get`, `fetch` and `printTable` are not modelled. They are stubs or I/O.
- `unregister` and `checkRegisteredSink` look the eid up as given, while `register` keys the table by the endpoint. The model keeps this difference as written.
- RxJava `Single`, `Completable` and `Observable` results are `Result` values.
- The storage's event bus, its logger and the asynchronous order of completions are not modelled.
- `SimpleStorage.create` takes the configured path and whether it is a writable directory as parameters.
- `Eid.getEndpoint` is a parameter `endpoint` of the registrar. The routing table compares eids with `equals`, which is equality of `Eids.Uri` values.
- The local eid table that `isEidLocal` consults is the `lookUp` parameter of the bundle processor. The processor's sources use two forms of its answer: `bundleDispatching` compares a `LookUpResult` with `eidIsNotLocal`, while `bundleForwardingFailed` compares the answer with null, as `LocalEidTable.isEidLocal` returns a nullable `LocalEid`. `EidIsNotLocal` stands for both, and `Bundles.LookUpOf` reads the nullable answer as a lookup result.
- `resolveEid` and `reverseCla` are modelled on sets: the order in which the Java observables emit is not.
- The routing functions use the corrected `Eids.IsClaEid`. The NullPointerException that `isClaEid` as written would throw on dtn:none is not carried into routing.
- The concrete table of `RoutingTableTest` is not reproduced as a lemma. The half of that test about `resolveEid` and a routing loop is `RoutingTables.ResolveEidIgnoresLoop`. The half about `reverseCla` is not proved.
- Routing strategies, their asynchronous answers and `forwardLater` are parameters (`RouteOutcome`).
- `RoutingEngines.RoutingEngine.Route`: the direct strategy's result is a parameter.
- `Bundle.java` is not part of this model. `Bundles.Bundle` holds only the fields the processor reads and writes: source, destination, report-to, flags, blocks and tags.
- The values of the `TAG_*` string constants are not part of this model; only their distinctness matters.
- The bundle processor's calls to other components are recorded as actions: the routing engine, registrar delivery, storage, the event listener, and sending a report.
- The processor's `deliverLater` is a stub and is recorded as an action.
- A status report is recorded as a `ReportSent` action and is not dispatched recursively as a new bundle.
- A status-reports attachment that is not a list reads as no reports. The source would throw ClassCastException there.
- Whether a block processor fails is the parameter `Node.processingFails`. The set of block processors is not tied to `ExtensionManagers.ExtensionManager`, and the base block factory's types are a parameter.
- On reception, blocks are iterated over the list taken before the loop. If `getBlocks` returns the live list, `delBlock` inside the loop could throw ConcurrentModificationException in the source.
- The handlers of `LdcpRouters.Router` are values whose outcome is given. Their effects on the response are not modelled, and the router ignores null keys.
- The logger calls throughout are left out.
- The CBOR constants of `CborEncoder` (major types, additional-information values, simple values) take the values of RFC 8949, sections 3 and 3.3. The source's `Constants` file is not part of this model.
- `HopCount.HopCountBlock.HopsToLive` returns the corrected `HopsToLiveIntended`, which saturates, not the wrapping long difference of the source. The two agree for every count that is not negative (`HopCount.HopsToLiveAgree`), and `HopCount.HopsToLiveWraps` shows the count where they differ.
- `RoutingTables.RoutingTable.SetEnabled` takes the current configuration values as parameters; the later changes that `componentUp`'s subscriptions would apply are `SetStaticEnabled` and `SetStaticRoutes`.

## Findings

| source | as written | input that shows it | evidently intended | confidence | as-written member | corrected member |
|---|---|---|---|---|---|---|
| libdtn/src/main/java/io/left/rightmesh/libdtn/data/bundleV7/cbor/Encoder.java:142-149 | a negative length goes through encode_number(mt, 31), and 31 is not below 24, so it takes the one-byte-argument branch | cbor_start_array(-1) writes 0x98 0x1f, a definite array of 31 items | the one-byte indefinite-length head mt or 31, e.g. 0x9f (section 3.2.1 of RFC 8949); the same applies to start_map, start_byte_string and start_text_string | high, not executed | CborEncoder.ContainerHeadIndefiniteAsWritten | CborEncoder.ContainerHeadIntendedRoundTrip |
| libdtn/src/main/java/io/left/rightmesh/libdtn/data/bundleV7/cbor/Encoder.java:357-361 | the simple value is a signed Java byte, sign-extended to a long, so every value from 128 up is negative and takes the "below 24" branch | cbor_encode_simple_value((byte)200) writes 0xe8, which is simple value 8 | simple value 200 as 0xf8 0xc8, the value read as unsigned; 24 refused like 25 to 31, since section 3.3 of RFC 8949 makes a value below 32 in the extra byte not well-formed | high, not executed | CborEncoder.SimpleValueAsWritten | CborEncoder.SimpleValueIntendedRoundTrip |
| libdtn/src/main/java/io/left/rightmesh/libdtn/data/bundleV7/cbor/Encoder.java:386-389 | encode_number compares the long signed, so an unsigned argument of 2^63 or more is negative and is written in the initial byte | cbor_encode_uint(-1), meant as 2^64 - 1, writes 0xff, the break code | additional information 27 and the eight bytes of the long, read back as its value modulo 2^64 | medium (callers may never pass such values), not executed | CborEncoder.UintAsWritten | CborEncoder.NumberBytesUnsignedRoundTrip |
| libdtn-common/src/main/java/io/disruptedsystems/libdtn/common/data/eid/Api.java:16-30 | isApiEid catches only InvalidApiEid and InvalidDtnEid, but getAuthority() of dtn:none is null and equals() on it throws NullPointerException | isApiEid(dtn:none) throws instead of answering false | false for every eid without an authority | high, not executed | Eids.IsApiEidNullEid | Eids.IsApiEidAgrees |
| libdtn-common/src/main/java/io/disruptedsystems/libdtn/common/data/eid/Cla.java:20-40 | isClaEid calls getAuthority().startsWith with a null authority for dtn:none | isClaEid(dtn:none) throws NullPointerException | false for every eid without an authority | high, not executed | Eids.IsClaEidNullEid | Eids.IsClaEidAgrees |
| libdtn-common/src/main/java/io/disruptedsystems/libdtn/common/data/blob/VolatileBlob.java:160-172 | the loop stops once the room is used up and throws without reading on to see whether the stream had ended | a stream of exactly as many bytes as the room is written in full and then reported as "capacity exceeded" | the byte count, since all of the stream fitted | medium (the failure may be meant as "possibly more"), not executed | VolatileBlobs.StreamExactFillAsWritten | VolatileBlobs.WritableBlob.WriteStreamIntended |
| libdtn-common/src/main/java/io/disruptedsystems/libdtn/common/data/HopCountBlock.java:28-30 | limit - count is a long subtraction, and the count is never checked to be non-negative | count -1 and limit 2^63 - 1 give hops to live -2^63 | hops to live never negative | low (a negative count needs a malformed block), not executed | HopCount.HopsToLiveWraps | HopCount.HopsToLiveIntended |
| modules/cla/libdtn-module-stcp/src/main/java/io/disruptedsystems/libdtn/module/cla/stcp/ClaStcp.java:26-43 | Matcher.reset(null) throws NullPointerException, which isClaStcpEid does not catch, when a cla eid has no parameters | isClaStcpEid("dtn://@stcp/") throws instead of answering false | false for a cla eid without parameters | high, not executed | ClaStcp.IsClaStcpEidNoParameters | ClaStcp.IsClaStcpEidAgrees |
| modules/cla/libdtn-module-bows/src/main/java/io/disruptedsystems/libdtn/module/cla/bows/ClaBows.java:28-45 | the same uncaught NullPointerException from Matcher.reset(null) | isClaBowsEid("dtn://@bows/") throws | false for a cla eid without parameters | high, not executed | ClaBows.IsClaBowsEidNoParameters | ClaBows.IsClaBowsEidAgrees |
| libdtn-core/src/main/java/io/disruptedsystems/libdtn/core/storage/simple/VolatileStorage.java:44-46 | get on a bid that is not indexed fails with BundleAlreadyExistsException | get of any absent bid reports the same error as storing a duplicate | BundleNotFoundException, distinct from the duplicate error | high, not executed | Storages.GetMissReadsAsDuplicate | Storages.VolatileStorage.Get |
