/** Frames as bytes on the wire: whatever a bridge writes, in whatever chunks it arrives, is what a consumer plays. */
module Wire {
  import opened Base
  import opened Protocol
  import opened Framing
  import opened Remote

  /** The JSON writer behind a frame; its output format is not part of this model. */
  type JsonWriter = Frame -> Bytes

  /** to_line: a valid frame that fits becomes one line. */
  function ToLine(writer: JsonWriter, frame: Frame): Result<Bytes, ProtocolError> {
    if !ValidFrame(frame) then Err(InvalidFrameInvariant(FrameInvariantName(frame)))
    else
      var bytes := writer(frame);
      if |bytes| > MAX_FRAME_BYTES then Err(FrameTooLarge(|bytes|)) else Ok(bytes + [LF])
  }

  /** JSON text is never empty and holds no raw line break, and the reader understands what the writer wrote. */
  ghost predicate Understands(json: JsonReader, writer: JsonWriter, frame: Frame) {
    var bytes := writer(frame);
    bytes != [] && LF !in bytes && CR !in bytes && json(bytes) == Ok(Known(frame))
  }

  ghost predicate Sendable(json: JsonReader, writer: JsonWriter, frames: seq<Frame>) {
    forall f :: f in frames ==> Understands(json, writer, f) && ToLine(writer, f).Ok?
  }

  /** Everything written to standard output for these frames. */
  function Written(writer: JsonWriter, frames: seq<Frame>): Bytes
    requires forall f :: f in frames ==> ToLine(writer, f).Ok?
  {
    if frames == [] then []
    else Written(writer, frames[..|frames| - 1]) + ToLine(writer, frames[|frames| - 1]).value
  }

  function AllKnown(frames: seq<Frame>): seq<Parsed> {
    seq(|frames|, i requires 0 <= i < |frames| => Known(frames[i]))
  }

  /** A frame is written exactly when the reading side would take its line, and reading what was written gives it back. */
  lemma LineRoundTrip(json: JsonReader, writer: JsonWriter, frame: Frame)
    requires Understands(json, writer, frame)
    ensures ToLine(writer, frame).Ok? <==> ParseFrameLine(json, writer(frame) + [10]).Ok?
    ensures ToLine(writer, frame).Ok? ==>
              && ToLine(writer, frame).value == writer(frame) + [10] && Fits(writer(frame))
              && ParseFrameLine(json, ToLine(writer, frame).value) == Ok(Known(frame))
  {
    var bytes := writer(frame);
    var input := bytes + [LF];
    assert bytes[|bytes| - 1] in bytes;
    assert input[|input| - 1] == LF && input[|input| - 2] == bytes[|bytes| - 1] != CR;
    assert StripLineEnd(input) == input[..|input| - 1] == bytes;
  }

  /** Bytes without a line feed just fill the buffer, as long as they fit. */
  lemma {:induction false} DecodePartOfLine(json: JsonReader, bytes: Bytes)
    requires LF !in bytes && CR !in bytes && |bytes| <= MAX_FRAME_BYTES
    ensures Decode(json, [], bytes) == Decoded(Ok([]), bytes)
  {
    if bytes != [] {
      var m := |bytes| - 1;
      assert bytes[m] in bytes && forall b :: b in bytes[..m] ==> b in bytes;
      DecodePartOfLine(json, bytes[..m]);
      assert bytes[..m] + [bytes[m]] == bytes;
    }
  }

  lemma DecodeLine(json: JsonReader, writer: JsonWriter, frame: Frame)
    requires Understands(json, writer, frame) && ToLine(writer, frame).Ok?
    ensures Decode(json, [], ToLine(writer, frame).value) == Decoded(Ok([Known(frame)]), [])
  {
    hide ParseFrameLine, Fits;
    var bytes := writer(frame);
    LineRoundTrip(json, writer, frame);
    DecodePartOfLine(json, bytes);
    assert (bytes + [LF])[..|bytes|] == bytes;
    assert [] + [Known(frame)] == [Known(frame)];
  }

  lemma {:induction false} DecodeWritten(json: JsonReader, writer: JsonWriter, frames: seq<Frame>)
    requires Sendable(json, writer, frames)
    ensures Decode(json, [], Written(writer, frames)) == Decoded(Ok(AllKnown(frames)), [])
  {
    hide Decode, ToLine, Understands;
    if frames == [] {
      DecodeNothing(json, []);
      assert AllKnown(frames) == [];
    } else {
      var m := |frames| - 1;
      assert frames[m] in frames && forall f :: f in frames[..m] ==> f in frames;
      DecodeWritten(json, writer, frames[..m]);
      DecodeLine(json, writer, frames[m]);
      DecodeSplits(json, [], Written(writer, frames[..m]), ToLine(writer, frames[m]).value);
      assert AllKnown(frames) == AllKnown(frames[..m]) + [Known(frames[m])];
    }
  }

  /** One push per chunk into a consumer; the first refusal ends the stream. */
  function FeedChunks(json: JsonReader, f: Feed, chunks: seq<Bytes>, receivedAt: int, sizeOf: Sizer): Feed {
    if chunks == [] then f
    else FeedChunk(json, FeedChunks(json, f, chunks[..|chunks| - 1], receivedAt, sizeOf), chunks[|chunks| - 1], receivedAt, sizeOf)
  }

  lemma {:induction false} FeedAppend(json: JsonReader, f: Feed, left: Bytes, right: Bytes, receivedAt: int, sizeOf: Sizer)
    ensures FeedChunk(json, f, left + right, receivedAt, sizeOf)
         == FeedChunk(json, FeedChunk(json, f, left, receivedAt, sizeOf), right, receivedAt, sizeOf)
  {
    hide FeedByte;
    if right == [] {
      assert left + right == left;
    } else {
      var m := |right| - 1;
      assert (left + right)[..|left| + m] == left + right[..m];
      FeedAppend(json, f, left, right[..m], receivedAt, sizeOf);
    }
  }

  lemma {:induction false} FeedIgnoresChunks(json: JsonReader, f: Feed, chunks: seq<Bytes>, receivedAt: int, sizeOf: Sizer)
    ensures FeedChunks(json, f, chunks, receivedAt, sizeOf) == FeedChunk(json, f, Concat(chunks), receivedAt, sizeOf)
  {
    hide FeedByte;
    if chunks != [] {
      var m := |chunks| - 1;
      FeedIgnoresChunks(json, f, chunks[..m], receivedAt, sizeOf);
      FeedAppend(json, f, Concat(chunks[..m]), chunks[m], receivedAt, sizeOf);
    }
  }

  /**
   * The wire is transparent: the bytes of a stream, cut into any chunks, do to a consumer exactly what its frames do
   * one by one, with the same report or the same error.
   */
  lemma WireIsTransparent(json: JsonReader, writer: JsonWriter, frames: seq<Frame>, chunks: seq<Bytes>, c: Consumer,
                          receivedAt: int, sizeOf: Sizer)
    requires Sendable(json, writer, frames) && Concat(chunks) == Written(writer, frames)
    ensures var fed := FeedChunks(json, Feed(c, [], Ok(EMPTY_REPORT)), chunks, receivedAt, sizeOf);
            var r := ConsumeAll(c, AllKnown(frames), receivedAt, sizeOf);
            fed.consumer == r.after && fed.result == r.result && (r.result.Ok? ==> fed.buffer == [])
  {
    hide Decode, Consume, FeedChunk, FeedChunks, ConsumeAll;
    FeedIgnoresChunks(json, Feed(c, [], Ok(EMPTY_REPORT)), chunks, receivedAt, sizeOf);
    DecodeWritten(json, writer, frames);
    FeedConsumesDecodedFrames(json, c, [], Written(writer, frames), receivedAt, sizeOf);
  }
}

/** From one spool to two databases: over the wire in any chunks, or read directly. */
module EndToEnd {
  import opened Base
  import opened Protocol
  import opened Framing
  import opened Spools
  import opened Bridge
  import opened Tables
  import opened Erasures
  import opened Remote
  import opened Pipeline
  import opened Agreement
  import opened Wire

  lemma MergeAssociates(a: Report, b: Report, c: Report)
    ensures Merge(Merge(a, b), c) == Merge(a, Merge(b, c))
  {
  }

  lemma {:induction false} ConsumeSplit(c: Consumer, left: seq<Parsed>, right: seq<Parsed>, at: int, sizeOf: Sizer)
    ensures var first := ConsumeAll(c, left, at, sizeOf);
            ConsumeAll(c, left + right, at, sizeOf)
            == if first.result.Err? then first
               else
                 var second := ConsumeAll(first.after, right, at, sizeOf);
                 if second.result.Err? then second
                 else Consumed(second.after, Ok(Merge(first.result.value, second.result.value)))
    decreases |right|
  {
    hide Consume, Merge;
    var first := ConsumeAll(c, left, at, sizeOf);
    if right == [] {
      assert left + right == left;
      MergeEmpty(first.result);
    } else {
      var m := |right| - 1;
      assert left + right == (left + right[..m]) + [right[m]];
      assert right == right[..m] + [right[m]];
      ConsumeSplit(c, left, right[..m], at, sizeOf);
      ConsumeOneMore(c, left + right[..m], [right[m]], at, sizeOf);
      if first.result.Ok? {
        ConsumeOneMore(first.after, right[..m], [right[m]], at, sizeOf);
        var second := ConsumeAll(first.after, right[..m], at, sizeOf);
        if second.result.Ok? {
          var third := ConsumeAll(second.after, [right[m]], at, sizeOf);
          if third.result.Ok? {
            MergeAssociates(first.result.value, second.result.value, third.result.value);
          }
        }
      }
    }
  }

  /** Frames received at one time: playing them is consuming them in order. */
  lemma {:induction false} PlayIsConsumeAll(c: Consumer, received: seq<Received>, at: int, sizeOf: Sizer)
    requires forall r :: r in received ==> r.at == at
    ensures Play(c, received, sizeOf) == ConsumeAll(c, AllKnown(Frames(received)), at, sizeOf)
    decreases |received|
  {
    hide Consume, Merge;
    var parsed := AllKnown(Frames(received));
    if received != [] {
      assert received[0] in received && forall r :: r in received[1..] ==> r in received;
      assert parsed == [parsed[0]] + AllKnown(Frames(received[1..]));
      ConsumeSplit(c, [parsed[0]], AllKnown(Frames(received[1..])), at, sizeOf);
      ConsumeSingle(c, [parsed[0]], at, sizeOf);
      var first := Consume(c, parsed[0], at, sizeOf);
      PlayIsConsumeAll(first.after, received[1..], at, sizeOf);
    } else {
      assert parsed == [];
    }
  }

  function ReceivedTogether(frames: seq<Frame>, at: int): seq<Received> {
    seq(|frames|, i requires 0 <= i < |frames| => Received(frames[i], at))
  }

  /**
   * The bytes a bridge writes for a quiet spool with no hole ahead, cut into any chunks and pushed into a fresh
   * consumer, leave the database as direct ingestion of that spool leaves it, up to the stripped metadata.
   */
  lemma BytesAgreeWithDirectIngestion(json: JsonReader, writer: JsonWriter, chunks: seq<Bytes>, db: Db, key: string,
                                      localLabel: string, s: SpoolState, startedAt: int, at: int, sizeOf: Sizer)
    requires ValidSpool(s) && Ready(db, key, s) && NoHoleAhead(s, OpeningCursor(db, key))
    requires OpenConsumer(db, key, localLabel, startedAt).Ok?
    requires Sendable(json, writer, QuietStream(s, OpeningCursor(db, key)))
    requires Concat(chunks) == Written(writer, QuietStream(s, OpeningCursor(db, key)))
    ensures var opening := OpenConsumer(db, key, localLabel, startedAt).value;
            var fed := FeedChunks(json, Feed(opening, [], Ok(EMPTY_REPORT)), chunks, at, sizeOf);
            var direct := IngestSpool(s, db, key, localLabel, at, sizeOf);
            && Alike(METADATA_ASIDE, fed.consumer.db, direct.db)
            && SameOutcome(fed.result, direct.result)
  {
    hide ValidSpool, Sound, Ready, NoHoleAhead, QuietStream, Sendable, Shape, Play, ConsumeAll, FeedChunks, IngestSpool, OpeningCursor;
    var opening := OpenConsumer(db, key, localLabel, startedAt).value;
    var frames := QuietStream(s, OpeningCursor(db, key));
    var received := ReceivedTogether(frames, at);
    assert Frames(received) == frames;
    WireIsTransparent(json, writer, frames, chunks, opening, at, sizeOf);
    PlayIsConsumeAll(opening, received, at, sizeOf);
    TwoPathsAgree(db, key, localLabel, s, startedAt, received, at, sizeOf);
  }
}
