/** Splitting a byte stream into bounded lines, independently of how the stream is cut into chunks. */
module Framing {
  import opened Base
  import opened Protocol

  type Bytes = seq<Byte>

  /** The strict JSON reader behind a line; its grammar is not part of this model. */
  type JsonReader = Bytes -> Result<Parsed, ProtocolError>

  function StripLineEnd(input: Bytes): Bytes {
    var n := |input|;
    if n >= 2 && input[n - 2] == CR && input[n - 1] == LF then input[..n - 2]
    else if n >= 1 && input[n - 1] == LF then input[..n - 1]
    else input
  }

  function ParseFrameLine(json: JsonReader, input: Bytes): Result<Parsed, ProtocolError> {
    var line := StripLineEnd(input);
    if line == [] then Err(EmptyFrame)
    else if |line| > MAX_FRAME_BYTES then Err(FrameTooLarge(|line|))
    else if LF in line || CR in line then Err(EmbeddedLineBreak)
    else
      var parsed := json(line);
      if parsed.Ok? && parsed.value.Known? && !ValidFrame(parsed.value.frame)
      then Err(InvalidFrameInvariant(FrameInvariantName(parsed.value.frame)))
      else parsed
  }

  /** The buffer may hold this much of a line: the limit, or one more byte that may prove to be CR LF's CR. */
  predicate Fits(buffer: Bytes) {
    |buffer| <= MAX_FRAME_BYTES || (|buffer| == MAX_FRAME_BYTES + 1 && buffer[|buffer| - 1] == CR)
  }

  /** The outcome of offering bytes to a decoder: frames or an error, and the buffer left behind. */
  datatype Decoded = Decoded(frames: Result<seq<Parsed>, ProtocolError>, buffer: Bytes)

  function DecodeByte(json: JsonReader, before: Decoded, byte: Byte): Decoded {
    if before.frames.Err? then before
    else if byte == LF then
      match ParseFrameLine(json, before.buffer + [LF])
      case Ok(frame) => Decoded(Ok(before.frames.value + [frame]), [])
      case Err(e) => Decoded(Err(e), [])
    else
      var buffer := before.buffer + [byte];
      if Fits(buffer) then Decoded(before.frames, buffer)
      else Decoded(Err(FrameTooLarge(|buffer|)), buffer)
  }

  function Decode(json: JsonReader, buffer: Bytes, chunk: Bytes): Decoded {
    if chunk == [] then Decoded(Ok([]), buffer)
    else DecodeByte(json, Decode(json, buffer, chunk[..|chunk| - 1]), chunk[|chunk| - 1])
  }

  /** One push per chunk; a failing push ends the stream. */
  function DecodeChunks(json: JsonReader, buffer: Bytes, chunks: seq<Bytes>): Decoded {
    if chunks == [] then Decoded(Ok([]), buffer)
    else
      var before := DecodeChunks(json, buffer, chunks[..|chunks| - 1]);
      if before.frames.Err? then before
      else
        var last := Decode(json, before.buffer, chunks[|chunks| - 1]);
        if last.frames.Err? then last
        else Decoded(Ok(before.frames.value + last.frames.value), last.buffer)
  }

  function Concat(chunks: seq<Bytes>): Bytes {
    if chunks == [] then [] else Concat(chunks[..|chunks| - 1]) + chunks[|chunks| - 1]
  }

  lemma {:induction false} DecodeSplits(json: JsonReader, buffer: Bytes, left: Bytes, right: Bytes)
    ensures var first := Decode(json, buffer, left);
            Decode(json, buffer, left + right)
            == if first.frames.Err? then first
               else
                 var second := Decode(json, first.buffer, right);
                 if second.frames.Err? then second
                 else Decoded(Ok(first.frames.value + second.frames.value), second.buffer)
  {
    if right == [] {
      assert left + right == left;
      var first := Decode(json, buffer, left);
      if first.frames.Ok? {
        assert first.frames.value + [] == first.frames.value;
      }
    } else {
      var m := |right| - 1;
      assert (left + right)[..|left| + m] == left + right[..m];
      DecodeSplits(json, buffer, left, right[..m]);
      var first := Decode(json, buffer, left);
      if first.frames.Ok? {
        var mid := Decode(json, first.buffer, right[..m]);
        if mid.frames.Ok? && right[m] == LF && ParseFrameLine(json, mid.buffer + [LF]).Ok? {
          var frame := ParseFrameLine(json, mid.buffer + [LF]).value;
          assert (first.frames.value + mid.frames.value) + [frame]
              == first.frames.value + (mid.frames.value + [frame]);
        }
      }
    }
  }

  /** Chunking does not matter: any cut of a stream yields what the uncut stream yields. */
  lemma {:induction false} ChunkingDoesNotMatter(json: JsonReader, buffer: Bytes, chunks: seq<Bytes>)
    ensures DecodeChunks(json, buffer, chunks) == Decode(json, buffer, Concat(chunks))
  {
    if chunks != [] {
      var m := |chunks| - 1;
      ChunkingDoesNotMatter(json, buffer, chunks[..m]);
      DecodeSplits(json, buffer, Concat(chunks[..m]), chunks[m]);
    }
  }

  datatype Split = Split(lines: seq<Bytes>, tail: Bytes)

  /** The LF-terminated lines of a stream, without their LF, and the unterminated rest. */
  function SplitLines(stream: Bytes): Split {
    if stream == [] then Split([], [])
    else
      var before := SplitLines(stream[..|stream| - 1]);
      var byte := stream[|stream| - 1];
      if byte == LF then Split(before.lines + [before.tail], [])
      else Split(before.lines, before.tail + [byte])
  }

  function JoinLines(split: Split): Bytes
    decreases |split.lines|
  {
    if split.lines == [] then split.tail
    else
      var m := |split.lines| - 1;
      JoinLines(Split(split.lines[..m], split.lines[m])) + [LF] + split.tail
  }

  /** SplitLines loses nothing and never leaves an LF inside a line. */
  lemma {:induction false} SplitLinesIsFaithful(stream: Bytes)
    ensures JoinLines(SplitLines(stream)) == stream
    ensures (10 as Byte) !in SplitLines(stream).tail
    ensures forall line :: line in SplitLines(stream).lines ==> (10 as Byte) !in line
    decreases |stream|
  {
    if stream != [] {
      var m := |stream| - 1;
      SplitLinesIsFaithful(stream[..m]);
      var before := SplitLines(stream[..m]);
      if stream[m] == LF {
        var lines := before.lines + [before.tail];
        assert lines[..|before.lines|] == before.lines;
      } else {
        JoinLinesTail(before, stream[m]);
      }
    }
  }

  lemma JoinLinesTail(split: Split, byte: Byte)
    ensures JoinLines(Split(split.lines, split.tail + [byte])) == JoinLines(split) + [byte]
  {
    if split.lines != [] {
      var m := |split.lines| - 1;
      var front := JoinLines(Split(split.lines[..m], split.lines[m]));
      assert front + [LF] + (split.tail + [byte]) == (front + [LF] + split.tail) + [byte];
    }
  }

  function ParseAll(json: JsonReader, lines: seq<Bytes>): Result<seq<Parsed>, ProtocolError> {
    if lines == [] then Ok([])
    else
      var before := ParseAll(json, lines[..|lines| - 1]);
      if before.Err? then before
      else
        match ParseFrameLine(json, lines[|lines| - 1] + [LF])
        case Ok(frame) => Ok(before.value + [frame])
        case Err(e) => Err(e)
  }

  /** The early limit is exact: it admits a line iff the line parser would not call it too large. */
  lemma EarlyLimitIsExact(json: JsonReader, line: Bytes)
    ensures Fits(line) <==> |StripLineEnd(line + [LF])| <= 131_072
    ensures ParseFrameLine(json, line + [LF]).Ok? ==> Fits(line)
  {
    var input := line + [LF];
    if line != [] && line[|line| - 1] == CR {
      assert input[|input| - 2] == CR;
    }
  }

  /** A line without its line end, of the form a sender gives it. */
  ghost predicate LineOf(input: Bytes, line: Bytes) {
    (input == line + [10] && (line == [] || line[|line| - 1] != 13)) || input == line + [13, 10]
    || (input == line && (line == [] || line[|line| - 1] != 10))
  }

  /** An input is a line in one way only, the stripped one. */
  lemma LineIsStripped(input: Bytes, line: Bytes)
    ensures LineOf(input, line) <==> line == StripLineEnd(input)
  {
    var stripped := StripLineEnd(input);
    assert input == stripped + [10] || input == stripped + [13, 10] || input == stripped;
    if input == line + [13, 10] {
      assert input[|input| - 2] == 13 && input[..|input| - 2] == line;
    } else if input == line + [10] {
      assert input[..|input| - 1] == line;
    }
  }

  /**
   * A line yields a frame exactly when, its line end aside, it is not empty, holds at most 131,072 bytes and no line
   * break, the reader understands it, and the frame keeps its own rules; a refusal names the first of these that fails.
   */
  lemma LineIsParsedIff(json: JsonReader, input: Bytes, line: Bytes)
    requires LineOf(input, line)
    ensures ParseFrameLine(json, input)
         == if line == [] then Err(EmptyFrame)
            else if |line| > 131_072 then Err(FrameTooLarge(|line|))
            else if (10 as Byte) in line || (13 as Byte) in line then Err(EmbeddedLineBreak)
            else if json(line).Err? then json(line)
            else if json(line).value.Known? && !WellFormed(json(line).value.frame)
            then Err(InvalidFrameInvariant(FrameInvariantName(json(line).value.frame)))
            else json(line)
  {
    LineIsStripped(input, line);
    if json(line).Ok? && json(line).value.Known? { ValidIffWellFormed(json(line).value.frame); }
  }

  /** A decoder succeeds iff every line parses and the tail may still grow into one; it then yields them in order. */
  lemma {:induction false} DecodeIsLineByLine(json: JsonReader, stream: Bytes)
    ensures var decoded, split := Decode(json, [], stream), SplitLines(stream);
            && (decoded.frames.Ok? <==> ParseAll(json, split.lines).Ok? && Fits(split.tail))
            && (decoded.frames.Ok? ==>
                  decoded.frames == ParseAll(json, split.lines) && decoded.buffer == split.tail)
    ensures Decode(json, [], stream).frames.Ok? ==> |Decode(json, [], stream).buffer| <= 131_073
  {
    if stream != [] {
      var m := |stream| - 1;
      DecodeIsLineByLine(json, stream[..m]);
      var before := SplitLines(stream[..m]);
      if stream[m] == LF {
        EarlyLimitIsExact(json, before.tail);
        var lines := before.lines + [before.tail];
        assert lines[..|before.lines|] == before.lines;
      } else {
        var tail := before.tail + [stream[m]];
        if Fits(tail) {
          assert Fits(before.tail);
        }
      }
    }
  }

  /** Two ways of cutting the same stream agree on success, frames, error and leftover bytes. */
  lemma AnyTwoChunkingsAgree(json: JsonReader, chunks: seq<Bytes>, others: seq<Bytes>)
    requires Concat(chunks) == Concat(others)
    ensures DecodeChunks(json, [], chunks) == DecodeChunks(json, [], others)
    ensures var decoded, split := DecodeChunks(json, [], chunks), SplitLines(Concat(chunks));
            decoded.frames.Ok? ==> decoded == Decoded(ParseAll(json, split.lines), split.tail)
  {
    ChunkingDoesNotMatter(json, [], chunks);
    ChunkingDoesNotMatter(json, [], others);
    DecodeIsLineByLine(json, Concat(chunks));
  }

  /** After a stream the decoder accepted, end of input is clean exactly when its last line was terminated. */
  lemma CleanEndIffTerminated(json: JsonReader, chunks: seq<Bytes>)
    requires DecodeChunks(json, [], chunks).frames.Ok?
    ensures var stream := Concat(chunks);
            DecodeChunks(json, [], chunks).buffer == [] <==> stream == [] || stream[|stream| - 1] == LF
  {
    hide DecodeChunks, ParseAll, Concat;
    AnyTwoChunkingsAgree(json, chunks, chunks);
  }

  class FrameDecoder {
    const json: JsonReader
    var buffer: Bytes

    constructor (json: JsonReader)
      ensures this.json == json && buffer == []
    {
      this.json := json;
      buffer := [];
    }

    method Push(chunk: Bytes) returns (result: Result<seq<Parsed>, ProtocolError>)
      modifies this
      ensures Decoded(result, buffer) == Decode(json, old(buffer), chunk)
    {
      var frames: seq<Parsed> := [];
      for i := 0 to |chunk|
        invariant Decode(json, old(buffer), chunk[..i]) == Decoded(Ok(frames), buffer)
      {
        assert chunk[..i + 1][..i] == chunk[..i];
        var byte := chunk[i];
        ghost var step := DecodeByte(json, Decoded(Ok(frames), buffer), byte);
        assert Decode(json, old(buffer), chunk[..i + 1]) == step;
        if step.frames.Err? {
          DecodeStopsAtError(json, old(buffer), chunk[..i + 1], chunk[i + 1..]);
          assert chunk[..i + 1] + chunk[i + 1..] == chunk;
        }
        if byte == LF {
          var line := buffer + [LF];
          buffer := [];
          var parsed := ParseFrameLine(json, line);
          if parsed.Err? {
            return Err(parsed.error);
          }
          frames := frames + [parsed.value];
          continue;
        }
        buffer := buffer + [byte];
        var delimiterCr := |buffer| == MAX_FRAME_BYTES + 1 && buffer[|buffer| - 1] == CR;
        if |buffer| > MAX_FRAME_BYTES && !delimiterCr {
          return Err(FrameTooLarge(|buffer|));
        }
      }
      assert chunk[..|chunk|] == chunk;
      return Ok(frames);
    }

    /** End of input is clean exactly at a frame boundary. */
    method Finish() returns (error: Option<ProtocolError>)
      ensures error == None <==> buffer == []
      ensures error.Some? ==> error.value == UnterminatedFrame(|buffer|)
    {
      return if buffer == [] then None else Some(UnterminatedFrame(|buffer|));
    }
  }

  lemma DecodeStopsAtError(json: JsonReader, buffer: Bytes, left: Bytes, right: Bytes)
    requires Decode(json, buffer, left).frames.Err?
    ensures Decode(json, buffer, left + right) == Decode(json, buffer, left)
  {
    DecodeSplits(json, buffer, left, right);
  }
}
