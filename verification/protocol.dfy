/** The bridge wire protocol: frames, the stream validator and the incremental line decoder. */
module Protocol {
  import opened Base
  import opened Events

  const PROTOCOL_VERSION := 1
  const MAX_FRAME_BYTES := 131072
  const LF: Byte := 10
  const CR: Byte := 13

  newtype Byte = x: int | 0 <= x < 256

  datatype Frame =
    | Hello(protocolVersion: int, sourceId: Uuid, oldest: Option<int>, latest: int)
    | EventFrame(sequence: int, event: Event)
    | Heartbeat
    | Gap(requestedAfter: int, oldest: Option<int>, lostThrough: int)
    | ErrorFrame(code: string, message: string)

  datatype Parsed = Known(frame: Frame) | Unknown(frameType: string)

  datatype ProtocolError =
    | EmptyFrame
    | FrameTooLarge(actual: int)
    | EmbeddedLineBreak
    | BadJson(reason: string)
    | UnterminatedFrame(buffered: int)
    | InvalidFrameInvariant(what: string)
    | InvalidInitialCursor(after: int)
    | ProtocolVersionMismatch(wanted: int, got: int)
    | SourceIdentityMismatch(wantedSource: Uuid, gotSource: Uuid)
    | FrameBeforeHello
    | FrameAfterTerminal
    | DuplicateHello
    | RequiredGapMissing(lostThrough: int)
    | RequiredGapMismatch(wanted: int, got: int)
    | GapCursorMismatch(wanted: int, got: int)
    | SequenceDiscontinuity(wanted: int, got: int)
    | SequenceOverflow
    | MissingStreamSource

  predicate IsControl(c: char) {
    c as int < 0x20 || 0x7F <= c as int < 0xA0
  }

  predicate Printable(text: string) {
    forall i :: 0 <= i < |text| ==> !IsControl(text[i])
  }

  /** Signed 64-bit increment as an optimised build performs it. */
  function WrappingIncrement(x: int): int {
    if x == I64_MAX then -I64_MAX - 1 else x + 1
  }

  predicate ValidFrame(frame: Frame) {
    match frame
    case Hello(_, sourceId, oldest, latest) =>
      sourceId.rfc4122 && latest >= 0 &&
      (oldest.Some? ==> 0 < oldest.value <= latest && latest != 0)
    case EventFrame(sequence, _) => sequence > 0
    case Heartbeat => true
    case Gap(requestedAfter, oldest, lostThrough) =>
      0 <= requestedAfter < lostThrough &&
      (oldest.Some? ==> oldest.value == WrappingIncrement(lostThrough))
    case ErrorFrame(code, message) =>
      0 < |code| <= 64 && Printable(code) && |message| <= 512 && Printable(message)
  }

  datatype Phase = AwaitingHello | Active | Terminal

  datatype Validator = Validator(
    expectedProtocol: int,
    pinned: Option<Uuid>,
    sourceId: Option<Uuid>,
    cursor: int,
    requiredGap: Option<int>,
    phase: Phase)

  function NewValidator(expectedProtocol: int, after: int, pinned: Option<Uuid>): Result<Validator, ProtocolError> {
    if after < 0 then Err(InvalidInitialCursor(after))
    else Ok(Validator(expectedProtocol, pinned, None, after, None, AwaitingHello))
  }

  /** The range a snapshot says can no longer be delivered to a consumer standing at cursor. */
  function LostThrough(cursor: int, oldest: Option<int>, latest: int): Option<int> {
    match oldest
    case Some(first) => if cursor < first - 1 then Some(first - 1) else None
    case None => if cursor < latest then Some(latest) else None
  }

  function AcceptBeforeHello(v: Validator, parsed: Parsed): Result<Validator, ProtocolError> {
    match parsed
    case Known(Hello(version, source, oldest, latest)) =>
      if version != v.expectedProtocol then Err(ProtocolVersionMismatch(v.expectedProtocol, version))
      else if v.pinned.Some? && v.pinned.value != source then Err(SourceIdentityMismatch(v.pinned.value, source))
      else Ok(v.(sourceId := Some(source), requiredGap := LostThrough(v.cursor, oldest, latest), phase := Active))
    case Known(ErrorFrame(_, _)) => Ok(v.(phase := Terminal))
    case _ => Err(FrameBeforeHello)
  }

  function AcceptActive(v: Validator, parsed: Parsed): Result<Validator, ProtocolError> {
    match parsed
    case Unknown(_) => Ok(v)
    case Known(Heartbeat) => Ok(v)
    case Known(EventFrame(sequence, event)) =>
      if v.requiredGap.Some? then Err(RequiredGapMissing(v.requiredGap.value))
      else if v.sourceId.None? then Err(MissingStreamSource)
      else if event.sourceId != v.sourceId.value then Err(SourceIdentityMismatch(v.sourceId.value, event.sourceId))
      else if v.cursor == I64_MAX then Err(SequenceOverflow)
      else if sequence != v.cursor + 1 then Err(SequenceDiscontinuity(v.cursor + 1, sequence))
      else Ok(v.(cursor := sequence))
    case Known(Gap(requestedAfter, _, lostThrough)) =>
      if requestedAfter != v.cursor then Err(GapCursorMismatch(v.cursor, requestedAfter))
      else if v.requiredGap.Some? && lostThrough != v.requiredGap.value then
        Err(RequiredGapMismatch(v.requiredGap.value, lostThrough))
      else Ok(v.(cursor := lostThrough, requiredGap := None))
    case Known(ErrorFrame(_, _)) => Ok(v.(phase := Terminal))
    case Known(Hello(_, _, _, _)) => Err(DuplicateHello)
  }

  function AcceptFrame(v: Validator, parsed: Parsed): Result<Validator, ProtocolError> {
    if parsed.Known? && !ValidFrame(parsed.frame) then Err(InvalidFrameInvariant(FrameInvariantName(parsed.frame)))
    else
      match v.phase
      case AwaitingHello => AcceptBeforeHello(v, parsed)
      case Active => AcceptActive(v, parsed)
      case Terminal => Err(FrameAfterTerminal)
  }

  function FrameInvariantName(frame: Frame): string {
    match frame
    case Hello(_, _, _, _) => "hello sequence range"
    case EventFrame(_, _) => "event sequence"
    case Gap(_, _, _) => "gap sequence range"
    case _ => "error fields"
  }

  /** A whole stream offered to a validator, frame by frame. */
  function AcceptAll(v: Validator, frames: seq<Frame>): Result<Validator, ProtocolError> {
    if frames == [] then Ok(v)
    else
      var before := AcceptAll(v, frames[..|frames| - 1]);
      if before.Err? then before else AcceptFrame(before.value, Known(frames[|frames| - 1]))
  }

  lemma AcceptAllAppend(v: Validator, frames: seq<Frame>, frame: Frame)
    ensures AcceptAll(v, frames + [frame])
         == var before := AcceptAll(v, frames);
            if before.Err? then before else AcceptFrame(before.value, Known(frame))
  {
    assert (frames + [frame])[..|frames|] == frames;
  }

  /** Walking a stream: every event moves one step and every gap declares the range it skips. */
  ghost predicate Tiles(frames: seq<Frame>, after: int, cursor: int) {
    if frames == [] then cursor == after
    else
      var last, rest := frames[|frames| - 1], frames[..|frames| - 1];
      match last
      case EventFrame(sequence, _) => sequence == cursor && Tiles(rest, after, cursor - 1)
      case Gap(requestedAfter, _, lostThrough) =>
        lostThrough == cursor && requestedAfter < lostThrough && Tiles(rest, after, requestedAfter)
      case _ => Tiles(rest, after, cursor)
  }

  /** The frame accounts for this sequence, as a delivery or as a declared loss. */
  predicate Accounts(frame: Frame, sequence: int) {
    match frame
    case EventFrame(s, _) => s == sequence
    case Gap(requestedAfter, _, lostThrough) => requestedAfter < sequence <= lostThrough
    case _ => false
  }

  /** Tiling means: each sequence in (after, cursor] is accounted for by exactly one frame, no other by any. */
  lemma {:induction false} TilesAccountsOnce(frames: seq<Frame>, after: int, cursor: int, sequence: int)
    requires Tiles(frames, after, cursor)
    ensures after <= cursor
    ensures after < sequence <= cursor <==> exists i :: 0 <= i < |frames| && Accounts(frames[i], sequence)
    ensures forall i, j | 0 <= i < |frames| && 0 <= j < |frames| ::
              Accounts(frames[i], sequence) && Accounts(frames[j], sequence) ==> i == j
  {
    if frames != [] {
      var m := |frames| - 1;
      var rest := frames[..m];
      var top := match frames[m]
        case EventFrame(_, _) => cursor - 1
        case Gap(requestedAfter, _, _) => requestedAfter
        case _ => cursor;
      TilesAccountsOnce(rest, after, top, sequence);
      assert forall i :: 0 <= i < m ==> rest[i] == frames[i];
      if Accounts(frames[m], sequence) {
        forall i | 0 <= i < m ensures !Accounts(frames[i], sequence) {
          assert !(after < sequence <= top);
          assert rest[i] == frames[i];
        }
      }
      if exists i :: 0 <= i < m && Accounts(rest[i], sequence) {
        var i :| 0 <= i < m && Accounts(rest[i], sequence);
        assert Accounts(frames[i], sequence);
      }
    }
  }

  /** A validator never lets a sequence be skipped silently or told twice. */
  lemma {:induction false} AcceptedStreamTiles(v: Validator, frames: seq<Frame>)
    requires AcceptAll(v, frames).Ok?
    ensures Tiles(frames, v.cursor, AcceptAll(v, frames).value.cursor)
    ensures v.phase == AwaitingHello && frames != [] ==> frames[0].Hello? || (frames == [frames[0]] && frames[0].ErrorFrame?)
  {
    if frames != [] {
      var rest := frames[..|frames| - 1];
      AcceptedStreamTiles(v, rest);
      if rest != [] && rest[0].ErrorFrame? && v.phase == AwaitingHello {
        assert false;
      }
    }
  }

  // ---- What is accepted, in plain terms ----

  /** The ranges and lengths a frame has to keep by itself. */
  ghost predicate WellFormed(frame: Frame) {
    match frame
    case Hello(_, source, None, latest) => source.rfc4122 && latest >= 0
    case Hello(_, source, Some(first), latest) => source.rfc4122 && 1 <= first <= latest
    case EventFrame(sequence, _) => sequence >= 1
    case Heartbeat => true
    case Gap(requestedAfter, None, lostThrough) => requestedAfter >= 0 && lostThrough > requestedAfter
    case Gap(requestedAfter, Some(next), lostThrough) =>
      requestedAfter >= 0 && lostThrough > requestedAfter
      && next == if lostThrough == 0x7FFF_FFFF_FFFF_FFFF then -0x8000_0000_0000_0000 else lostThrough + 1
    case ErrorFrame(code, message) =>
      1 <= |code| <= 64 && |message| <= 512
      && forall c :: c in code || c in message ==> 0x20 <= c as int < 0x7F || c as int >= 0xA0
  }

  /** What a validator in this phase is waiting for. */
  ghost predicate Expected(v: Validator, frame: Frame) {
    match v.phase
    case AwaitingHello =>
      frame.ErrorFrame?
      || (frame.Hello? && frame.protocolVersion == v.expectedProtocol && (v.pinned.None? || v.pinned == Some(frame.sourceId)))
    case Active =>
      || frame.Heartbeat? || frame.ErrorFrame?
      || (frame.EventFrame? && v.requiredGap.None? && v.sourceId == Some(frame.event.sourceId)
          && v.cursor != 0x7FFF_FFFF_FFFF_FFFF && frame.sequence == v.cursor + 1)
      || (frame.Gap? && frame.requestedAfter == v.cursor && (v.requiredGap.None? || v.requiredGap == Some(frame.lostThrough)))
    case Terminal => false
  }

  /** How far a consumer at this cursor is behind what a hello says is still to be had. */
  ghost function OwedGap(cursor: int, oldest: Option<int>, latest: int): Option<int> {
    var lost := if oldest.Some? then oldest.value - 1 else latest;
    if lost > cursor then Some(lost) else None
  }

  /** Where an accepted frame leaves the validator. */
  ghost function Moved(v: Validator, frame: Frame): Validator {
    match frame
    case Hello(_, source, oldest, latest) =>
      v.(phase := Active, sourceId := Some(source), requiredGap := OwedGap(v.cursor, oldest, latest))
    case EventFrame(sequence, _) => v.(cursor := sequence)
    case Gap(_, _, lostThrough) => v.(cursor := lostThrough, requiredGap := None)
    case Heartbeat => v
    case ErrorFrame(_, _) => v.(phase := Terminal)
  }

  lemma ValidIffWellFormed(frame: Frame)
    ensures ValidFrame(frame) <==> WellFormed(frame)
  {
    if frame.ErrorFrame? {
      PrintableIff(frame.code);
      PrintableIff(frame.message);
    }
  }

  lemma PrintableIff(text: string)
    ensures Printable(text) <==> forall c :: c in text ==> 0x20 <= c as int < 0x7F || c as int >= 0xA0
  {
    if Printable(text) {
      forall c | c in text ensures 0x20 <= c as int < 0x7F || c as int >= 0xA0 {
        var i :| 0 <= i < |text| && text[i] == c;
      }
    } else {
      var i :| 0 <= i < |text| && IsControl(text[i]);
      assert text[i] in text;
    }
  }

  /** A frame is accepted exactly when it is well-formed and expected, and it moves the validator accordingly. */
  lemma AcceptedExactly(v: Validator, frame: Frame)
    ensures AcceptFrame(v, Known(frame)).Ok? <==> WellFormed(frame) && Expected(v, frame)
    ensures AcceptFrame(v, Known(frame)).Ok? ==> AcceptFrame(v, Known(frame)).value == Moved(v, frame)
  {
    hide ValidFrame, WellFormed;
    ValidIffWellFormed(frame);
  }

  /** A stream opens at a natural cursor only, and with nothing but a hello of the expected version or an error. */
  lemma StreamOpens(expectedProtocol: int, after: int, pinned: Option<Uuid>, frame: Frame)
    ensures var start := NewValidator(expectedProtocol, after, pinned);
            if after < 0 then start == Err(InvalidInitialCursor(after))
            else
              && start.Ok? && start.value.cursor == after
              && (AcceptFrame(start.value, Known(frame)).Ok? ==>
                    frame.ErrorFrame? || (frame.Hello? && frame.protocolVersion == expectedProtocol))
  {
  }

  /** A frame of an unknown type is passed over once the stream is open, and refused before hello and after an error. */
  lemma UnknownIsPassedOver(v: Validator, frameType: string)
    ensures AcceptFrame(v, Parsed.Unknown(frameType)) == match v.phase
                                                  case Active => Ok(v)
                                                  case AwaitingHello => Err(FrameBeforeHello)
                                                  case Terminal => Err(FrameAfterTerminal)
  {
  }

  /** A refusal names the first rule that is broken. */
  ghost predicate Blames(v: Validator, frame: Frame, e: ProtocolError) {
    if !WellFormed(frame) then e.InvalidFrameInvariant?
    else
      match v.phase
      case Terminal => e == FrameAfterTerminal
      case AwaitingHello =>
        if !frame.Hello? then e == FrameBeforeHello
        else if frame.protocolVersion != v.expectedProtocol then e == ProtocolVersionMismatch(v.expectedProtocol, frame.protocolVersion)
        else v.pinned.Some? && e == SourceIdentityMismatch(v.pinned.value, frame.sourceId)
      case Active =>
        match frame
        case Hello(_, _, _, _) => e == DuplicateHello
        case Gap(requestedAfter, _, lostThrough) =>
          if requestedAfter != v.cursor then e == GapCursorMismatch(v.cursor, requestedAfter)
          else v.requiredGap.Some? && e == RequiredGapMismatch(v.requiredGap.value, lostThrough)
        case EventFrame(sequence, event) =>
          if v.requiredGap.Some? then e == RequiredGapMissing(v.requiredGap.value)
          else if v.sourceId.None? then e == MissingStreamSource
          else if v.sourceId.value != event.sourceId then e == SourceIdentityMismatch(v.sourceId.value, event.sourceId)
          else if v.cursor == 0x7FFF_FFFF_FFFF_FFFF then e == SequenceOverflow
          else e == SequenceDiscontinuity(v.cursor + 1, sequence)
        case _ => false
  }

  lemma RefusalBlames(v: Validator, frame: Frame)
    ensures AcceptFrame(v, Known(frame)).Err? ==> Blames(v, frame, AcceptFrame(v, Known(frame)).error)
  {
    hide ValidFrame, WellFormed;
    ValidIffWellFormed(frame);
  }

  /** The in-place validator of one bridge process stream. */
  class BridgeStreamValidator {
    var expectedProtocol: int
    var pinned: Option<Uuid>
    var sourceId: Option<Uuid>
    var cursor: int
    var requiredGap: Option<int>
    var phase: Phase

    function State(): Validator
      reads this
    {
      Validator(expectedProtocol, pinned, sourceId, cursor, requiredGap, phase)
    }

    constructor Of(v: Validator)
      ensures State() == v
    {
      expectedProtocol, pinned, sourceId := v.expectedProtocol, v.pinned, v.sourceId;
      cursor, requiredGap, phase := v.cursor, v.requiredGap, v.phase;
    }

    method Accept(parsed: Parsed) returns (error: Option<ProtocolError>)
      modifies this
      ensures match AcceptFrame(old(State()), parsed)
              case Ok(next) => error == None && State() == next
              case Err(e) => error == Some(e) && State() == old(State())
    {
      if parsed.Known? && !ValidFrame(parsed.frame) {
        return Some(InvalidFrameInvariant(FrameInvariantName(parsed.frame)));
      }
      match phase
      case AwaitingHello => error := AcceptFirst(parsed);
      case Active => error := AcceptNext(parsed);
      case Terminal => return Some(FrameAfterTerminal);
    }

    method AcceptFirst(parsed: Parsed) returns (error: Option<ProtocolError>)
      modifies this
      ensures match AcceptBeforeHello(old(State()), parsed)
              case Ok(next) => error == None && State() == next
              case Err(e) => error == Some(e) && State() == old(State())
    {
      match parsed
      case Known(Hello(version, source, oldest, latest)) =>
        if version != expectedProtocol {
          return Some(ProtocolVersionMismatch(expectedProtocol, version));
        }
        if pinned.Some? && pinned.value != source {
          return Some(SourceIdentityMismatch(pinned.value, source));
        }
        sourceId := Some(source);
        requiredGap := LostThrough(cursor, oldest, latest);
        phase := Active;
        return None;
      case Known(ErrorFrame(_, _)) =>
        phase := Terminal;
        return None;
      case _ =>
        return Some(FrameBeforeHello);
    }

    method AcceptNext(parsed: Parsed) returns (error: Option<ProtocolError>)
      modifies this
      ensures match AcceptActive(old(State()), parsed)
              case Ok(next) => error == None && State() == next
              case Err(e) => error == Some(e) && State() == old(State())
    {
      match parsed
      case Unknown(_) => return None;
      case Known(Heartbeat) => return None;
      case Known(EventFrame(sequence, event)) =>
        if requiredGap.Some? { return Some(RequiredGapMissing(requiredGap.value)); }
        if sourceId.None? { return Some(MissingStreamSource); }
        if event.sourceId != sourceId.value {
          return Some(SourceIdentityMismatch(sourceId.value, event.sourceId));
        }
        if cursor == I64_MAX { return Some(SequenceOverflow); }
        if sequence != cursor + 1 { return Some(SequenceDiscontinuity(cursor + 1, sequence)); }
        cursor := sequence;
        return None;
      case Known(Gap(requestedAfter, _, lostThrough)) =>
        if requestedAfter != cursor { return Some(GapCursorMismatch(cursor, requestedAfter)); }
        if requiredGap.Some? && lostThrough != requiredGap.value {
          return Some(RequiredGapMismatch(requiredGap.value, lostThrough));
        }
        cursor := lostThrough;
        requiredGap := None;
        return None;
      case Known(ErrorFrame(_, _)) =>
        phase := Terminal;
        return None;
      case Known(Hello(_, _, _, _)) => return Some(DuplicateHello);
    }
  }
}
