/**
  The Enhanced device's NDJSON frame parser: serial chunks in, parsed messages out, stopping for
  good at the first bad or oversized frame.

  The reference splits the whole stream at once and parses frame by frame. Decoding one frame's
  JSON is a parameter.
*/
module FrameStream {
  import opened Wrappers
  import opened Splitting

  const MAX_DEVICE_FRAME_BYTES := 65536
  const MAX_PENDING_DEVICE_FRAME_BYTES := MAX_DEVICE_FRAME_BYTES - 1
  const CARRIAGE_RETURN: byte := 13
  const OPEN_BRACE: byte := 123
  const CLOSE_BRACE: byte := 125

  datatype ProtocolError<E> = FrameTooLarge(observedFrameBytes: nat) | NotOneObject | Rejected(reason: E)

  datatype Decoded<M, E> = Message(message: M) | Failed(error: ProtocolError<E>)

  datatype Fed<M, E> = Messages(messages: seq<M>) | Raised(error: ProtocolError<E>)

  /** Two terminal errors a caller cannot tell apart by type: the observed size depends on how
      much of an endless frame had arrived. */
  predicate SameKind<E(==)>(a: ProtocolError<E>, b: ProtocolError<E>) {
    a == b || (a.FrameTooLarge? && b.FrameTooLarge?)
  }

  predicate SameOutcome<E(==)>(a: Option<ProtocolError<E>>, b: Option<ProtocolError<E>>) {
    (a.None? && b.None?) || (a.Some? && b.Some? && SameKind(a.value, b.value))
  }

  /** One exact JSON object body after removing one optional CR. */
  function FrameBody(line: seq<byte>): (body: Option<seq<byte>>) {
    var trimmed := if line != [] && line[|line| - 1] == CARRIAGE_RETURN then line[..|line| - 1] else line;
    if trimmed == [] || CARRIAGE_RETURN in trimmed || trimmed[0] != OPEN_BRACE || trimmed[|trimmed| - 1] != CLOSE_BRACE
    then None else Some(trimmed)
  }

  /** A terminated line without its newline, as `bytes.split` returns it. */
  function Chomp(line: seq<byte>): seq<byte> {
    if line == [] then [] else line[..|line| - 1]
  }

  function DecodeFrame<M, E>(parse: seq<byte> -> Decoded<M, E>, line: seq<byte>): Decoded<M, E> {
    var observedFrameBytes := |line| + 1;
    if observedFrameBytes > MAX_DEVICE_FRAME_BYTES then Failed(FrameTooLarge(observedFrameBytes))
    else match FrameBody(line)
         case None => Failed(NotOneObject)
         case Some(body) => parse(body)
  }

  // ----- What a frame must look like -----

  /** The bytes of one JSON object: in braces, without a CR anywhere. */
  ghost predicate ObjectText(body: seq<byte>) {
    body != [] && body[0] == OPEN_BRACE && body[|body| - 1] == CLOSE_BRACE && CARRIAGE_RETURN !in body
  }

  /** Exactly an object's text, or that and one CR, is a frame body. */
  lemma FrameBodyIsObject(line: seq<byte>, body: seq<byte>)
    ensures FrameBody(line) == Some(body) <==> ObjectText(body) && (line == body || line == body + [CARRIAGE_RETURN])
  {
    if ObjectText(body) && line == body + [CARRIAGE_RETURN] {
      assert line[..|line| - 1] == body;
    }
    if ObjectText(body) && line == body {
      assert line[|line| - 1] in body;
    }
    if FrameBody(line) == Some(body) && line != body {
      assert line == body + [line[|line| - 1]];
    }
  }

  /** What becomes of one terminated line: too large, handed to the JSON parser without its line ending, or
      rejected as not being one object. */
  lemma FrameFate<M, E>(parse: seq<byte> -> Decoded<M, E>, frame: seq<byte>)
    requires IsLine(frame)
    ensures |frame| > MAX_DEVICE_FRAME_BYTES ==> DecodeFrame(parse, Chomp(frame)) == Failed(FrameTooLarge(|frame|))
    ensures |frame| <= MAX_DEVICE_FRAME_BYTES ==>
              forall body :: ObjectText(body) && (frame == body + [NEWLINE] || frame == body + [CARRIAGE_RETURN, NEWLINE]) ==>
                DecodeFrame(parse, Chomp(frame)) == parse(body)
    ensures |frame| <= MAX_DEVICE_FRAME_BYTES
            && (forall body :: ObjectText(body) ==> frame != body + [NEWLINE] && frame != body + [CARRIAGE_RETURN, NEWLINE]) ==>
              DecodeFrame(parse, Chomp(frame)) == Failed(NotOneObject)
  {
    var line := Chomp(frame);
    assert frame == line + [NEWLINE];
    forall body | ObjectText(body)
      ensures frame == body + [NEWLINE] <==> line == body
      ensures frame == body + [CARRIAGE_RETURN, NEWLINE] <==> line == body + [CARRIAGE_RETURN]
    {
      assert body + [CARRIAGE_RETURN, NEWLINE] == (body + [CARRIAGE_RETURN]) + [NEWLINE];
      assert (body + [NEWLINE])[..|body|] == body;
      assert ((body + [CARRIAGE_RETURN]) + [NEWLINE])[..|body| + 1] == body + [CARRIAGE_RETURN];
      FrameBodyIsObject(line, body);
    }
    if FrameBody(line).Some? {
      FrameBodyIsObject(line, FrameBody(line).value);
    }
    hide FrameBody, ObjectText;
  }

  // ----- The reference: split everything, parse up to the first failure -----

  datatype Expected<M, E> = Expected(messages: seq<M>, error: Option<ProtocolError<E>>)

  ghost function ParseFrames<M, E>(parse: seq<byte> -> Decoded<M, E>, frames: seq<seq<byte>>): Expected<M, E>
  {
    if frames == [] then Expected([], None)
    else match DecodeFrame(parse, Chomp(frames[0]))
         case Failed(error) => Expected([], Some(error))
         case Message(message) =>
           var rest := ParseFrames(parse, frames[1..]);
           Expected([message] + rest.messages, rest.error)
  }

  ghost function ParseStream<M, E>(parse: seq<byte> -> Decoded<M, E>, s: seq<byte>): Expected<M, E> {
    var whole := ParseFrames(parse, Lines(s));
    if whole.error.None? && |Rest(s)| > MAX_PENDING_DEVICE_FRAME_BYTES
    then whole.(error := Some(FrameTooLarge(|Rest(s)|)))
    else whole
  }

  /** The reference's meaning: decoded frames, one message each, up to the first failing frame. */
  lemma {:induction false} UpToFirstFailure<M, E>(parse: seq<byte> -> Decoded<M, E>, frames: seq<seq<byte>>)
    ensures var r := ParseFrames(parse, frames);
            && |r.messages| <= |frames|
            && (forall j :: 0 <= j < |r.messages| ==> DecodeFrame(parse, Chomp(frames[j])) == Message(r.messages[j]))
            && (r.error.None? ==> |r.messages| == |frames|)
            && (r.error.Some? ==>
                  |r.messages| < |frames| && DecodeFrame(parse, Chomp(frames[|r.messages|])) == Failed(r.error.value))
  {
    hide DecodeFrame, Chomp;
    if frames != [] && DecodeFrame(parse, Chomp(frames[0])).Message? {
      UpToFirstFailure(parse, frames[1..]);
    }
  }

  ghost function Joined<M, E>(a: Expected<M, E>, b: Expected<M, E>): Expected<M, E> {
    if a.error.Some? then a else Expected(a.messages + b.messages, b.error)
  }

  lemma ParseFramesCons<M, E>(parse: seq<byte> -> Decoded<M, E>, frame: seq<byte>, rest: seq<seq<byte>>)
    ensures ParseFrames(parse, [frame] + rest) == Joined(ParseFrames(parse, [frame]), ParseFrames(parse, rest))
  {
    var frames := [frame] + rest;
    assert frames[0] == frame && frames[1..] == rest && [frame][1..] == [];
  }

  lemma JoinedAssociative<M, E>(a: Expected<M, E>, b: Expected<M, E>, c: Expected<M, E>)
    ensures Joined(Joined(a, b), c) == Joined(a, Joined(b, c))
  {
    Regroup(a.messages, b.messages, c.messages);
  }

  lemma {:induction false} ParseFramesAppend<M, E>(parse: seq<byte> -> Decoded<M, E>, a: seq<seq<byte>>, b: seq<seq<byte>>)
    ensures ParseFrames(parse, a + b) == Joined(ParseFrames(parse, a), ParseFrames(parse, b))
  {
    if a == [] {
      assert a + b == b;
      assert [] + ParseFrames(parse, b).messages == ParseFrames(parse, b).messages;
    } else {
      hide *;
      var first, rest := [a[0]], a[1..];
      assert a == first + rest;
      Regroup(first, rest, b);
      ParseFramesCons(parse, a[0], rest + b);
      ParseFramesCons(parse, a[0], rest);
      ParseFramesAppend(parse, rest, b);
      JoinedAssociative(ParseFrames(parse, first), ParseFrames(parse, rest), ParseFrames(parse, b));
    }
  }

  /** One step of the parsing loop. */
  lemma FrameStep<M, E>(parse: seq<byte> -> Decoded<M, E>, frames: seq<seq<byte>>, i: nat, messages: seq<M>)
    requires i < |frames| && ParseFrames(parse, frames[..i]) == Expected(messages, None)
    ensures match DecodeFrame(parse, Chomp(frames[i]))
            case Message(m) => ParseFrames(parse, frames[..i + 1]) == Expected(messages + [m], None)
            case Failed(error) => ParseFrames(parse, frames) == Expected(messages, Some(error))
  {
    hide *;
    ParseOne(parse, frames[i]);
    CutAt(frames, i);
    ParseFramesAppend(parse, frames[..i], [frames[i]]);
    ParseFramesAppend(parse, frames[..i + 1], frames[i + 1..]);
    JoinedWithOne(messages, DecodeFrame(parse, Chomp(frames[i])), ParseFrames(parse, frames[i + 1..]));
  }

  ghost function One<M, E>(decoded: Decoded<M, E>): Expected<M, E> {
    match decoded case Message(m) => Expected([m], None) case Failed(error) => Expected([], Some(error))
  }

  lemma ParseOne<M, E>(parse: seq<byte> -> Decoded<M, E>, frame: seq<byte>)
    ensures ParseFrames(parse, [frame]) == One(DecodeFrame(parse, Chomp(frame)))
  {
    assert [frame][1..] == [];
  }

  lemma JoinedWithOne<M, E>(messages: seq<M>, decoded: Decoded<M, E>, rest: Expected<M, E>)
    ensures Joined(Expected(messages, None), One(decoded)) ==
            match decoded case Message(m) => Expected(messages + [m], None) case Failed(error) => Expected(messages, Some(error))
    ensures decoded.Failed? ==> Joined(Expected(messages, Some(decoded.error)), rest) == Expected(messages, Some(decoded.error))
  {
    assert messages + [] == messages;
  }

  lemma CutAt<T>(s: seq<T>, i: nat)
    requires i < |s|
    ensures s[..i + 1] == s[..i] + [s[i]] && s == s[..i + 1] + s[i + 1..]
  {
  }

  /** The parsing loop over the complete frames of one chunk. */
  method ParseLines<M, E>(parse: seq<byte> -> Decoded<M, E>, lines: seq<seq<byte>>)
    returns (messages: seq<M>, error: Option<ProtocolError<E>>)
    ensures Expected(messages, error) == ParseFrames(parse, lines)
  {
    messages := [];
    assert lines[..0] == [];
    for i := 0 to |lines|
      invariant ParseFrames(parse, lines[..i]) == Expected(messages, None)
    {
      hide ParseFrames, DecodeFrame, Chomp;
      FrameStep(parse, lines, i, messages);
      var decoded := DecodeFrame(parse, Chomp(lines[i]));
      if decoded.Failed? {
        return messages, Some(decoded.error);
      }
      messages := messages + [decoded.message];
    }
    assert lines[..|lines|] == lines;
    error := None;
  }

  /** What the frames after an unterminated rest contribute. */
  lemma ParseStreamAppend<M, E>(parse: seq<byte> -> Decoded<M, E>, a: seq<byte>, b: seq<byte>)
    ensures var pa, pc := ParseStream(parse, a), ParseStream(parse, Rest(a) + b);
            && (pa.error.None? ==> ParseStream(parse, a + b) == Expected(pa.messages + pc.messages, pc.error))
            && (ParseFrames(parse, Lines(a)).error.Some? ==> ParseStream(parse, a + b) == pa)
  {
    SplitAppend(a, b);
    ParseFramesAppend(parse, Lines(a), Lines(Rest(a) + b));
  }

  /** What one more chunk adds to the reference while it has not failed. */
  lemma ChunkOutcome<M, E>(parse: seq<byte> -> Decoded<M, E>, fed: seq<byte>, chunk: seq<byte>, messages: seq<M>, error: Option<ProtocolError<E>>)
    requires ParseStream(parse, fed).error.None?
    requires Expected(messages, error) == ParseFrames(parse, Lines(Rest(fed) + chunk))
    ensures var rest := Rest(Rest(fed) + chunk);
            && Rest(fed + chunk) == rest
            && ParseStream(parse, fed + chunk) ==
               Expected(ParseStream(parse, fed).messages + messages,
                        if error.None? && |rest| > MAX_PENDING_DEVICE_FRAME_BYTES then Some(FrameTooLarge(|rest|)) else error)
  {
    ParseStreamAppend(parse, fed, chunk);
    SplitAppend(fed, chunk);
    hide Lines, Rest, ParseFrames;
  }

  /** Once the reference has failed, no later byte changes its messages or the kind of failure. */
  lemma FailureIsFinal<M, E>(parse: seq<byte> -> Decoded<M, E>, a: seq<byte>, b: seq<byte>)
    requires ParseStream(parse, a).error.Some?
    ensures ParseStream(parse, a + b).messages == ParseStream(parse, a).messages
    ensures SameOutcome(ParseStream(parse, a + b).error, ParseStream(parse, a).error)
  {
    ParseStreamAppend(parse, a, b);
    if ParseFrames(parse, Lines(a)).error.None? {
      SplitAppend(a, b);
      ParseFramesAppend(parse, Lines(a), Lines(Rest(a) + b));
      SplitSound(a);
      LongRestStaysLong(Rest(a), b);
    }
  }

  lemma LongRestStaysLong(r: seq<byte>, b: seq<byte>)
    requires |r| > MAX_PENDING_DEVICE_FRAME_BYTES && Unbroken(r, 0, |r|)
    ensures var lines := Lines(r + b);
            if lines == [] then |Rest(r + b)| >= |r| else |lines[0]| > MAX_DEVICE_FRAME_BYTES
  {
    FindNewlineIsFirst(r + b, 0);
    SplitSound(r + b);
    assert forall i :: 0 <= i < |r| ==> (r + b)[i] == r[i];
  }

  lemma NothingFed<M, E>(parse: seq<byte> -> Decoded<M, E>)
    ensures ParseStream(parse, []) == Expected([], None) && Rest([]) == []
  {
  }

  class NdjsonStreamParser<M, E(==)> {
    const parse: seq<byte> -> Decoded<M, E>
    var buffer: seq<byte>
    var terminalError: Option<ProtocolError<E>>

    /** Every chunk offered and every message returned, over the whole run. */
    ghost var fed: seq<byte>
    ghost var produced: seq<M>

    /** For every division into chunks: the messages, and the kind of the first failure, are those
        of splitting the whole stream; nothing is produced after it; the buffer stays bounded. */
    ghost predicate Valid()
      reads this
    {
      var expected := ParseStream(parse, fed);
      && produced == expected.messages
      && SameOutcome(terminalError, expected.error)
      && buffer == (if terminalError.Some? then [] else Rest(fed))
      && |buffer| <= MAX_PENDING_DEVICE_FRAME_BYTES
    }

    constructor (parse: seq<byte> -> Decoded<M, E>)
      ensures Valid() && this.parse == parse && fed == [] && produced == []
    {
      this.parse := parse;
      buffer, terminalError, fed, produced := [], None, [], [];
      new;
      NothingFed(parse);
      hide ParseStream, Rest;
    }

    method Feed(chunk: seq<byte>) returns (r: Fed<M, E>)
      requires Valid()
      modifies this
      ensures Valid()
      ensures fed == old(fed) + chunk
      ensures match r
              case Messages(messages) =>
                produced == old(produced) + messages && old(terminalError).None?
              case Raised(error) =>
                && produced == old(produced) && terminalError == Some(error)
                && (old(terminalError).Some? ==> terminalError == old(terminalError))
      ensures old(terminalError).Some? ==> r.Raised?
      ensures r.Messages? && |r.messages| == 0 ==> terminalError.None?
    {
      if terminalError.Some? {
        FailureIsFinal(parse, fed, chunk);
        fed := fed + chunk;
        return Raised(terminalError.value);
      }
      if chunk == [] {
        assert fed + chunk == fed;
        fed := fed + chunk;
        assert produced == produced + [];
        return Messages([]);
      }
      ghost var before := fed;
      fed := fed + chunk;
      buffer := buffer + chunk;
      var lines := Lines(buffer);
      buffer := Rest(buffer);
      var messages, error := ParseLines(parse, lines);
      ChunkOutcome(parse, before, chunk, messages, error);
      hide ParseFrames, ParseStream, Lines, Rest;
      if error.None? && |buffer| > MAX_PENDING_DEVICE_FRAME_BYTES {
        error := Some(FrameTooLarge(|buffer|));
      }
      produced := produced + messages;
      if error.Some? {
        buffer, terminalError := [], error;
        if messages == [] {
          return Raised(error.value);
        }
      }
      return Messages(messages);
    }
  }
}
