/**
 * The two framings (src/protocol.rs between nodes, src/relay.rs between a leaf and the relay).  They
 * differ in their magic and their table of frame types, and are one model here, given either table.
 */
module Frames {
  import opened Basics
  import opened Clips

  const VERSION: byte := 1
  const HEADER: nat := 10

  // Big-endian numbers.

  function Power(width: nat): nat {
    if width == 0 then 1 else 256 * Power(width - 1)
  }

  /** `n as uN` followed by `to_be_bytes`, for a type of `width` bytes: the cast drops what does not fit. */
  function BigEndian(n: nat, width: nat): (r: Bytes)
    ensures |r| == width
  {
    if width == 0 then [] else BigEndian(n / 256, width - 1) + [n % 256]
  }

  function FromBigEndian(bytes: Bytes): nat {
    if bytes == [] then 0 else 256 * FromBigEndian(bytes[..|bytes| - 1]) + bytes[|bytes| - 1]
  }

  /** The cast loses nothing exactly if the number fits. */
  lemma {:induction false} NumberRoundTrip(n: nat, width: nat)
    ensures FromBigEndian(BigEndian(n, width)) == n <==> n < Power(width)
    ensures FromBigEndian(BigEndian(n, width)) <= n
    decreases width
  {
    if width > 0 {
      NumberRoundTrip(n / 256, width - 1);
      assert BigEndian(n, width)[..width - 1] == BigEndian(n / 256, width - 1);
    }
  }

  lemma {:induction false} BigEndianIsBounded(bytes: Bytes)
    ensures FromBigEndian(bytes) < Power(|bytes|)
    decreases |bytes|
  {
    if bytes != [] {
      BigEndianIsBounded(bytes[..|bytes| - 1]);
    }
  }

  lemma {:induction false} BytesRoundTrip(bytes: Bytes)
    ensures BigEndian(FromBigEndian(bytes), |bytes|) == bytes
    decreases |bytes|
  {
    if bytes != [] {
      BytesRoundTrip(bytes[..|bytes| - 1]);
    }
  }

  /** The most significant byte comes first. */
  lemma {:induction false} FirstByteWeighsMost(bytes: Bytes)
    requires bytes != []
    ensures FromBigEndian(bytes) == Power(|bytes| - 1) * bytes[0] + FromBigEndian(bytes[1..])
    decreases |bytes|
  {
    if |bytes| == 1 {
      assert FromBigEndian(bytes[..0]) == 0;
    } else {
      var front, rest := bytes[..|bytes| - 1], bytes[1..];
      FirstByteWeighsMost(front);
      assert front[1..] == rest[..|rest| - 1];
      var p := Power(|bytes| - 2);
      assert 256 * (p * bytes[0]) == 256 * p * bytes[0];
    }
  }

  // The wires.

  datatype Wire<!T> = Wire(magic: nat, code: T -> byte, fromU8: byte -> Result<T, ProtoError>)

  ghost predicate Lawful<T(!new)>(w: Wire<T>) {
    && w.magic < 0x1_0000_0000
    && (forall t: T :: w.fromU8(w.code(t)) == Ok(t))
    && (forall b: byte :: match w.fromU8(b) case Ok(t) => w.code(t) == b case Err(e) => e == UnknownType(b))
  }

  datatype Type = Hello | HelloAck | Ping | Pong | Clip | ClipAck | Error | Bye

  datatype RelayType = Join | JoinAck | Data | Ping | Pong | Error | Bye

  function TypeCode(t: Type): byte {
    match t
    case Hello => 1
    case HelloAck => 2
    case Ping => 3
    case Pong => 4
    case Clip => 5
    case ClipAck => 6
    case Error => 7
    case Bye => 8
  }

  function TypeFromU8(b: byte): Result<Type, ProtoError> {
    match b
    case 1 => Ok(Type.Hello)
    case 2 => Ok(Type.HelloAck)
    case 3 => Ok(Type.Ping)
    case 4 => Ok(Type.Pong)
    case 5 => Ok(Type.Clip)
    case 6 => Ok(Type.ClipAck)
    case 7 => Ok(Type.Error)
    case 8 => Ok(Type.Bye)
    case other => Err(UnknownType(other))
  }

  function RelayTypeCode(t: RelayType): byte {
    match t
    case Join => 1
    case JoinAck => 2
    case Data => 3
    case Ping => 4
    case Pong => 5
    case Error => 7
    case Bye => 8
  }

  function RelayTypeFromU8(b: byte): Result<RelayType, ProtoError> {
    match b
    case 1 => Ok(RelayType.Join)
    case 2 => Ok(RelayType.JoinAck)
    case 3 => Ok(RelayType.Data)
    case 4 => Ok(RelayType.Ping)
    case 5 => Ok(RelayType.Pong)
    case 7 => Ok(RelayType.Error)
    case 8 => Ok(RelayType.Bye)
    case other => Err(UnknownType(other))
  }

  const LAN: Wire<Type> := Wire(0x5A53594E, TypeCode, TypeFromU8)
  const RELAY: Wire<RelayType> := Wire(0x5A535952, RelayTypeCode, RelayTypeFromU8)

  lemma TypeOfCode(t: Type)
    ensures TypeFromU8(TypeCode(t)) == Ok(t)
  {
  }

  lemma CodeOfType(b: byte)
    ensures match TypeFromU8(b) case Ok(t) => TypeCode(t) == b case Err(e) => e == UnknownType(b)
  {
  }

  lemma RelayTypeOfCode(t: RelayType)
    ensures RelayTypeFromU8(RelayTypeCode(t)) == Ok(t)
  {
  }

  lemma CodeOfRelayType(b: byte)
    ensures match RelayTypeFromU8(b) case Ok(t) => RelayTypeCode(t) == b case Err(e) => e == UnknownType(b)
  {
  }

  /** Each table is one-to-one, and refuses every other code. */
  lemma BothAreLawful()
    ensures Lawful(LAN) && Lawful(RELAY)
  {
    hide TypeCode, TypeFromU8, RelayTypeCode, RelayTypeFromU8;
    forall t: Type ensures LAN.fromU8(LAN.code(t)) == Ok(t) {
      TypeOfCode(t);
    }
    forall b: byte ensures match LAN.fromU8(b) case Ok(t) => LAN.code(t) == b case Err(e) => e == UnknownType(b) {
      CodeOfType(b);
    }
    forall t: RelayType ensures RELAY.fromU8(RELAY.code(t)) == Ok(t) {
      RelayTypeOfCode(t);
    }
    forall b: byte ensures match RELAY.fromU8(b) case Ok(t) => RELAY.code(t) == b case Err(e) => e == UnknownType(b) {
      CodeOfRelayType(b);
    }
  }

  // Frames.

  /** What both encoders produce for a payload within the limit; `payload.len() as u32` is a cast. */
  function Encoded<T>(w: Wire<T>, t: T, payload: Bytes): Bytes {
    BigEndian(w.magic, 4) + [VERSION] + [w.code(t)] + BigEndian(|payload|, 4) + payload
  }

  /** Reading one frame: the result, and what is left of the input.  `read_exact` uses up input it finds too short. */
  function Read<T>(w: Wire<T>, input: Bytes): (Result<(T, Bytes), ProtoError>, Bytes) {
    if |input| < HEADER then
      (Err(UnexpectedEof), [])
    else
      var rest := input[HEADER..];
      if FromBigEndian(input[..4]) != w.magic then
        (Err(BadMagic), rest)
      else if input[4] != VERSION then
        (Err(BadVersion(input[4])), rest)
      else match w.fromU8(input[5])
        case Err(e) => (Err(e), rest)
        case Ok(t) =>
          var n := FromBigEndian(input[6..HEADER]);
          if n > MAX_FRAME then
            (Err(ProtoError.TooLarge), rest)
          else if |rest| < n then
            (Err(UnexpectedEof), [])
          else
            (Ok((t, rest[..n])), rest[n..])
  }

  /** A byte stream: what was written to it and not yet read. */
  class Pipe {
    var bytes: Bytes

    constructor ()
      ensures bytes == []
    {
      bytes := [];
    }

    method WriteAll(data: Bytes)
      modifies this
      ensures bytes == old(bytes) + data
    {
      bytes := bytes + data;
    }

    method ReadExact(n: nat) returns (r: Option<Bytes>)
      modifies this
      ensures |old(bytes)| < n ==> r == None && bytes == []
      ensures n <= |old(bytes)| ==> r == Some(old(bytes)[..n]) && bytes == old(bytes)[n..]
    {
      if |bytes| < n {
        bytes := [];
        return None;
      }
      r := Some(bytes[..n]);
      bytes := bytes[n..];
    }
  }

  method EncodeFrame<T>(w: Wire<T>, t: T, payload: Bytes) returns (r: Result<Bytes, ProtoError>)
    ensures r == if |payload| > MAX_FRAME then Err(ProtoError.TooLarge) else Ok(Encoded(w, t, payload))
  {
    if |payload| > MAX_FRAME {
      return Err(ProtoError.TooLarge);
    }
    var buf := BigEndian(w.magic, 4);
    buf := buf + [VERSION];
    buf := buf + [w.code(t)];
    buf := buf + BigEndian(|payload|, 4);
    buf := buf + payload;
    return Ok(buf);
  }

  method WriteFrame<T>(w: Wire<T>, pipe: Pipe, t: T, payload: Bytes) returns (r: Result<(), ProtoError>)
    modifies pipe
    ensures |payload| > MAX_FRAME ==> r == Err(ProtoError.TooLarge) && pipe.bytes == old(pipe.bytes)
    ensures |payload| <= MAX_FRAME ==> r == Ok(()) && pipe.bytes == old(pipe.bytes) + Encoded(w, t, payload)
  {
    var buf := EncodeFrame(w, t, payload);
    if buf.Err? {
      return Err(buf.error);
    }
    pipe.WriteAll(buf.value);
    return Ok(());
  }

  method ReadFrame<T>(w: Wire<T>, pipe: Pipe) returns (r: Result<(T, Bytes), ProtoError>)
    modifies pipe
    ensures (r, pipe.bytes) == Read(w, old(pipe.bytes))
  {
    var hdr := pipe.ReadExact(HEADER);
    if hdr.None? {
      return Err(UnexpectedEof);
    }
    var h := hdr.value;
    assert h[..4] == old(pipe.bytes)[..4] && h[6..HEADER] == old(pipe.bytes)[6..HEADER];
    if FromBigEndian(h[..4]) != w.magic {
      return Err(BadMagic);
    }
    if h[4] != VERSION {
      return Err(BadVersion(h[4]));
    }
    var t := w.fromU8(h[5]);
    if t.Err? {
      return Err(t.error);
    }
    var n := FromBigEndian(h[6..HEADER]);
    if n > MAX_FRAME {
      return Err(ProtoError.TooLarge);
    }
    var payload := [];
    if n > 0 {
      var body := pipe.ReadExact(n);
      if body.None? {
        return Err(UnexpectedEof);
      }
      payload := body.value;
    }
    return Ok((t.value, payload));
  }

  function DecodeFrame<T>(w: Wire<T>, buf: Bytes): Result<(T, Bytes), ProtoError> {
    if |buf| < HEADER then Err(UnexpectedEof)
    else if FromBigEndian(buf[..4]) != w.magic then Err(BadMagic)
    else if buf[4] != VERSION then Err(BadVersion(buf[4]))
    else match w.fromU8(buf[5])
      case Err(e) => Err(e)
      case Ok(t) =>
        var n := FromBigEndian(buf[6..HEADER]);
        if n > MAX_FRAME then Err(ProtoError.TooLarge)
        else if |buf| < HEADER + n then Err(UnexpectedEof)
        else Ok((t, buf[HEADER..HEADER + n]))
  }

  /** The two decoders agree on every input, errors included. */
  lemma DecodeAgreesWithRead<T>(w: Wire<T>, buf: Bytes)
    ensures DecodeFrame(w, buf) == Read(w, buf).0
  {
    hide FromBigEndian;
    if |buf| >= HEADER {
      var n := FromBigEndian(buf[6..HEADER]);
      if HEADER + n <= |buf| {
        assert buf[HEADER..][..n] == buf[HEADER..HEADER + n];
      }
    }
  }

  // A stream code.

  function Written<T>(w: Wire<T>, frames: seq<(T, Bytes)>): Bytes {
    if frames == [] then [] else Encoded(w, frames[0].0, frames[0].1) + Written(w, frames[1..])
  }

  /** Reading until the first error, which every session's loop ends with. */
  function ReadAll<T>(w: Wire<T>, input: Bytes): (seq<(T, Bytes)>, ProtoError)
    decreases |input|
  {
    match Read(w, input)
    case (Err(e), _) => ([], e)
    case (Ok(frame), rest) => var (frames, e) := ReadAll(w, rest); ([frame] + frames, e)
  }

  ghost predicate Fit<T>(frames: seq<(T, Bytes)>) {
    forall i :: 0 <= i < |frames| ==> |frames[i].1| <= MAX_FRAME
  }

  /** The number of frames that lie completely within the first k bytes. */
  function Complete<T>(w: Wire<T>, frames: seq<(T, Bytes)>, k: nat): (n: nat)
    ensures n <= |frames|
  {
    if frames == [] then 0 else
    var length := |Encoded(w, frames[0].0, frames[0].1)|;
    if k < length then 0 else 1 + Complete(w, frames[1..], k - length)
  }

  lemma FitsFourBytes(n: nat)
    requires n < 0x1_0000_0000
    ensures FromBigEndian(BigEndian(n, 4)) == n
  {
    NumberRoundTrip(n, 4);
    assert Power(1) == 256 && Power(2) == 65536 && Power(3) == 0x100_0000;
  }

  /** The header of an encoded frame, field by field, as far as it is there. */
  lemma HeaderIs<T>(w: Wire<T>, t: T, payload: Bytes, more: Bytes)
    ensures var input := Encoded(w, t, payload) + more;
            && |Encoded(w, t, payload)| == HEADER + |payload|
            && input[..4] == BigEndian(w.magic, 4) && input[4] == VERSION && input[5] == w.code(t)
            && input[6..HEADER] == BigEndian(|payload|, 4) && input[HEADER..] == payload + more
  {
  }

  lemma ReadOfEncoded<T(!new)>(w: Wire<T>, t: T, payload: Bytes, more: Bytes)
    requires Lawful(w) && |payload| <= MAX_FRAME
    ensures Read(w, Encoded(w, t, payload) + more) == (Ok((t, payload)), more)
  {
    HeaderIs(w, t, payload, more);
    FitsFourBytes(w.magic);
    FitsFourBytes(|payload|);
    hide Encoded, BigEndian, FromBigEndian;
    assert w.fromU8(w.code(t)) == Ok(t);
    assert (payload + more)[..|payload|] == payload && (payload + more)[|payload|..] == more;
  }

  lemma ReadOfCut<T(!new)>(w: Wire<T>, t: T, payload: Bytes, k: nat)
    requires Lawful(w) && |payload| <= MAX_FRAME && k < HEADER + |payload|
    ensures k < |Encoded(w, t, payload)| && Read(w, Encoded(w, t, payload)[..k]) == (Err(UnexpectedEof), [])
  {
    HeaderIs(w, t, payload, []);
    FitsFourBytes(w.magic);
    FitsFourBytes(|payload|);
    var all := Encoded(w, t, payload);
    assert all + [] == all;
    hide Encoded, BigEndian, FromBigEndian;
    assert w.fromU8(w.code(t)) == Ok(t);
    if HEADER <= k {
      assert all[..k][..4] == all[..4] && all[..k][6..HEADER] == all[6..HEADER];
    }
  }

  /** Whatever is read was encoded: no other bytes are accepted as this frame. */
  lemma ReadIsEncoded<T(!new)>(w: Wire<T>, input: Bytes)
    requires Lawful(w) && Read(w, input).0.Ok?
    ensures var (r, rest) := Read(w, input);
            |r.value.1| <= MAX_FRAME && input == Encoded(w, r.value.0, r.value.1) + rest
  {
    var (r, rest) := Read(w, input);
    var (t, payload) := r.value;
    assert w.code(t) == input[5] by {
      assert w.fromU8(input[5]) == Ok(t);
    }
    BytesRoundTrip(input[..4]);
    BytesRoundTrip(input[6..HEADER]);
    HeaderIs(w, t, payload, rest);
    hide FromBigEndian, BigEndian;
    assert input == input[..4] + [input[4]] + [input[5]] + input[6..HEADER] + input[HEADER..];
    assert input[HEADER..] == payload + rest;
  }

  /**
   * Framing is a stream code: a concatenation of frames cut anywhere reads back as exactly the
   * frames that are complete, and then as an end of file.  With no cut that is all of them.
   */
  lemma {:induction false} CutStreamReadsCompleteFrames<T(!new)>(w: Wire<T>, frames: seq<(T, Bytes)>, k: nat)
    requires Lawful(w) && Fit(frames) && k <= |Written(w, frames)|
    ensures ReadAll(w, Written(w, frames)[..k]) == (frames[..Complete(w, frames, k)], UnexpectedEof)
    decreases |frames|
  {
    hide Encoded, Read;
    if frames == [] {
      EmptyRead(w);
      assert Written(w, frames)[..k] == [];
    } else {
      var (t, payload) := frames[0];
      HeaderIs(w, t, payload, []);
      var first, rest := Encoded(w, t, payload), Written(w, frames[1..]);
      if k < |first| {
        ReadOfCut(w, t, payload, k);
        assert Written(w, frames)[..k] == first[..k];
      } else {
        var cut := rest[..k - |first|];
        assert Written(w, frames)[..k] == first + cut;
        ReadOfEncoded(w, t, payload, cut);
        CutStreamReadsCompleteFrames(w, frames[1..], k - |first|);
        assert frames[..Complete(w, frames, k)] == [frames[0]] + frames[1..][..Complete(w, frames[1..], k - |first|)];
      }
    }
  }

  lemma EmptyRead<T>(w: Wire<T>)
    ensures Read(w, []) == (Err(UnexpectedEof), [])
  {
  }

  lemma {:induction false} WholeStreamReadsBack<T(!new)>(w: Wire<T>, frames: seq<(T, Bytes)>)
    requires Lawful(w) && Fit(frames)
    ensures Complete(w, frames, |Written(w, frames)|) == |frames|
    ensures ReadAll(w, Written(w, frames)) == (frames, UnexpectedEof)
    decreases |frames|
  {
    hide Encoded, Read;
    CutStreamReadsCompleteFrames(w, frames, |Written(w, frames)|);
    assert Written(w, frames)[..|Written(w, frames)|] == Written(w, frames);
    if frames != [] {
      WholeStreamReadsBack(w, frames[1..]);
    }
    assert frames[..|frames|] == frames;
  }

  /** On any input at all, what is read up to the error is what some peer would have to have written first. */
  lemma {:induction false} ReadFramesWereWritten<T(!new)>(w: Wire<T>, input: Bytes)
    requires Lawful(w)
    ensures Fit(ReadAll(w, input).0) && Written(w, ReadAll(w, input).0) <= input
    decreases |input|
  {
    var (r, rest) := Read(w, input);
    if r.Ok? {
      ReadIsEncoded(w, input);
      hide Encoded, Read;
      ReadFramesWereWritten(w, rest);
      var frames := ReadAll(w, rest).0;
      assert ReadAll(w, input).0 == [r.value] + frames && ([r.value] + frames)[1..] == frames;
    }
  }

  /** The first bytes on the wire: "ZSYN" or "ZSYR", the version, the type's number. */
  lemma HeaderBytes(t: Type, u: RelayType, payload: Bytes)
    ensures Encoded(LAN, t, payload)[..6] == [0x5A, 0x53, 0x59, 0x4E, 1, LAN.code(t)]
    ensures Encoded(RELAY, u, payload)[..6] == [0x5A, 0x53, 0x59, 0x52, 1, RELAY.code(u)]
  {
    hide Encoded, BigEndian, TypeCode, RelayTypeCode;
    HeaderStarts(LAN, t, payload);
    HeaderStarts(RELAY, u, payload);
    MagicBytes(0x4E);
    MagicBytes(0x52);
  }

  /** The numbers of the types. */
  lemma TypeNumbers()
    ensures LAN.code(Hello) == 1 && LAN.code(HelloAck) == 2 && LAN.code(Type.Ping) == 3 && LAN.code(Type.Pong) == 4
    ensures LAN.code(Type.Clip) == 5 && LAN.code(Type.ClipAck) == 6 && LAN.code(Type.Error) == 7
    ensures LAN.code(Type.Bye) == 8
    ensures RELAY.code(Join) == 1 && RELAY.code(JoinAck) == 2 && RELAY.code(Data) == 3
    ensures RELAY.code(RelayType.Ping) == 4 && RELAY.code(RelayType.Pong) == 5
    ensures RELAY.code(RelayType.Error) == 7 && RELAY.code(RelayType.Bye) == 8
  {
  }

  lemma HeaderStarts<T>(w: Wire<T>, t: T, payload: Bytes)
    ensures |Encoded(w, t, payload)| >= 6
    ensures Encoded(w, t, payload)[..6] == BigEndian(w.magic, 4) + [1, w.code(t)]
  {
    HeaderIs(w, t, payload, []);
    var all := Encoded(w, t, payload);
    hide Encoded, BigEndian;
    assert all + [] == all;
    assert all[..6] == all[..4] + [all[4], all[5]];
  }

  lemma MagicBytes(last: byte)
    ensures BigEndian(0x5A53_5900 + last, 4) == [0x5A, 0x53, 0x59, last]
  {
    assert BigEndian(0x5A, 1) == [0x5A];
    assert BigEndian(0x5A53, 2) == [0x5A, 0x53];
    assert BigEndian(0x5A53_59, 3) == [0x5A, 0x53, 0x59];
  }

  /**
   * What is wrong with a header, if anything, the first fault in this order: magic, version, type, length; and
   * then a payload that is cut short.  Only the header is used up, or everything.
   */
  lemma FaultsAre<T(!new)>(w: Wire<T>, input: Bytes)
    requires Lawful(w) && |input| >= 10
    ensures var (r, rest) := Read(w, input);
            var magic, version := input[..4] == BigEndian(w.magic, 4), input[4] == 1;
            var known, length := exists t :: w.code(t) == input[5], FromBigEndian(input[6..10]);
            && (r == Err(BadMagic) <==> !magic)
            && (r == Err(BadVersion(input[4])) <==> magic && !version)
            && (r == Err(UnknownType(input[5])) <==> magic && version && !known)
            && (r == Err(ProtoError.TooLarge) <==> magic && version && known && length > 10_551_296)
            && (r == Err(UnexpectedEof) <==>
                  magic && version && known && length <= 10_551_296 && |input| < 10 + length)
            && (r.Err? ==> rest == if r.error == UnexpectedEof then [] else input[10..])
  {
    FitsFourBytes(w.magic);
    BytesRoundTrip(input[..4]);
    hide BigEndian, FromBigEndian;
    match w.fromU8(input[5]) {
      case Ok(t) => assert w.code(t) == input[5];
      case Err(_) => assert forall t :: w.code(t) == input[5] ==> w.fromU8(w.code(t)) == Ok(t);
    }
  }

  /** A reader takes no frame of a protocol with another magic; so the two here never take each other's. */
  lemma OtherProtocolIsBadMagic<T(!new), U(!new)>(mine: Wire<T>, other: Wire<U>, t: U, payload: Bytes, more: Bytes)
    requires Lawful(mine) && Lawful(other) && mine.magic != other.magic
    ensures Read(mine, Encoded(other, t, payload) + more).0 == Err(BadMagic)
  {
    HeaderIs(other, t, payload, more);
    FitsFourBytes(other.magic);
  }

  lemma NeitherReadsTheOther(t: Type, u: RelayType, payload: Bytes, more: Bytes)
    ensures Read(RELAY, Encoded(LAN, t, payload) + more).0 == Err(BadMagic)
    ensures Read(LAN, Encoded(RELAY, u, payload) + more).0 == Err(BadMagic)
  {
    BothAreLawful();
    hide Encoded, Read, Lawful;
    OtherProtocolIsBadMagic(RELAY, LAN, t, payload, more);
    OtherProtocolIsBadMagic(LAN, RELAY, u, payload, more);
  }
}
