/** A requester written from section 13.8 of IPMI v2.0, by byte positions and code numbers alone: what it
    sends is served as the command it means, and the reply has its fields where that section puts them. */
module Requester {
  import opened Options
  import opened Wire
  import opened Crypto
  import opened Power
  import opened Sessions
  import opened Rmcp
  import opened Packets
  import opened Handshake
  import opened Replies
  import Ipmi

  // ---------- requests and replies ----------

  type u6 = x: int | 0 <= x < 64
  type u2 = x: int | 0 <= x < 4

  /** A request: responder and requester addresses with their LUNs, network function, sequence number,
      command and data. */
  datatype Request = Request(
    responder: byte, responderLun: u2, netFn: u6,
    requester: byte, requesterLun: u2, number: u6,
    command: byte, data: Bytes)

  /** The request on the wire. The server reads neither checksum, so they may be anything. */
  function Encoded(q: Request, headSum: byte, bodySum: byte): (r: Bytes)
    ensures |r| == 7 + |q.data|
  {
    [q.responder, 4 * q.netFn + q.responderLun, headSum, q.requester, 4 * q.number + q.requesterLun, q.command]
    + q.data + [bodySum]
  }

  /** The reply on the wire: addresses and LUNs exchanged, the odd network function, sequence number and
      command as sent, a completion code before the data, and both checksums right. */
  predicate IsReply(b: Bytes, q: Request, code: byte, data: Bytes) {
    && |b| == 8 + |data|
    && b[0] == q.requester && b[1] == 4 * (q.netFn + 1) + q.requesterLun
    && b[3] == q.responder && b[4] == 4 * q.number + q.responderLun
    && b[5] == q.command && b[6] == code && b[7..7 + |data|] == data
    && (b[0] as int + b[1] + b[2]) % 0x100 == 0 && Ipmi.Sum(b[3..]) % 0x100 == 0
  }

  // ---------- what the commands mean ----------

  /** Completion code and data of the answer, the machine afterwards, and the session that was closed. */
  datatype Answer = Answer(code: byte, data: Bytes, machine: MachineState, close: Option<u32>)

  /** The session id of a Close Session, least significant byte first. */
  function IdIn(data: Bytes): u32
    requires |data| >= 4
  {
    data[0] as int + 0x100 * data[1] as int + 0x1_0000 * data[2] as int + 0x100_0000 * data[3] as int
  }

  /** The App commands, network function 6: Get Channel Authentication Capabilities is 0x38, Set Session
      Privilege Level 0x3b, Close Session 0x3c. */
  function AppAnswer(machine: MachineState, q: Request): Answer {
    if q.command == 0x38 && |q.data| >= 2 then Answer(0, [1, 0x87, 6, 2, 0, 0, 0, 0], machine, None)
    else if q.command == 0x3b && |q.data| >= 1 then Answer(0, [q.data[0]], machine, None)
    else if q.command == 0x3c && |q.data| >= 4 then
      Answer(0, [], machine, Some(IdIn(q.data)))
    else Answer(0xd5, [], machine, None)
  }

  /** The Chassis commands, network function 0: Get Chassis Status is 1, Chassis Control 2. */
  function ChassisAnswer(machine: MachineState, q: Request): Answer {
    if q.command == 1 then
      var asked := machine.Reacted(machine.status);
      if !machine.Obeys() then Answer(0xd5, [], asked, None)
      else Answer(0, [if machine.status == On || machine.status == PoweringOn then 1 else 0, 0, 0, 0], asked, None)
    else if q.command == 2 && |q.data| >= 1 then
      var e := Control(machine, q.data[0]);
      Answer(if e.verdict.Granted? then 0 else 0xd5, [], e.machine, None)
    else Answer(0xd5, [], machine, None)
  }

  /** None for every other network function: no reply, no effect. */
  function AnswerTo(machine: MachineState, q: Request): Option<Answer> {
    if q.netFn == 6 then Some(AppAnswer(machine, q))
    else if q.netFn == 0 then Some(ChassisAnswer(machine, q))
    else None
  }

  ghost predicate ServedAs(v: Ipmi.Served, machine: MachineState, q: Request) {
    match AnswerTo(machine, q)
    case None => v == Ipmi.Served(None, machine, None)
    case Some(a) =>
      && v.reply.Some? && IsReply(v.reply.value, q, a.code, a.data)
      && v.machine == a.machine && v.close == a.close
  }

  // ---------- the server against it ----------

  /** The message that the server reads in a request. */
  function Read(q: Request, headSum: byte, bodySum: byte): Ipmi.Message {
    Ipmi.Message(q.responder, 4 * q.netFn + q.responderLun, headSum, q.requester, 4 * q.number + q.requesterLun,
                 q.command, 0, q.data, bodySum)
  }

  lemma RequestRead(q: Request, headSum: byte, bodySum: byte, tail: Bytes)
    ensures Ipmi.Parse(Encoded(q, headSum, bodySum) + tail, 7 + |q.data|) == Some(Read(q, headSum, bodySum))
  {
    var b := Encoded(q, headSum, bodySum) + tail;
    assert b[6..6 + |q.data|] == q.data;
  }

  lemma CloseReads(data: Bytes)
    requires |data| >= 4
    ensures Ipmi.CloseTarget(data) == Some(IdIn(data))
  {
    LittleEndian(data[0], data[1], data[2], data[3]);
    assert data[..4] == [data[0], data[1], data[2], data[3]];
  }

  /** Where the fields of a response are printed. */
  lemma ResponseAt(m: Ipmi.Message)
    requires Ipmi.IsResponse(m.targetLun)
    ensures var r := Ipmi.Print(m);
            && |r| == 8 + |m.data| && r[0] == m.target && r[1] == m.targetLun && r[3] == m.source
            && r[4] == m.sourceLun && r[5] == m.command && r[6] == m.completion && r[7..7 + |m.data|] == m.data
  {
  }

  lemma BitFields(high: u6, low: u2)
    ensures (4 * high + low) / 4 == high && (4 * high + low) % 4 == low
  {
  }

  lemma HeadSum(r: Bytes)
    requires |r| >= 3
    ensures Ipmi.Sum(r[..3]) == r[0] as int + r[1] + r[2]
  {
    Ipmi.SumOfThree(r[0], r[1], r[2]);
    assert r[..3] == [r[0], r[1], r[2]];
  }

  lemma ReplyPrinted(q: Request, headSum: byte, bodySum: byte, served: Option<Bytes>)
    requires q.netFn < 63 && q.netFn % 2 == 0
    ensures IsReply(Ipmi.ReplyTo(Read(q, headSum, bodySum), q.netFn, served), q,
                    if served.Some? then 0 else 0xd5, if served.Some? then served.value else [])
  {
    hide Ipmi.Print, Ipmi.Sum, Ipmi.Checksum;
    var m := Read(q, headSum, bodySum);
    var data := if served.Some? then served.value else [];
    var code := if served.Some? then 0 else 0xd5;
    var t := Ipmi.Template(m, q.netFn + 1, code).(data := data);
    BitFields(q.number, q.requesterLun);
    BitFields(q.netFn, q.responderLun);
    BitFields(q.netFn + 1, q.requesterLun);
    Ipmi.ChecksumsAddUp(t);
    ResponseAt(Ipmi.Summed(t));
    HeadSum(Ipmi.Print(Ipmi.Summed(t)));
  }

  /** For every request, whatever its bytes and checksums and whatever follows it, and every machine: the
      server serves the command that its code numbers mean, and the reply is laid out as above. */
  lemma RequestServed(machine: MachineState, q: Request, headSum: byte, bodySum: byte, tail: Bytes)
    ensures var m := Ipmi.Parse(Encoded(q, headSum, bodySum) + tail, 7 + |q.data|);
            m.Some? && ServedAs(Ipmi.Serve(machine, m.value), machine, q)
  {
    hide IsReply, Ipmi.ReplyTo, Ipmi.Parse, Encoded, Control;
    RequestRead(q, headSum, bodySum, tail);
    var m := Read(q, headSum, bodySum);
    assert Ipmi.NetFn(m) == q.netFn;
    if |q.data| >= 4 {
      CloseReads(q.data);
    }
    if q.netFn == 6 || q.netFn == 0 {
      ReplyPrinted(q, headSum, bodySum, Ipmi.ServedData(machine, m));
    }
  }

  // ---------- a v1.5 exchange ----------

  /** The bytes of an authentication code: 16 when the session id is not 0, and none when it is. */
  function CodeLen(id: Bytes): nat {
    if id == [0, 0, 0, 0] then 0 else 16
  }

  /** A v1.5 packet: RMCP header of class 7, authentication type 0, sequence number, session id, code,
      message length, message. */
  function PlainPacket(rmcp: Bytes, sequence: Bytes, id: Bytes, code: Bytes, message: Bytes): Bytes
    requires |message| <= 0xff
  {
    rmcp + [7, 0] + sequence + id + code + [|message|] + message
  }

  /** Its reply, in the same format and with a code of zeros. */
  predicate IsPlainReply(b: Bytes, sequence: Bytes, id: Bytes, q: Request, a: Answer) {
    var n := CodeLen(id);
    && |b| == 14 + n + 8 + |a.data|
    && b[..5] == [6, 0, 0xff, 7, 0] && b[5..9] == sequence && b[9..13] == id
    && (forall i :: 13 <= i < 13 + n ==> b[i] == 0)
    && b[13 + n] as int == 8 + |a.data|
    && IsReply(b[14 + n..], q, a.code, a.data)
  }

  lemma LE32OfBytes(b: Bytes)
    requires |b| == 4
    ensures LE32(FromLE32(b)) == b && (FromLE32(b) == 0 <==> b == [0, 0, 0, 0])
  {
    LittleEndian(b[0], b[1], b[2], b[3]);
    LittleEndian(0, 0, 0, 0);
    assert b == [b[0], b[1], b[2], b[3]];
  }

  lemma WrapperRead(sequence: Bytes, id: Bytes, code: Bytes, len: byte, rest: Bytes)
    requires |sequence| == |id| == 4 && |code| == CodeLen(id)
    ensures ParseWrapper(sequence + id + code + [len] + rest) ==
            Some((Wrapper(FromLE32(sequence), FromLE32(id), len), rest))
  {
    hide FromLE32;
    LE32OfBytes(id);
    var b := sequence + id + code + [len] + rest;
    var n := 8 + |code|;
    assert b[..4] == sequence && b[4..8] == id && b[n] == len && b[n + 1..] == rest;
  }

  lemma WrapperPrinted(sequence: Bytes, id: Bytes, len: byte, res: Bytes)
    requires |sequence| == |id| == 4
    ensures var b := RMCP_REPLY_HEADER + (PrintWrapper(Wrapper(FromLE32(sequence), FromLE32(id), len)) + res);
            var n := CodeLen(id);
            && |b| == 14 + n + |res| && b[..5] == [6, 0, 0xff, 7, 0] && b[5..9] == sequence && b[9..13] == id
            && (forall i :: 13 <= i < 13 + n ==> b[i] == 0) && b[13 + n] == len && b[14 + n..] == res
  {
    hide FromLE32, LE32;
    LE32OfBytes(sequence);
    LE32OfBytes(id);
  }

  /** The effect of an answer on the whole BMC. */
  ghost predicate Took(s: Bmc, next: Bmc, a: Answer) {
    && next.users == s.users && next.machine == a.machine
    && next.sessions == (if a.close.None? then s.sessions else s.sessions - {a.close.value})
  }

  /** Every request in the v1.5 format is answered as it means, byte for byte, in every state. */
  lemma PlainExchange(c: Suite, s: Bmc, rmcp: Bytes, sequence: Bytes, id: Bytes, code: Bytes,
                      q: Request, headSum: byte, bodySum: byte, x: Bytes)
    requires |rmcp| == 3 && |sequence| == |id| == 4 && |code| == CodeLen(id) && |q.data| <= 0xf8
    ensures var step := Handle(c, s, PlainPacket(rmcp, sequence, id, code, Encoded(q, headSum, bodySum)) + x);
            match AnswerTo(s.machine, q)
            case None => step == Fail(s, UnsupportedNetFn)
            case Some(a) =>
              Took(s, step.next, a) && step.out.Reply? && IsPlainReply(step.out.bytes, sequence, id, q, a)
  {
    hide IsReply, Ipmi.Serve, Ipmi.Parse, AnswerTo, ParseWrapper, PrintWrapper, Encoded, FromLE32, Handle;
    var message := Encoded(q, headSum, bodySum);
    var b := PlainPacket(rmcp, sequence, id, code, message) + x;
    assert b[3] == CLASS_IPMI && b[4] == AUTH_NONE;
    assert b[5..] == sequence + id + code + [|message|] + (message + x);
    WrapperRead(sequence, id, code, |message|, message + x);
    RequestServed(s.machine, q, headSum, bodySum, x);
    Handled15(c, s, b);
    var m := Ipmi.Parse(message + x, |message|).value;
    var v := Ipmi.Serve(s.machine, m);
    if v.reply.Some? {
      AnswersAreShort(s.machine, q);
      var a := AnswerTo(s.machine, q).value;
      ReplySize(v.reply.value, q, a.code, a.data);
      WrapperPrinted(sequence, id, |v.reply.value| % 0x100, v.reply.value);
    }
  }

  lemma ReplySize(b: Bytes, q: Request, code: byte, data: Bytes)
    requires IsReply(b, q, code, data)
    ensures |b| == 8 + |data|
  {
  }

  lemma AnswersAreShort(machine: MachineState, q: Request)
    ensures AnswerTo(machine, q).Some? ==> |AnswerTo(machine, q).value.data| <= 8
    ensures AnswerTo(machine, q).Some? ==>
              (|AnswerTo(machine, q).value.data| == 8 <==> q.netFn == 6 && q.command == 0x38 && |q.data| >= 2)
    ensures AnswerTo(machine, q).Some? && |AnswerTo(machine, q).value.data| < 8 ==>
              |AnswerTo(machine, q).value.data| <= 4
  {
    hide Control;
  }

  // ---------- an encrypted exchange ----------

  /** An encrypted reply to a console: payload type 0xc0, the console's session id, the sequence number of
      the request, 32 bytes of payload sealed under K2, pad and trailer, and the integrity code under K1. */
  ghost predicate IsSealedReply(c: Suite, keys: Keys, iv: Bytes16, consoleId: u32, sequence: u32, b: Bytes,
                                plain: Bytes)
    requires |keys.k2| >= 16
  {
    && |b| == 64 && b[..6] == [6, 0, 0xff, 7, 6, 0xc0]
    && b[6..10] == LE32(consoleId) && b[10..14] == LE32(sequence) && b[14..16] == [32, 0]
    && IsSealing(c, keys.k2[..16], iv, plain, b[16..48])
    && b[48..52] == [0xff, 0xff, 2, 7] && b[52..] == c.hmac(keys.k1, b[4..52])[..12]
  }

  lemma SealedReplyLaidOut(c: Suite, keys: Keys, iv: Bytes16, consoleId: u32, sequence: u32, plain: Bytes)
    requires |keys.k2| >= 16 && |plain| <= 15
    ensures var packet := Authenticated(consoleId, sequence, SealUnder(c, keys.k2[..16], iv, plain));
            IsSealedReply(c, keys, iv, consoleId, sequence,
                          RMCP_REPLY_HEADER + (packet + IntegrityData(c, keys.k1, packet)), plain)
  {
    hide SealUnder, IsSealing, LE32;
    var sealed := SealUnder(c, keys.k2[..16], iv, plain);
    var packet := Authenticated(consoleId, sequence, sealed);
    var b := RMCP_REPLY_HEADER + (packet + IntegrityData(c, keys.k1, packet));
    SealingIff(c, keys.k2[..16], iv, plain, sealed);
    LittleEndian(32, 0, 0, 0);
    assert |packet| == 48 && |b| == 64;
    assert b[4..52] == packet && b[52..] == IntegrityData(c, keys.k1, packet);
    assert b[16..48] == packet[12..44] == sealed;
  }

  /** What an encrypted packet with request q leads to: no reply when the network function is not served or
      the random source is dry, a panic when the answer needs two blocks, and otherwise the sealed answer. */
  ghost predicate SealedOutcome(c: Suite, s: Bmc, id: u32, sequence: u32, q: Request, step: Step)
    requires id in s.sessions && |s.sessions[id].keys.k2| >= 16
  {
    var v := s.sessions[id];
    match AnswerTo(s.machine, q)
    case None => step.next == s && step.out == Failed(UnsupportedNetFn)
    case Some(a) =>
      && Took(s, step.next, a)
      && if |s.random| < 16 then step.out == Failed(NoRandom)
         else if q.netFn == 6 && q.command == 0x38 && |q.data| >= 2 then step.out == Fault
         else
           && step.out.Reply?
           && exists plain :: IsReply(plain, q, a.code, a.data) &&
                IsSealedReply(c, v.keys, HexPrefix(s.random[..16]), v.consoleId, sequence, step.out.bytes, plain)
  }

  lemma DispatchOutcome(c: Suite, s: Bmc, h: Rmcp.Header, q: Request, m: Ipmi.Message)
    requires h.sessionId in s.sessions && |s.sessions[h.sessionId].keys.k2| >= 16
    requires ServedAs(Ipmi.Serve(s.machine, m), s.machine, q)
    ensures var step := Dispatch(c, s, h, m);
            SealedOutcome(c, s, h.sessionId, h.sequence, q, step.(out := Framed(step.out)))
  {
    hide IsReply, IsSealedReply, Ipmi.Serve, AnswerTo, SealUnder, Authenticated, IntegrityData, HexPrefix;
    var v := Ipmi.Serve(s.machine, m);
    if v.reply.Some? {
      var a := AnswerTo(s.machine, q).value;
      var plain := v.reply.value;
      ReplySize(plain, q, a.code, a.data);
      AnswersAreShort(s.machine, q);
      if |s.random| >= 16 && |plain| <= 15 {
        var sv := s.sessions[h.sessionId];
        SealedReplyLaidOut(c, sv.keys, HexPrefix(s.random[..16]), sv.consoleId, h.sequence, plain);
      }
    }
  }

  /** A request of at most 8 data bytes, sealed as a console seals it and sent in a session that has keys,
      is answered as it means, byte for byte. */
  lemma SealedExchange(c: Suite, s: Bmc, id: u32, sequence: u32, iv: Bytes16,
                       q: Request, headSum: byte, bodySum: byte, sealed: Bytes, x: Bytes)
    requires c.Invertible() && |q.data| <= 8
    requires id in s.sessions && s.sessions[id].transcript.userName in s.users && |s.sessions[id].keys.k2| >= 16
    requires IsSealing(c, s.sessions[id].keys.k2[..16], iv, Encoded(q, headSum, bodySum), sealed)
    ensures |sealed| == 32
    ensures SealedOutcome(c, s, id, sequence, q, Handle(c, s, SessionPacket(0xc0, id, sequence, sealed) + x))
  {
    hide Handle, Dispatch, Ipmi.Parse, Ipmi.Serve, IsSealing, SealUnder, SessionPacket, SealedOutcome, ServedAs,
      Encoded;
    var plain := Encoded(q, headSum, bodySum);
    SealingIff(c, s.sessions[id].keys.k2[..16], iv, plain, sealed);
    RequestServed(s.machine, q, headSum, bodySum, []);
    assert plain + [] == plain && plain[..|plain| % 16] == plain;
    CommandUnderstood(c, s, id, sequence, iv, plain, x);
    DispatchOutcome(c, s, Rmcp.Header(0xc0, id, sequence, 32), q, Seen(plain).value);
  }
}
