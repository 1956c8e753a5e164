/** What one received buffer does to the BMC, as a function: RMCP class dispatch, the v1.5 and v2.0
    session formats, Open Session, RAKP 1 and 3, and encrypted commands. Every step also reports the
    protocol events it caused; they are the history that the run properties speak about. */
module Rmcp {
  import opened Options
  import opened Wire
  import opened Crypto
  import opened Power
  import opened Sessions
  import Ipmi

  const CLASS_IPMI: byte := 0x07
  const AUTH_NONE: byte := 0x00
  const AUTH_RMCP_PLUS: byte := 0x06

  const PAYLOAD_OPEN_REQUEST: byte := 0x10
  const PAYLOAD_OPEN_RESPONSE: byte := 0x11
  const PAYLOAD_RAKP1: byte := 0x12
  const PAYLOAD_RAKP2: byte := 0x13
  const PAYLOAD_RAKP3: byte := 0x14
  const PAYLOAD_RAKP4: byte := 0x15
  const PAYLOAD_ENCRYPTED: byte := 0xc0

  datatype Error =
    | ShortRead
    | UnsupportedClass
    | UnsupportedAuthType
    | UnsupportedPayload
    | NoSession
    | NoUser
    | AuthFailed
    | NoRandom
    | BadPayloadSize
    | UnsupportedNetFn

  /** A reply is sent; or the request is dropped with a logged error; or the Go code panics. */
  datatype Outcome = Reply(bytes: Bytes) | Failed(error: Error) | Fault

  datatype Event =
    | Opened(id: u32, consoleId: u32)
    | Challenged(id: u32, t: Transcript)
    | Keyed(id: u32, t: Transcript, code: Bytes20)
    | Dispatched(id: u32, message: Ipmi.Message)
    | Closed(id: u32)

  datatype Bmc = Bmc(
    sessions: map<u32, SessionValue>,
    users: map<Bytes, Bytes>,
    machine: MachineState,
    random: Bytes)

  datatype Step = Step(next: Bmc, out: Outcome, events: seq<Event>)

  function Fail(s: Bmc, e: Error): Step {
    Step(s, Failed(e), [])
  }

  // ---------- authentication codes and keys ----------

  function Rakp2Input(consoleId: u32, managedId: u32, t: Transcript): Bytes {
    LE32(consoleId) + LE32(managedId) + t.consoleRandom + t.managedRandom + t.guid
    + [t.privilege, t.userNameLength] + t.userName
  }

  function Rakp3Input(consoleId: u32, t: Transcript): Bytes {
    t.managedRandom + LE32(consoleId) + [t.privilege, t.userNameLength] + t.userName
  }

  function SikInput(t: Transcript): Bytes {
    t.consoleRandom + t.managedRandom + [t.privilege, t.userNameLength] + t.userName
  }

  function CheckInput(managedId: u32, t: Transcript): Bytes {
    t.consoleRandom + LE32(managedId) + t.guid
  }

  /** Section 13.32 of IPMI v2.0: the constant of K1 or K2, 20 times. */
  function Repeated(b: byte): (r: Bytes)
    ensures |r| == 20
  {
    seq(20, _ => b)
  }

  function Sik(c: Suite, password: Bytes, t: Transcript): Bytes {
    c.hmac(password, SikInput(t))
  }

  function KeyingMaterial(c: Suite, sik: Bytes, b: byte): Bytes {
    c.hmac(sik, Repeated(b))
  }

  function CheckValue(c: Suite, sik: Bytes, managedId: u32, t: Transcript): (r: Bytes)
    ensures |r| == 12
  {
    c.hmac(sik, CheckInput(managedId, t))[..12]
  }

  function IntegrityData(c: Suite, k1: Bytes, data: Bytes): (r: Bytes)
    ensures |r| == 12
  {
    c.hmac(k1, data)[..12]
  }

  function DerivedKeys(c: Suite, sik: Bytes): Keys {
    Keys(sik, KeyingMaterial(c, sik, 1), KeyingMaterial(c, sik, 2))
  }

  // ---------- RMCP+ structures ----------

  datatype Header = Header(payloadType: byte, sessionId: u32, sequence: u32, payloadLen: u16)

  function ParseHeader(b: Bytes): Header
    requires |b| == 11
  {
    Header(b[0], FromLE32(b[1..5]), FromLE32(b[5..9]), FromLE16(b[9..11]))
  }

  /** The session header of a reply, with its authentication type byte. */
  function PrintHeader(h: Header): (r: Bytes)
    ensures |r| == 12
  {
    [AUTH_RMCP_PLUS, h.payloadType] + LE32(h.sessionId) + LE32(h.sequence) + LE16(h.payloadLen)
  }

  datatype OpenRequest = OpenRequest(tag: byte, consoleId: u32)

  function ParseOpen(b: Bytes): OpenRequest
    requires |b| == 32
  {
    OpenRequest(b[0], FromLE32(b[4..8]))
  }

  function PrintOpenResponse(tag: byte, consoleId: u32, managedId: u32): (r: Bytes)
    ensures |r| == 36
  {
    [tag, 0, 0x04, 0] + LE32(consoleId) + LE32(managedId)
    + [0, 0, 0, 8, 1, 0, 0, 0]
    + [1, 0, 0, 8, 1, 0, 0, 0]
    + [2, 0, 0, 8, 1, 0, 0, 0]
  }

  /** userName is the whole 20-byte field; only its first userNameLength bytes mean something. */
  datatype Rakp1 = Rakp1(
    tag: byte,
    managedId: u32,
    consoleRandom: Bytes16,
    privilege: byte,
    userNameLength: byte,
    userName: Bytes20)

  function ParseRakp1(b: Bytes): Rakp1
    requires |b| == 48
  {
    Rakp1(b[0], FromLE32(b[4..8]), b[8..24], b[24], b[27], b[28..48])
  }

  function PrintRakp2(tag: byte, consoleId: u32, t: Transcript, code: Bytes20): (r: Bytes)
    ensures |r| == 60
  {
    [tag, 0, 0, 0] + LE32(consoleId) + t.managedRandom + t.guid + code
  }

  datatype Rakp3 = Rakp3(tag: byte, managedId: u32, code: Bytes20)

  function ParseRakp3(b: Bytes): Rakp3
    requires |b| == 28
  {
    Rakp3(b[0], FromLE32(b[4..8]), b[8..28])
  }

  function PrintRakp4(tag: byte, consoleId: u32, check: Bytes): (r: Bytes)
    requires |check| == 12
    ensures |r| == 20
  {
    [tag, 0, 0, 0] + LE32(consoleId) + check
  }

  // ---------- Open Session ----------

  function Open(s: Bmc, p: OpenRequest): Step {
    match FreshId(s.sessions.Keys, s.random)
    case None => Step(s.(random := []), Failed(NoRandom), [])
    case Some((id, rest)) =>
      Step(s.(sessions := s.sessions[id := Blank(p.consoleId, id)], random := rest),
           Reply(PrintHeader(Header(PAYLOAD_OPEN_RESPONSE, 0, 0, 36)) + PrintOpenResponse(p.tag, p.consoleId, id)),
           [Opened(id, p.consoleId)])
  }

  function HandleOpen(s: Bmc, b: Bytes): Step {
    if |b| < 32 then Fail(s, ShortRead) else Open(s, ParseOpen(b[..32]))
  }

  // ---------- RAKP 1 and 2 ----------

  function Challenge(c: Suite, s: Bmc, tag: byte, id: u32, t: Transcript, rest: Bytes): Step
    requires id in s.sessions && t.userName in s.users
  {
    var v := s.sessions[id];
    var code := c.hmac(s.users[t.userName], Rakp2Input(v.consoleId, v.managedId, t));
    Step(s.(sessions := s.sessions[id := v.(transcript := t)], random := rest),
         Reply(PrintHeader(Header(PAYLOAD_RAKP2, 0, 0, 60)) + PrintRakp2(tag, v.consoleId, t, code)),
         [Challenged(id, t)])
  }

  function AcceptRakp1(c: Suite, s: Bmc, p: Rakp1): Step {
    if p.managedId !in s.sessions then Fail(s, NoSession)
    else if p.userNameLength > 20 then Step(s, Fault, [])
    else
      var name := p.userName[..p.userNameLength];
      if name !in s.users then Fail(s, NoUser)
      else if |s.random| < 32 then Step(s.(random := []), Failed(NoRandom), [])
      else
        var t := Transcript(p.consoleRandom, HexPrefix(s.random[..16]), HexPrefix(s.random[16..32]),
                            p.privilege, name, p.userNameLength);
        Challenge(c, s, p.tag, p.managedId, t, s.random[32..])
  }

  function HandleRakp1(c: Suite, s: Bmc, b: Bytes): Step {
    if |b| < 48 then Fail(s, ShortRead) else AcceptRakp1(c, s, ParseRakp1(b[..48]))
  }

  // ---------- RAKP 3 and 4 ----------

  function AcceptRakp3(c: Suite, s: Bmc, p: Rakp3): Step {
    if p.managedId !in s.sessions then Fail(s, NoSession)
    else
      var v := s.sessions[p.managedId];
      var t := v.transcript;
      if t.userName !in s.users then Fail(s, NoUser)
      else if p.code != c.hmac(s.users[t.userName], Rakp3Input(v.consoleId, t)) then Fail(s, AuthFailed)
      else
        var sik := Sik(c, s.users[t.userName], t);
        Step(s.(sessions := s.sessions[p.managedId := v.(keys := DerivedKeys(c, sik))]),
             Reply(PrintHeader(Header(PAYLOAD_RAKP4, 0, 0, 20))
                   + PrintRakp4(p.tag, v.consoleId, CheckValue(c, sik, v.managedId, t))),
             [Keyed(p.managedId, t, p.code)])
  }

  function HandleRakp3(c: Suite, s: Bmc, b: Bytes): Step {
    if |b| < 28 then Fail(s, ShortRead) else AcceptRakp3(c, s, ParseRakp3(b[..28]))
  }

  // ---------- encrypted commands ----------

  function Without(m: map<u32, SessionValue>, close: Option<u32>): map<u32, SessionValue> {
    if close.None? then m else m - {close.value}
  }

  function CloseEvents(s: Bmc, close: Option<u32>): seq<Event> {
    if close.Some? && close.value in s.sessions then [Closed(close.value)] else []
  }

  /** The state after an IPMI message, and the session it closed if it was there. */
  function AfterCommand(s: Bmc, v: Ipmi.Served): Bmc {
    s.(machine := v.machine, sessions := Without(s.sessions, v.close))
  }

  /** The reply packet around a ciphered IPMI reply: header, payload, 2-byte pad, trailer. */
  function Authenticated(consoleId: u32, sequence: u32, ciphered: Bytes): Bytes {
    PrintHeader(Header(PAYLOAD_ENCRYPTED, consoleId, sequence, |ciphered| % 0x1_0000))
    + ciphered + [0xff, 0xff, 2, 7]
  }

  function SealedReply(c: Suite, s: Bmc, v: SessionValue, sequence: u32, reply: Bytes, events: seq<Event>): Step {
    if |v.keys.k2| < 16 then Step(s, Fault, events)
    else if |s.random| < 16 then Step(s.(random := []), Failed(NoRandom), events)
    else
      var s' := s.(random := s.random[16..]);
      var sealed := Encrypt(c, v.keys.k2, HexPrefix(s.random[..16]), reply);
      if !sealed.Data? then Step(s', Fault, events)
      else
        var packet := Authenticated(v.consoleId, sequence, sealed.bytes);
        Step(s', Reply(packet + IntegrityData(c, v.keys.k1, packet)), events)
  }

  function Dispatch(c: Suite, s: Bmc, h: Header, m: Ipmi.Message): Step
    requires h.sessionId in s.sessions
  {
    var v := Ipmi.Serve(s.machine, m);
    var events := [Dispatched(h.sessionId, m)] + CloseEvents(s, v.close);
    if v.reply.None? then Step(AfterCommand(s, v), Failed(UnsupportedNetFn), events)
    else SealedReply(c, AfterCommand(s, v), s.sessions[h.sessionId], h.sequence, v.reply.value, events)
  }

  function HandleEncrypted(c: Suite, s: Bmc, h: Header, b: Bytes): Step {
    if h.sessionId !in s.sessions then Fail(s, NoSession)
    else if s.sessions[h.sessionId].transcript.userName !in s.users then Fail(s, NoUser)
    else if |b| < h.payloadLen then Fail(s, ShortRead)
    else
      match Decrypt(c, s.sessions[h.sessionId].keys.k2, b[..h.payloadLen])
      case BadSize => Fail(s, BadPayloadSize)
      case Panic => Step(s, Fault, [])
      case Data(plain) =>
        match Ipmi.Parse(plain, |plain|)
        case None => Fail(s, ShortRead)
        case Some(m) => Dispatch(c, s, h, m)
  }

  // ---------- v2.0 format ----------

  predicate IsEncrypted(h: Header) {
    h.payloadType / 64 == 3
  }

  function HandlePlus(c: Suite, s: Bmc, h: Header, b: Bytes): Step {
    if IsEncrypted(h) then HandleEncrypted(c, s, h, b)
    else
      var kind := h.payloadType % 64;
      if kind == PAYLOAD_OPEN_REQUEST then HandleOpen(s, b)
      else if kind == PAYLOAD_RAKP1 then HandleRakp1(c, s, b)
      else if kind == PAYLOAD_RAKP3 then HandleRakp3(c, s, b)
      else Fail(s, UnsupportedPayload)
  }

  // ---------- v1.5 format ----------

  datatype Wrapper = Wrapper(sequence: u32, sessionId: u32, messageLen: byte)

  /** Bytes of the authentication code: present when the session id is not 0. */
  function AuthCodeLen(sessionId: u32): nat {
    if sessionId != 0 then 16 else 0
  }

  function ParseWrapper(b: Bytes): Option<(Wrapper, Bytes)> {
    if |b| < 8 then None
    else
      var id := FromLE32(b[4..8]);
      var n := 8 + AuthCodeLen(id);
      if |b| <= n then None
      else Some((Wrapper(FromLE32(b[..4]), id, b[n]), b[n + 1..]))
  }

  function PrintWrapper(w: Wrapper): Bytes {
    [AUTH_NONE] + LE32(w.sequence) + LE32(w.sessionId) + Zeros(AuthCodeLen(w.sessionId)) + [w.messageLen]
  }

  function Answer15(s: Bmc, w: Wrapper, m: Ipmi.Message): Step {
    var v := Ipmi.Serve(s.machine, m);
    var events := CloseEvents(s, v.close);
    if v.reply.None? then Step(AfterCommand(s, v), Failed(UnsupportedNetFn), events)
    else
      var res := v.reply.value;
      Step(AfterCommand(s, v), Reply(PrintWrapper(w.(messageLen := |res| % 0x100)) + res), events)
  }

  function Handle15(s: Bmc, b: Bytes): Step {
    match ParseWrapper(b)
    case None => Fail(s, ShortRead)
    case Some((w, rest)) =>
      match Ipmi.Parse(rest, w.messageLen)
      case None => Fail(s, ShortRead)
      case Some(m) => Answer15(s, w, m)
  }

  // ---------- RMCP ----------

  function HandleSession(c: Suite, s: Bmc, authType: byte, b: Bytes): Step {
    if authType == AUTH_RMCP_PLUS then
      if |b| < 11 then Fail(s, ShortRead) else HandlePlus(c, s, ParseHeader(b[..11]), b[11..])
    else if authType == AUTH_NONE then Handle15(s, b)
    else Fail(s, UnsupportedAuthType)
  }

  const RMCP_REPLY_HEADER: Bytes := [0x06, 0x00, 0xff, 0x07]

  function Framed(out: Outcome): Outcome {
    if out.Reply? then Reply(RMCP_REPLY_HEADER + out.bytes) else out
  }

  /** handleRMCPRequest on a received buffer. */
  function Handle(c: Suite, s: Bmc, b: Bytes): Step {
    if |b| < 4 then Fail(s, ShortRead)
    else if b[3] != CLASS_IPMI then Fail(s, UnsupportedClass)
    else if |b| < 5 then Fail(s, ShortRead)
    else
      var r := HandleSession(c, s, b[4], b[5..]);
      r.(out := Framed(r.out))
  }

  // ---------- the receive loop ----------

  const BUFFER_SIZE := 1024

  /** The shared buffer after one datagram: its bytes in front, the previous content behind. */
  function Receive(buf: Bytes, packet: Bytes): (r: Bytes)
    requires |buf| == BUFFER_SIZE
    ensures |r| == BUFFER_SIZE
  {
    if |packet| >= BUFFER_SIZE then packet[..BUFFER_SIZE] else packet + buf[|packet|..]
  }

  /** A run: where it ends, the outcome of every packet handled and the event log. A panic ends it. */
  datatype Run = Run(state: Bmc, buf: Bytes, outs: seq<Outcome>, log: seq<Event>)

  function ServeAll(c: Suite, s: Bmc, buf: Bytes, packets: seq<Bytes>): (r: Run)
    requires |buf| == BUFFER_SIZE
    ensures |r.buf| == BUFFER_SIZE
    decreases |packets|
  {
    if packets == [] then Run(s, buf, [], [])
    else
      var buf' := Receive(buf, packets[0]);
      var step := Handle(c, s, buf');
      if step.out.Fault? then Run(step.next, buf', [Fault], step.events)
      else
        var r := ServeAll(c, step.next, buf', packets[1..]);
        Run(r.state, r.buf, [step.out] + r.outs, step.events + r.log)
  }

  /** A BMC as StartIPMIServer creates it. */
  predicate Initial(s: Bmc) {
    s.sessions == map[] && [] !in s.users
  }
}
