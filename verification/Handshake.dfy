/** A remote console that follows section 13.31 of IPMI v2.0 against the server: it is always accepted,
    both sides end up with the same keys, and commands sent under those keys are understood. */
module Handshake {
  import opened Options
  import opened Wire
  import opened Crypto
  import opened Sessions
  import opened Rmcp
  import opened Runs
  import opened Packets

  // ---------- the console ----------

  datatype Console = Console(id: u32, random: Bytes16, privilege: byte, name: Bytes, password: Bytes, tag: byte)

  /** An RMCP+ packet up to its payload. */
  function SessionPacket(payloadType: byte, sessionId: u32, sequence: u32, payload: Bytes): Bytes
    requires |payload| < 0x1_0000
  {
    [6, 0, 0xff, 7, 6, payloadType] + LE32(sessionId) + LE32(sequence) + LE16(|payload|) + payload
  }

  /** A packet outside a session, as the handshake uses. By section 13.27.3 the payload types are 0x10 and
      0x11 for Open Session and its response, and 0x12 to 0x15 for RAKP 1 to 4. */
  function Packet(payloadType: byte, payload: Bytes): Bytes
    requires |payload| < 0x1_0000
  {
    SessionPacket(payloadType, 0, 0, payload)
  }

  /** RAKP-HMAC-SHA1, HMAC-SHA1-96 and AES-CBC-128, as Open Session proposes and confirms them. */
  const ALGORITHMS: Bytes := [0, 0, 0, 8, 1, 0, 0, 0] + [1, 0, 0, 8, 1, 0, 0, 0] + [2, 0, 0, 8, 1, 0, 0, 0]

  function OpenPayload(con: Console): (r: Bytes)
    ensures |r| == 32
  {
    [con.tag, 0, 0, 0] + LE32(con.id) + ALGORITHMS
  }

  /** RAKP 1 carries the name alone, not padded to 20 bytes. */
  function Rakp1Payload(con: Console, id: u32): (r: Bytes)
    requires |con.name| <= 20
    ensures |r| == 28 + |con.name|
  {
    [con.tag, 0, 0, 0] + LE32(id) + con.random + [con.privilege, 0, 0, |con.name|] + con.name
  }

  function Rakp3Payload(con: Console, id: u32, code: Bytes20): (r: Bytes)
    ensures |r| == 28
  {
    [con.tag, 0, 0, 0] + LE32(id) + code
  }

  /** The codes and keys the console computes from what it sent and what it received. */
  function ConsoleRakp2Code(c: Suite, con: Console, id: u32, managedRandom: Bytes, guid: Bytes): Bytes20
    requires |con.name| <= 20
  {
    c.hmac(con.password,
           LE32(con.id) + LE32(id) + con.random + managedRandom + guid + [con.privilege, |con.name|] + con.name)
  }

  function ConsoleRakp3Code(c: Suite, con: Console, managedRandom: Bytes): Bytes20
    requires |con.name| <= 20
  {
    c.hmac(con.password, managedRandom + LE32(con.id) + [con.privilege, |con.name|] + con.name)
  }

  function ConsoleSik(c: Suite, con: Console, managedRandom: Bytes): Bytes20
    requires |con.name| <= 20
  {
    c.hmac(con.password, con.random + managedRandom + [con.privilege, |con.name|] + con.name)
  }

  function ConsoleKeys(c: Suite, con: Console, managedRandom: Bytes): Keys
    requires |con.name| <= 20
  {
    var sik := ConsoleSik(c, con, managedRandom);
    Keys(sik, c.hmac(sik, seq(20, _ => 1)), c.hmac(sik, seq(20, _ => 2)))
  }

  function ConsoleCheckValue(c: Suite, con: Console, sik: Bytes, id: u32, guid: Bytes): Bytes {
    c.hmac(sik, con.random + LE32(id) + guid)[..12]
  }

  /** What the console expects of any handshake reply: framing, payload type, exact length, its own tag,
      status "no errors", and its own session id. */
  predicate Expected(con: Console, b: Bytes, payloadType: byte, n: nat) {
    && n >= 8 && |b| == 16 + n
    && b[..6] == [6, 0, 0xff, 7, 6, payloadType]
    && FromLE16(b[14..16]) == n
    && b[16] == con.tag && b[17] == 0
    && FromLE32(b[20..24]) == con.id
  }

  /** An Open Session response that grants the administrator level and confirms the algorithms. */
  predicate Confirms(b: Bytes)
    requires |b| == 52
  {
    b[18] == 4 && b[28..52] == ALGORITHMS
  }

  // ---------- the exchange ----------

  datatype Stage = Stage(state: Bmc, buf: Bytes)

  predicate Ready(st: Stage) {
    |st.buf| == BUFFER_SIZE
  }

  function Deliver(c: Suite, st: Stage, packet: Bytes): (r: (Stage, Outcome))
    requires Ready(st)
    ensures Ready(r.0)
  {
    var buf := Receive(st.buf, packet);
    var step := Handle(c, st.state, buf);
    (Stage(step.next, buf), step.out)
  }

  function Meanwhile(c: Suite, st: Stage, packets: seq<Bytes>): (r: Stage)
    requires Ready(st)
    ensures Ready(r)
  {
    var run := ServeAll(c, st.state, st.buf, packets);
    Stage(run.state, run.buf)
  }

  /** Other packets that neither stop the server nor open, challenge, key or close session id. Rejected
      attempts on it, and commands sent through it, are allowed. */
  predicate LeavesAlone(c: Suite, st: Stage, packets: seq<Bytes>, id: u32)
    requires Ready(st)
  {
    var run := ServeAll(c, st.state, st.buf, packets);
    && Fault !in run.outs
    && forall k :: 0 <= k < |run.log| ==> !Touches(run.log[k], id)
  }

  /** How an attempt ends: the server or the console refused a message; or someone else interfered, or
      the server's random source failed; or a session with the console's keys. */
  datatype Result =
    | Refused
    | Disturbed
    | Established(id: u32, managedRandom: Bytes16, guid: Bytes16, keys: Keys, after: Stage)

  function Lost(out: Outcome): Result {
    if out == Failed(NoRandom) then Disturbed else Refused
  }

  /** The whole exchange, with packets of others handled after each of its messages. */
  function Connect(c: Suite, con: Console, st: Stage, m1: seq<Bytes>, m2: seq<Bytes>, m3: seq<Bytes>): Result
    requires Ready(st) && |con.name| <= 20
  {
    var (st1, out) := Deliver(c, st, Packet(0x10, OpenPayload(con)));
    if !out.Reply? then Lost(out)
    else if !Expected(con, out.bytes, 0x11, 36) || !Confirms(out.bytes) then Refused
    else
      var id := FromLE32(out.bytes[24..28]);
      if !LeavesAlone(c, st1, m1, id) then Disturbed
      else ConnectOpened(c, con, Meanwhile(c, st1, m1), id, m2, m3)
  }

  function ConnectOpened(c: Suite, con: Console, st: Stage, id: u32, m2: seq<Bytes>, m3: seq<Bytes>): Result
    requires Ready(st) && |con.name| <= 20
  {
    var (st1, out) := Deliver(c, st, Packet(0x12, Rakp1Payload(con, id)));
    if !out.Reply? then Lost(out)
    else if !Expected(con, out.bytes, 0x13, 60) then Refused
    else
      var managedRandom := out.bytes[24..40];
      var guid := out.bytes[40..56];
      if out.bytes[56..76] != ConsoleRakp2Code(c, con, id, managedRandom, guid) then Refused
      else if !LeavesAlone(c, st1, m2, id) then Disturbed
      else ConnectChallenged(c, con, Meanwhile(c, st1, m2), id, managedRandom, guid, m3)
  }

  function ConnectChallenged(c: Suite, con: Console, st: Stage, id: u32,
                             managedRandom: Bytes16, guid: Bytes16, m3: seq<Bytes>): Result
    requires Ready(st) && |con.name| <= 20
  {
    var payload := Rakp3Payload(con, id, ConsoleRakp3Code(c, con, managedRandom));
    var (st1, out) := Deliver(c, st, Packet(0x14, payload));
    if !out.Reply? then Lost(out)
    else if !Expected(con, out.bytes, 0x15, 20) then Refused
    else
      var keys := ConsoleKeys(c, con, managedRandom);
      if out.bytes[24..36] != ConsoleCheckValue(c, con, keys.sik, id, guid) then Refused
      else if !LeavesAlone(c, st1, m3, id) then Disturbed
      else Established(id, managedRandom, guid, keys, Meanwhile(c, st1, m3))
  }

  // ---------- reading the console's packets ----------

  /** The session header of a packet reads back. */
  lemma HeaderRead(t: byte, sessionId: u32, sequence: u32, n: u16, rest: Bytes)
    ensures var d := [t] + (LE32(sessionId) + (LE32(sequence) + (LE16(n) + rest)));
            ParseHeader(d[..11]) == Header(t, sessionId, sequence, n) && d[11..] == rest
  {
    hide LE32, LE16, FromLE32, FromLE16;
    var tail3 := LE16(n) + rest;
    var tail2 := LE32(sequence) + tail3;
    var tail1 := LE32(sessionId) + tail2;
    var d := [t] + tail1;
    assert d[1..] == tail1 && d[5..] == tail2 && d[9..] == tail3;
    var h := d[..11];
    assert h[1..5] == tail1[..4] && h[5..9] == tail2[..4] && h[9..11] == tail3[..2];
    LE32RoundTrip(sessionId);
    LE32RoundTrip(sequence);
    LE16RoundTrip(n);
  }

  lemma PacketParts(t: byte, sessionId: u32, sequence: u32, payload: Bytes, x: Bytes)
    requires |payload| < 0x1_0000
    ensures var b := SessionPacket(t, sessionId, sequence, payload) + x;
            && |b| >= 16 && b[3] == CLASS_IPMI && b[4] == AUTH_RMCP_PLUS
            && ParseHeader(b[5..][..11]) == Header(t, sessionId, sequence, |payload|)
            && b[5..][11..] == payload + x
  {
    hide LE32, LE16, ParseHeader;
    var b := SessionPacket(t, sessionId, sequence, payload) + x;
    var d := [t] + (LE32(sessionId) + (LE32(sequence) + (LE16(|payload|) + (payload + x))));
    assert b == [6, 0, 0xff, 7, 6] + d;
    assert b[5..] == d;
    HeaderRead(t, sessionId, sequence, |payload|, payload + x);
  }

  lemma SessionPacketHandled(c: Suite, s: Bmc, t: byte, sessionId: u32, sequence: u32, payload: Bytes, x: Bytes)
    requires |payload| < 0x1_0000
    ensures var r := HandlePlus(c, s, Header(t, sessionId, sequence, |payload|), payload + x);
            Handle(c, s, SessionPacket(t, sessionId, sequence, payload) + x) == r.(out := Framed(r.out))
  {
    hide HandlePlus, ParseHeader, SessionPacket;
    PacketParts(t, sessionId, sequence, payload, x);
  }

  lemma PacketHandled(c: Suite, s: Bmc, buf: Bytes, t: byte, payload: Bytes)
    requires |buf| == BUFFER_SIZE && |payload| <= 1000
    ensures var r := HandlePlus(c, s, Header(t, 0, 0, |payload|), payload + buf[16 + |payload|..]);
            Handle(c, s, Receive(buf, Packet(t, payload))) == r.(out := Framed(r.out))
  {
    hide HandlePlus, ParseHeader, Handle;
    SessionPacketHandled(c, s, t, 0, 0, payload, buf[16 + |payload|..]);
  }

  lemma OpenPacketParsed(con: Console, x: Bytes)
    ensures ParseOpen((OpenPayload(con) + x)[..32]) == OpenRequest(con.tag, con.id)
  {
  }

  lemma Rakp1Layout(con: Console, id: u32, x: Bytes)
    requires |con.name| <= 20
    ensures var full := Rakp1Payload(con, id) + x;
            && full[0] == con.tag && full[4..8] == LE32(id) && full[8..24] == con.random
            && full[24..28] == [con.privilege, 0, 0, |con.name|] && full[28..] == con.name + x
  {
  }

  lemma Rakp1PacketParsed(con: Console, id: u32, x: Bytes)
    requires |con.name| <= 20 && |x| >= 20
    ensures var p := ParseRakp1((Rakp1Payload(con, id) + x)[..48]);
            && p.tag == con.tag && p.managedId == id && p.consoleRandom == con.random
            && p.privilege == con.privilege && p.userNameLength == |con.name|
            && p.userName[..|con.name|] == con.name
  {
    hide LE32, FromLE32, Rakp1Payload;
    Rakp1Layout(con, id, x);
    LE32RoundTrip(id);
    var full := Rakp1Payload(con, id) + x;
    var b := full[..48];
    assert b[4..8] == full[4..8] && b[8..24] == full[8..24];
    assert b[24] == full[24] && b[27] == full[27];
    assert full[24] == full[24..28][0] && full[27] == full[24..28][3];
    SliceOfSlice(b, 28, 48, |con.name|);
    assert full[28..][..|con.name|] == con.name;
    assert full[28..28 + |con.name|] == full[28..][..|con.name|];
    assert b[28..28 + |con.name|] == full[28..28 + |con.name|];
  }

  lemma Rakp3PacketParsed(con: Console, id: u32, code: Bytes20, x: Bytes)
    ensures ParseRakp3((Rakp3Payload(con, id, code) + x)[..28]) == Rakp3(con.tag, id, code)
  {
  }

  // ---------- reading the server's replies ----------

  lemma PayloadOf(h: Header, payload: Bytes)
    ensures (RMCP_REPLY_HEADER + (PrintHeader(h) + payload))[16..] == payload
  {
  }

  lemma HeaderParts(t: byte, n: u16)
    ensures var h := PrintHeader(Header(t, 0, 0, n));
            h[..2] == [6, t] && FromLE16(h[10..12]) == n
  {
  }

  /** A reply around a payload that starts with the console's tag, status 0 and the console's id. */
  lemma ReplyExpected(con: Console, t: byte, payload: Bytes)
    requires 8 <= |payload| < 0x1_0000
    requires payload[0] == con.tag && payload[1] == 0 && payload[4..8] == LE32(con.id)
    ensures Expected(con, RMCP_REPLY_HEADER + (PrintHeader(Header(t, 0, 0, |payload|)) + payload), t, |payload|)
  {
    hide PrintHeader, LE32, FromLE32, FromLE16;
    var h := PrintHeader(Header(t, 0, 0, |payload|));
    var b := RMCP_REPLY_HEADER + (h + payload);
    PayloadOf(Header(t, 0, 0, |payload|), payload);
    HeaderParts(t, |payload|);
    assert b[..6] == RMCP_REPLY_HEADER + h[..2];
    assert b[14..16] == h[10..12];
    TailSlice(b, 16, 20, 24);
    assert b[16] == b[16..][0] && b[17] == b[16..][1];
    LE32RoundTrip(con.id);
  }

  lemma OpenResponseParts(tag: byte, consoleId: u32, id: u32)
    ensures var p := PrintOpenResponse(tag, consoleId, id);
            && p[0] == tag && p[1] == 0 && p[2] == 4
            && p[4..8] == LE32(consoleId) && p[8..12] == LE32(id) && p[12..36] == ALGORITHMS
  {
    hide LE32;
    SixParts([tag, 0, 0x04, 0], LE32(consoleId), LE32(id),
             [0, 0, 0, 8, 1, 0, 0, 0], [1, 0, 0, 8, 1, 0, 0, 0], [2, 0, 0, 8, 1, 0, 0, 0]);
  }

  lemma SixParts(h: Bytes, x: Bytes, y: Bytes, a: Bytes, b: Bytes, c: Bytes)
    requires |h| == |x| == |y| == 4 && |a| == |b| == |c| == 8
    ensures var p := h + x + y + a + b + c;
            p[..4] == h && p[4..8] == x && p[8..12] == y && p[12..36] == a + b + c
  {
  }

  lemma OpenReplyRead(con: Console, id: u32)
    ensures var b := RMCP_REPLY_HEADER + (PrintHeader(Header(0x11, 0, 0, 36))
                                          + PrintOpenResponse(con.tag, con.id, id));
            && Expected(con, b, 0x11, 36)
            && Confirms(b) && FromLE32(b[24..28]) == id
  {
    hide PrintHeader, PrintOpenResponse, LE32, FromLE32, Expected;
    var payload := PrintOpenResponse(con.tag, con.id, id);
    var h := Header(0x11, 0, 0, 36);
    var b := RMCP_REPLY_HEADER + (PrintHeader(h) + payload);
    PayloadOf(h, payload);
    TailSlice(b, 16, 24, 28);
    TailSlice(b, 16, 28, 52);
    OpenResponseParts(con.tag, con.id, id);
    assert b[18] == b[16..][2] == payload[2];
    LE32RoundTrip(id);
    ReplyExpected(con, 0x11, payload);
  }

  lemma Rakp2ReplyRead(con: Console, t: Transcript, code: Bytes20)
    ensures var b := RMCP_REPLY_HEADER + (PrintHeader(Header(0x13, 0, 0, 60))
                                          + PrintRakp2(con.tag, con.id, t, code));
            && Expected(con, b, 0x13, 60)
            && b[24..40] == t.managedRandom && b[40..56] == t.guid && b[56..76] == code
  {
    hide PrintHeader, LE32, Expected;
    var payload := PrintRakp2(con.tag, con.id, t, code);
    var h := Header(0x13, 0, 0, 60);
    var b := RMCP_REPLY_HEADER + (PrintHeader(h) + payload);
    PayloadOf(h, payload);
    TailSlice(b, 16, 24, 40);
    TailSlice(b, 16, 40, 56);
    TailSlice(b, 16, 56, 76);
    assert payload[4..8] == LE32(con.id);
    assert payload[8..24] == t.managedRandom && payload[24..40] == t.guid && payload[40..60] == code;
    ReplyExpected(con, 0x13, payload);
  }

  lemma Rakp4ReplyRead(con: Console, check: Bytes)
    requires |check| == 12
    ensures var b := RMCP_REPLY_HEADER + (PrintHeader(Header(0x15, 0, 0, 20))
                                          + PrintRakp4(con.tag, con.id, check));
            Expected(con, b, 0x15, 20) && b[24..36] == check
  {
    hide PrintHeader, LE32, Expected;
    var payload := PrintRakp4(con.tag, con.id, check);
    var h := Header(0x15, 0, 0, 20);
    var b := RMCP_REPLY_HEADER + (PrintHeader(h) + payload);
    PayloadOf(h, payload);
    TailSlice(b, 16, 24, 36);
    assert payload[4..8] == LE32(con.id) && payload[8..20] == check;
    ReplyExpected(con, 0x15, payload);
  }

  // ---------- the three stages ----------

  ghost predicate Welcome(users: map<Bytes, Bytes>, con: Console) {
    con.name in users && users[con.name] == con.password && |con.name| <= 20
  }

  lemma OpenAccepted(c: Suite, con: Console, st: Stage)
    requires Ready(st)
    ensures var (st1, out) := Deliver(c, st, Packet(0x10, OpenPayload(con)));
            && st1.state.users == st.state.users
            && (FreshId(st.state.sessions.Keys, st.state.random).Some? ==>
                  && out.Reply? && |out.bytes| == 52
                  && FromLE32(out.bytes[24..28]) == FreshId(st.state.sessions.Keys, st.state.random).value.0
                  && st1.state.random == FreshId(st.state.sessions.Keys, st.state.random).value.1)
            && (out == Failed(NoRandom)
                || (&& out.Reply? && Expected(con, out.bytes, 0x11, 36)
                    && Confirms(out.bytes)
                    && var id := FromLE32(out.bytes[24..28]);
                       Lookup(st1.state.sessions, id) == Some(Blank(con.id, id))))
  {
    hide Handle, ParseOpen, PrintHeader, PrintOpenResponse, Packet, OpenPayload, FromLE32;
    var p := OpenPayload(con);
    PacketHandled(c, st.state, st.buf, 0x10, p);
    OpenPacketParsed(con, st.buf[16 + |p|..]);
    var fresh' := FreshId(st.state.sessions.Keys, st.state.random);
    if fresh'.Some? {
      OpenReplyRead(con, fresh'.value.0);
    }
  }

  /** The transcript both sides agree on after RAKP 2. */
  function Agreed(con: Console, managedRandom: Bytes16, guid: Bytes16): Transcript
    requires |con.name| <= 20
  {
    Transcript(con.random, managedRandom, guid, con.privilege, con.name, |con.name|)
  }

  lemma Rakp1Processed(c: Suite, con: Console, s: Bmc, p: Rakp1, id: u32)
    requires Welcome(s.users, con)
    requires p.tag == con.tag && p.managedId == id && p.consoleRandom == con.random
    requires p.privilege == con.privilege && p.userNameLength == |con.name| && p.userName[..|con.name|] == con.name
    requires id in s.sessions && s.sessions[id].consoleId == con.id && s.sessions[id].managedId == id
    requires |s.random| >= 32
    ensures var t := Agreed(con, HexPrefix(s.random[..16]), HexPrefix(s.random[16..32]));
            && AcceptRakp1(c, s, p) == Challenge(c, s, con.tag, id, t, s.random[32..])
            && c.hmac(s.users[t.userName], Rakp2Input(con.id, id, t)) ==
               ConsoleRakp2Code(c, con, id, t.managedRandom, t.guid)
  {
  }

  /** An RAKP 2 that the console expects, with the code it computes too, and the session as both see it. */
  predicate ChallengedAs(c: Suite, con: Console, id: u32, s: Bmc, b: Bytes)
    requires |con.name| <= 20
  {
    && Expected(con, b, 0x13, 60)
    && b[56..76] == ConsoleRakp2Code(c, con, id, b[24..40], b[40..56])
    && Lookup(s.sessions, id) == Some(SessionValue(con.id, id, Agreed(con, b[24..40], b[40..56]), NO_KEYS))
  }

  lemma Rakp1Accepted(c: Suite, con: Console, st: Stage, id: u32)
    requires Ready(st) && Welcome(st.state.users, con)
    requires Lookup(st.state.sessions, id) == Some(Blank(con.id, id))
    ensures var (st1, out) := Deliver(c, st, Packet(0x12, Rakp1Payload(con, id)));
            && st1.state.users == st.state.users
            && (|st.state.random| >= 32 ==>
                  out.Reply? && |out.bytes| == 76 && out.bytes[24..40] == HexPrefix(st.state.random[..16]))
            && (out == Failed(NoRandom) || (out.Reply? && ChallengedAs(c, con, id, st1.state, out.bytes)))
  {
    hide Handle, ParseRakp1, PrintHeader, PrintRakp2, Packet, Rakp1Payload, HexPrefix, Rakp2Input, ConsoleRakp2Code;
    var s := st.state;
    var payload := Rakp1Payload(con, id);
    PacketHandled(c, s, st.buf, 0x12, payload);
    var x := st.buf[16 + |payload|..];
    Rakp1PacketParsed(con, id, x);
    if |s.random| >= 32 {
      var t := Agreed(con, HexPrefix(s.random[..16]), HexPrefix(s.random[16..32]));
      Rakp1Processed(c, con, s, ParseRakp1((payload + x)[..48]), id);
      Rakp2ReplyRead(con, t, c.hmac(s.users[t.userName], Rakp2Input(con.id, id, t)));
    }
  }

  lemma SameCodes(c: Suite, con: Console, id: u32, t: Transcript)
    requires |con.name| <= 20 && t == Agreed(con, t.managedRandom, t.guid)
    ensures c.hmac(con.password, Rakp3Input(con.id, t)) == ConsoleRakp3Code(c, con, t.managedRandom)
    ensures DerivedKeys(c, Sik(c, con.password, t)) == ConsoleKeys(c, con, t.managedRandom)
    ensures CheckValue(c, Sik(c, con.password, t), id, t) ==
            ConsoleCheckValue(c, con, ConsoleKeys(c, con, t.managedRandom).sik, id, t.guid)
  {
  }

  lemma Rakp3Accepted(c: Suite, con: Console, st: Stage, id: u32, t: Transcript)
    requires Ready(st) && Welcome(st.state.users, con) && t == Agreed(con, t.managedRandom, t.guid)
    requires Lookup(st.state.sessions, id) == Some(SessionValue(con.id, id, t, NO_KEYS))
    ensures var packet := Packet(0x14, Rakp3Payload(con, id, ConsoleRakp3Code(c, con, t.managedRandom)));
            var keys := ConsoleKeys(c, con, t.managedRandom);
            var (st1, out) := Deliver(c, st, packet);
            && st1.state.users == st.state.users
            && out.Reply? && Expected(con, out.bytes, 0x15, 20)
            && out.bytes[24..36] == ConsoleCheckValue(c, con, keys.sik, id, t.guid)
            && Lookup(st1.state.sessions, id) == Some(SessionValue(con.id, id, t, keys))
  {
    hide Handle, ParseRakp3, PrintHeader, PrintRakp4, Packet, Rakp3Payload, Rakp3Input, Sik, DerivedKeys, CheckValue,
      ConsoleRakp3Code, ConsoleKeys, ConsoleCheckValue;
    var s := st.state;
    var code := ConsoleRakp3Code(c, con, t.managedRandom);
    var payload := Rakp3Payload(con, id, code);
    PacketHandled(c, s, st.buf, 0x14, payload);
    Rakp3PacketParsed(con, id, code, st.buf[16 + |payload|..]);
    SameCodes(c, con, id, t);
    Rakp4ReplyRead(con, CheckValue(c, Sik(c, con.password, t), id, t));
  }

  lemma MeanwhileKeeps(c: Suite, st: Stage, packets: seq<Bytes>, id: u32)
    requires Ready(st) && LeavesAlone(c, st, packets, id)
    ensures Meanwhile(c, st, packets).state.users == st.state.users
    ensures Lookup(Meanwhile(c, st, packets).state.sessions, id) == Lookup(st.state.sessions, id)
  {
    hide ServeAll;
    RunReplays(c, st.state, st.buf, packets);
    UntouchedStays(c, st.state.users, st.state.sessions, ServeAll(c, st.state, st.buf, packets).log, id);
  }

  // ---------- the theorem ----------

  /** No message was refused by either side; and an established session is in the table with the
      console's id, the transcript the console saw, and the SIK, K1 and K2 the console computed. */
  ghost predicate Completes(c: Suite, con: Console, users: map<Bytes, Bytes>, r: Result)
    requires |con.name| <= 20
  {
    && !r.Refused?
    && (r.Established? ==>
          && Ready(r.after) && r.after.state.users == users
          && r.keys == ConsoleKeys(c, con, r.managedRandom)
          && Lookup(r.after.state.sessions, r.id) ==
             Some(SessionValue(con.id, r.id, Agreed(con, r.managedRandom, r.guid), r.keys)))
  }

  /** For every server state, buffer content, registered console, random numbers and session ids, and
      whatever packets of others are handled in between, the exchange completes unless it is disturbed. */
  lemma HandshakeCompletes(c: Suite, con: Console, st: Stage, m1: seq<Bytes>, m2: seq<Bytes>, m3: seq<Bytes>)
    requires Ready(st) && Welcome(st.state.users, con)
    ensures Completes(c, con, st.state.users, Connect(c, con, st, m1, m2, m3))
  {
    hide Deliver, LeavesAlone, Meanwhile, Packet, OpenPayload, FromLE32, ConnectOpened;
    OpenAccepted(c, con, st);
    var (st1, out) := Deliver(c, st, Packet(0x10, OpenPayload(con)));
    if out.Reply? {
      var id := FromLE32(out.bytes[24..28]);
      if LeavesAlone(c, st1, m1, id) {
        MeanwhileKeeps(c, st1, m1, id);
        OpenedCompletes(c, con, Meanwhile(c, st1, m1), id, m2, m3);
      }
    }
  }

  lemma OpenedCompletes(c: Suite, con: Console, st: Stage, id: u32, m2: seq<Bytes>, m3: seq<Bytes>)
    requires Ready(st) && Welcome(st.state.users, con)
    requires Lookup(st.state.sessions, id) == Some(Blank(con.id, id))
    ensures Completes(c, con, st.state.users, ConnectOpened(c, con, st, id, m2, m3))
  {
    hide Deliver, LeavesAlone, Meanwhile, Packet, Rakp1Payload, ConsoleRakp2Code, ConnectChallenged, Completes;
    Rakp1Accepted(c, con, st, id);
    var (st1, out) := Deliver(c, st, Packet(0x12, Rakp1Payload(con, id)));
    if out.Reply? && LeavesAlone(c, st1, m2, id) {
      MeanwhileKeeps(c, st1, m2, id);
      ChallengedCompletes(c, con, Meanwhile(c, st1, m2), id, Agreed(con, out.bytes[24..40], out.bytes[40..56]), m3);
    } else {
      LostCompletes(c, con, st.state.users);
    }
  }

  lemma LostCompletes(c: Suite, con: Console, users: map<Bytes, Bytes>)
    requires |con.name| <= 20
    ensures Completes(c, con, users, Disturbed)
  {
  }

  lemma ChallengedCompletes(c: Suite, con: Console, st: Stage, id: u32, t: Transcript, m3: seq<Bytes>)
    requires Ready(st) && Welcome(st.state.users, con) && t == Agreed(con, t.managedRandom, t.guid)
    requires Lookup(st.state.sessions, id) == Some(SessionValue(con.id, id, t, NO_KEYS))
    ensures Completes(c, con, st.state.users,
                      ConnectChallenged(c, con, st, id, t.managedRandom, t.guid, m3))
  {
    hide Deliver, LeavesAlone, Meanwhile, Packet, Rakp3Payload, ConsoleRakp3Code, ConsoleKeys, ConsoleCheckValue;
    Rakp3Accepted(c, con, st, id, t);
    var packet := Packet(0x14, Rakp3Payload(con, id, ConsoleRakp3Code(c, con, t.managedRandom)));
    var (st1, out) := Deliver(c, st, packet);
    if LeavesAlone(c, st1, m3, id) {
      MeanwhileKeeps(c, st1, m3, id);
    }
  }

  // ---------- establishment among other packets ----------

  /** An exchange in peace: an id to allocate, random bytes when RAKP 1 arrives, and between the messages
      only packets that neither name the session nor panic. */
  predicate Peaceful(c: Suite, con: Console, st: Stage, m1: seq<Bytes>, m2: seq<Bytes>, m3: seq<Bytes>)
    requires Ready(st) && |con.name| <= 20
  {
    var free := FreshId(st.state.sessions.Keys, st.state.random);
    && free.Some?
    && var st1 := Deliver(c, st, Packet(0x10, OpenPayload(con))).0;
       && NeverNamed(c, st1.state, st1.buf, m1, free.value.0)
       && PeacefulOpened(c, con, Meanwhile(c, st1, m1), free.value.0, m2, m3)
  }

  predicate PeacefulOpened(c: Suite, con: Console, st: Stage, id: u32, m2: seq<Bytes>, m3: seq<Bytes>)
    requires Ready(st) && |con.name| <= 20
  {
    && |st.state.random| >= 32
    && var st1 := Deliver(c, st, Packet(0x12, Rakp1Payload(con, id))).0;
       && NeverNamed(c, st1.state, st1.buf, m2, id)
       && PeacefulChallenged(c, con, Meanwhile(c, st1, m2), id, HexPrefix(st.state.random[..16]), m3)
  }

  predicate PeacefulChallenged(c: Suite, con: Console, st: Stage, id: u32, managedRandom: Bytes16, m3: seq<Bytes>)
    requires Ready(st) && |con.name| <= 20
  {
    var payload := Rakp3Payload(con, id, ConsoleRakp3Code(c, con, managedRandom));
    var st1 := Deliver(c, st, Packet(0x14, payload)).0;
    NeverNamed(c, st1.state, st1.buf, m3, id)
  }

  lemma QuietPackets(c: Suite, st: Stage, packets: seq<Bytes>, id: u32)
    requires Ready(st) && id in st.state.sessions && NeverNamed(c, st.state, st.buf, packets, id)
    ensures LeavesAlone(c, st, packets, id)
  {
    hide ServeAll, NeverNamed;
    NeverNamedLeavesAlone(c, st.state, st.buf, packets, id);
  }

  /** A registered console is connected whatever packets the server handles in between, as long as they do
      not name its session or panic and the random source lasts. */
  lemma EstablishedAmongOthers(c: Suite, con: Console, st: Stage, m1: seq<Bytes>, m2: seq<Bytes>, m3: seq<Bytes>)
    requires Ready(st) && Welcome(st.state.users, con) && Peaceful(c, con, st, m1, m2, m3)
    ensures Connect(c, con, st, m1, m2, m3).Established?
    ensures Completes(c, con, st.state.users, Connect(c, con, st, m1, m2, m3))
  {
    hide Deliver, LeavesAlone, Meanwhile, NeverNamed, Packet, OpenPayload, FromLE32, FreshId, ConnectOpened,
      PeacefulOpened, Completes, Expected;
    HandshakeCompletes(c, con, st, m1, m2, m3);
    OpenAccepted(c, con, st);
    var (st1, out) := Deliver(c, st, Packet(0x10, OpenPayload(con)));
    var id := FromLE32(out.bytes[24..28]);
    QuietPackets(c, st1, m1, id);
    MeanwhileKeeps(c, st1, m1, id);
    EstablishedOnceOpened(c, con, Meanwhile(c, st1, m1), id, m2, m3);
  }

  lemma EstablishedOnceOpened(c: Suite, con: Console, st: Stage, id: u32, m2: seq<Bytes>, m3: seq<Bytes>)
    requires Ready(st) && Welcome(st.state.users, con) && PeacefulOpened(c, con, st, id, m2, m3)
    requires Lookup(st.state.sessions, id) == Some(Blank(con.id, id))
    ensures ConnectOpened(c, con, st, id, m2, m3).Established?
  {
    hide Deliver, LeavesAlone, Meanwhile, NeverNamed, Packet, Rakp1Payload, ConsoleRakp2Code, ConnectChallenged,
      PeacefulChallenged, HexPrefix, Expected;
    Rakp1Accepted(c, con, st, id);
    var (st1, out) := Deliver(c, st, Packet(0x12, Rakp1Payload(con, id)));
    QuietPackets(c, st1, m2, id);
    MeanwhileKeeps(c, st1, m2, id);
    EstablishedOnceChallenged(c, con, Meanwhile(c, st1, m2), id, Agreed(con, out.bytes[24..40], out.bytes[40..56]), m3);
  }

  lemma EstablishedOnceChallenged(c: Suite, con: Console, st: Stage, id: u32, t: Transcript, m3: seq<Bytes>)
    requires Ready(st) && Welcome(st.state.users, con) && t == Agreed(con, t.managedRandom, t.guid)
    requires PeacefulChallenged(c, con, st, id, t.managedRandom, m3)
    requires Lookup(st.state.sessions, id) == Some(SessionValue(con.id, id, t, NO_KEYS))
    ensures ConnectChallenged(c, con, st, id, t.managedRandom, t.guid, m3).Established?
  {
    hide Deliver, LeavesAlone, Meanwhile, NeverNamed, Packet, Rakp3Payload, ConsoleRakp3Code, ConsoleKeys,
      ConsoleCheckValue, Expected;
    Rakp3Accepted(c, con, st, id, t);
    var packet := Packet(0x14, Rakp3Payload(con, id, ConsoleRakp3Code(c, con, t.managedRandom)));
    QuietPackets(c, Deliver(c, st, packet).0, m3, id);
  }

  /** In particular alone with the server, with an id to allocate and 32 more random bytes. */
  lemma ConnectsAlone(c: Suite, con: Console, st: Stage)
    requires Ready(st) && Welcome(st.state.users, con)
    requires FreshId(st.state.sessions.Keys, st.state.random).Some?
    requires |FreshId(st.state.sessions.Keys, st.state.random).value.1| >= 32
    ensures Connect(c, con, st, [], [], []).Established?
  {
    hide Connect, Deliver, Packet, OpenPayload, Rakp1Payload, Rakp3Payload, FromLE32, FreshId, HexPrefix,
      ConsoleRakp3Code, Expected;
    OpenAccepted(c, con, st);
    EstablishedAmongOthers(c, con, st, [], [], []);
  }

  // ---------- an exchange that stops the server ----------

  /** An RAKP 1 for session id whose name is declared one byte longer than its field. */
  function LongNamePayload(id: u32): (r: Bytes)
    ensures |r| == 48
  {
    Zeros(4) + LE32(id) + Zeros(16) + [0, 0, 0, 21] + Zeros(20)
  }

  lemma LongNamePanics(c: Suite, st: Stage, id: u32)
    requires Ready(st) && id in st.state.sessions
    ensures Deliver(c, st, Packet(0x12, LongNamePayload(id))).1 == Fault
  {
    hide HandlePlus, Handle, FromLE32, LE32, Packet, Receive;
    var p := LongNamePayload(id);
    var x := st.buf[16 + |p|..];
    PacketHandled(c, st.state, st.buf, 0x12, p);
    assert (p + x)[4..8] == LE32(id) && (p + x)[27] == 21;
    LE32RoundTrip(id);
    PlusPanicsIff(c, st.state, Header(0x12, 0, 0, |p|), p + x);
  }

  /** In every state with an id to allocate, an Open Session and such an RAKP 1 end the run, for a console
      that knows no user and no password. */
  lemma TwoPacketsEndTheRun(c: Suite, con: Console, st: Stage)
    requires Ready(st) && FreshId(st.state.sessions.Keys, st.state.random).Some?
    ensures var id := FreshId(st.state.sessions.Keys, st.state.random).value.0;
            var run := ServeAll(c, st.state, st.buf, [Packet(0x10, OpenPayload(con)),
                                                      Packet(0x12, LongNamePayload(id))]);
            |run.outs| == 2 && run.outs[0].Reply? && run.outs[1] == Fault
  {
    hide Handle, Receive, Packet, OpenPayload, LongNamePayload, FreshId, FromLE32, Expected;
    var id := FreshId(st.state.sessions.Keys, st.state.random).value.0;
    var p, q := Packet(0x10, OpenPayload(con)), Packet(0x12, LongNamePayload(id));
    OpenAccepted(c, con, st);
    LongNamePanics(c, Deliver(c, st, p).0, id);
    ServeTwo(c, st, p, q);
  }

  lemma ServeTwo(c: Suite, st: Stage, p: Bytes, q: Bytes)
    requires Ready(st) && !Deliver(c, st, p).1.Fault?
    ensures var (st1, out) := Deliver(c, st, p);
            ServeAll(c, st.state, st.buf, [p, q]).outs == [out, Deliver(c, st1, q).1]
  {
    hide Handle, Receive;
    assert [p, q][1..] == [q] && [q][1..] == [];
    var st1 := Deliver(c, st, p).0;
    assert ServeAll(c, st1.state, st1.buf, [q]).outs == [Deliver(c, st1, q).1];
  }
}
