/** Every reply the server sends, as its receiver reads it: framing, the v1.5 round trip through all
    three parsers, and the encrypted exchange under session keys. */
module Replies {
  import opened Options
  import opened Wire
  import opened Crypto
  import opened Power
  import opened Sessions
  import opened Rmcp
  import opened Runs
  import opened Packets
  import opened Handshake
  import Ipmi

  // ---------- v1.5 ----------

  /** The wrapper reads back, with everything after it left over. */
  lemma WrapperRoundTrip(w: Wrapper, rest: Bytes)
    ensures |PrintWrapper(w)| == 10 + AuthCodeLen(w.sessionId)
    ensures PrintWrapper(w)[0] == AUTH_NONE
    ensures ParseWrapper((PrintWrapper(w) + rest)[1..]) == Some((w, rest))
  {
    hide LE32, FromLE32;
    var n := AuthCodeLen(w.sessionId);
    var tail := Zeros(n) + ([w.messageLen] + rest);
    var b := (PrintWrapper(w) + rest)[1..];
    assert b == LE32(w.sequence) + (LE32(w.sessionId) + tail);
    assert b[..4] == LE32(w.sequence) && b[4..] == LE32(w.sessionId) + tail;
    assert b[4..8] == b[4..][..4] == LE32(w.sessionId) && b[8..] == tail;
    LE32RoundTrip(w.sequence);
    LE32RoundTrip(w.sessionId);
    assert b[8 + n] == tail[n] == w.messageLen;
    assert b[8 + n + 1..] == tail[n + 1..] == rest;
  }

  /** A reply read by a v1.5 requester: RMCP class, authentication type, wrapper, message. */
  lemma FullStackRoundTrip(c: Suite, s: Bmc, b: Bytes)
    requires Request15(b).Some? && Handle(c, s, b).out.Reply?
    ensures var (w, m) := Request15(b).value;
            var reply := Handle(c, s, b).out.bytes;
            && Request15(reply).Some?
            && var (w', m') := Request15(reply).value;
               && w'.sequence == w.sequence && w'.sessionId == w.sessionId
               && |reply| == 14 + AuthCodeLen(w.sessionId) + w'.messageLen
               && Ipmi.Answers(m', m, Ipmi.ServedData(s.machine, m))
  {
    hide ParseWrapper, PrintWrapper, Ipmi.Parse, Ipmi.Serve, Ipmi.Answers, Ipmi.ServedData, Handle;
    var (w, m) := Request15(b).value;
    Handled15(c, s, b);
    var res := Ipmi.Serve(s.machine, m).reply.value;
    Ipmi.ReplyLength(s.machine, m);
    Ipmi.ReplyRoundTrip(s.machine, m, []);
    assert res + [] == res;
    var w' := w.(messageLen := |res| % 0x100);
    WrapperRoundTrip(w', res);
    var reply := RMCP_REPLY_HEADER + (PrintWrapper(w') + res);
    assert reply[4] == AUTH_NONE && reply[5..] == (PrintWrapper(w') + res)[1..];
  }

  // ---------- RMCP+ ----------

  /** The declared length of an RMCP+ reply and its payload: of an encrypted reply 16 bytes of trailer and
      authentication code follow the payload, and what the code covers is a multiple of 4 bytes. */
  predicate PlusFramed(b: Bytes) {
    && |b| >= 12 && b[0] == AUTH_RMCP_PLUS
    && var n: int := FromLE16(b[10..12]);
       if b[1] == PAYLOAD_ENCRYPTED then |b| == 12 + n + 16 && (12 + n + 4) % 4 == 0
       else |b| == 12 + n
  }

  lemma OpenFramed(s: Bmc, p: OpenRequest)
    ensures Open(s, p).out.Reply? ==> PlusFramed(Open(s, p).out.bytes)
  {
  }

  lemma Rakp1Framed(c: Suite, s: Bmc, p: Rakp1)
    ensures AcceptRakp1(c, s, p).out.Reply? ==> PlusFramed(AcceptRakp1(c, s, p).out.bytes)
  {
  }

  lemma Rakp3Framed(c: Suite, s: Bmc, p: Rakp3)
    ensures AcceptRakp3(c, s, p).out.Reply? ==> PlusFramed(AcceptRakp3(c, s, p).out.bytes)
  {
  }

  /** The session header of an encrypted reply: the console's session id and the request's sequence
      number. */
  predicate HeaderNames(b: Bytes, consoleId: u32, sequence: u32)
    requires |b| >= 12
  {
    b[..2] == [AUTH_RMCP_PLUS, PAYLOAD_ENCRYPTED] && FromLE32(b[2..6]) == consoleId && FromLE32(b[6..10]) == sequence
  }

  /** The parts of an encrypted reply: 12 bytes of header, the sealed message, pad and trailer, and the
      integrity code over all of that. */
  lemma AuthenticatedParts(c: Suite, k1: Bytes, consoleId: u32, sequence: u32, ciphered: Bytes)
    requires |ciphered| == 32
    ensures var packet := Authenticated(consoleId, sequence, ciphered);
            var b := packet + IntegrityData(c, k1, packet);
            && |b| == 60 && PlusFramed(b) && HeaderNames(b, consoleId, sequence)
            && b[12..44] == ciphered && b[44..48] == [0xff, 0xff, 2, 7]
            && b[..48] == packet && b[48..] == c.hmac(k1, b[..48])[..12]
  {
  }

  /** A reply that is sent is a packet that the console opens with the session's keys. */
  lemma SealedReplyOpens(c: Suite, s: Bmc, v: SessionValue, sequence: u32, reply: Bytes, events: seq<Event>)
    requires c.Invertible()
    ensures var out := SealedReply(c, s, v, sequence, reply, events).out;
            out.Reply? ==>
              && |out.bytes| == 60 && PlusFramed(out.bytes)
              && HeaderNames(out.bytes, v.consoleId, sequence) && out.bytes[44..48] == [0xff, 0xff, 2, 7]
              && Decrypt(c, v.keys.k2, out.bytes[12..44]) == Data(reply)
              && out.bytes[48..] == c.hmac(v.keys.k1, out.bytes[..48])[..12]
  {
    hide Encrypt, Decrypt, Authenticated, IntegrityData, HexPrefix, PlusFramed, HeaderNames;
    SealedReplyEnds(c, s, v, sequence, reply, events);
    if |s.random| >= 16 {
      var iv := HexPrefix(s.random[..16]);
      EncryptThenDecrypt(c, v.keys.k2, iv, reply);
      var sealed := Encrypt(c, v.keys.k2, iv, reply);
      if sealed.Data? {
        AuthenticatedParts(c, v.keys.k1, v.consoleId, sequence, sealed.bytes);
      }
    }
  }

  lemma EncryptedFramed(c: Suite, s: Bmc, v: SessionValue, sequence: u32, reply: Bytes, events: seq<Event>)
    ensures var out := SealedReply(c, s, v, sequence, reply, events).out;
            out.Reply? ==> PlusFramed(out.bytes)
  {
  }

  lemma CommandFramed(c: Suite, s: Bmc, h: Header, b: Bytes)
    ensures var out := HandleEncrypted(c, s, h, b).out;
            out.Reply? ==> PlusFramed(out.bytes)
  {
    hide Decrypt, Ipmi.Parse, Ipmi.Serve, SealedReply, PlusFramed;
    if HandleEncrypted(c, s, h, b).out.Reply? {
      var v := s.sessions[h.sessionId];
      var plain := Decrypt(c, v.keys.k2, b[..h.payloadLen]).bytes;
      var m := Ipmi.Parse(plain, |plain|).value;
      var served := Ipmi.Serve(s.machine, m);
      EncryptedFramed(c, AfterCommand(s, served), v, h.sequence, served.reply.value,
                      [Dispatched(h.sessionId, m)] + CloseEvents(s, served.close));
    }
  }

  /** In every state and for every payload, the declared length of an RMCP+ reply is exact. */
  lemma PlusRepliesFramed(c: Suite, s: Bmc, h: Header, b: Bytes)
    ensures var out := HandlePlus(c, s, h, b).out;
            out.Reply? ==> PlusFramed(out.bytes)
  {
    hide Open, AcceptRakp1, AcceptRakp3, HandleEncrypted, ParseOpen, ParseRakp1, ParseRakp3, PlusFramed;
    CommandFramed(c, s, h, b);
    if |b| >= 32 {
      OpenFramed(s, ParseOpen(b[..32]));
    }
    if |b| >= 48 {
      Rakp1Framed(c, s, ParseRakp1(b[..48]));
    }
    if |b| >= 28 {
      Rakp3Framed(c, s, ParseRakp3(b[..28]));
    }
  }

  // ---------- commands under session keys ----------

  /** A plain message whose sealed form the 16-bit payload length can express. */
  predicate Expressible(plain: Bytes) {
    16 + |plain| + PadSize(|plain|) < 0x1_0000
  }

  /** The encrypted packet a console sends: any trailer may follow, the server does not read it. */
  function CommandPacket(c: Suite, keys: Keys, id: u32, sequence: u32, iv: Bytes16, plain: Bytes): Bytes
    requires |keys.k2| >= 16 && Expressible(plain)
  {
    SessionPacket(0xc0, id, sequence, SealUnder(c, keys.k2[..16], iv, plain))
  }

  /** The message that the server reads in a sealed one: decryption leaves its first |plain| % 16 bytes. */
  function Seen(plain: Bytes): Option<Ipmi.Message> {
    Ipmi.Parse(plain[..|plain| % 16], |plain| % 16)
  }

  /** A request is read as sent exactly when it has at most 8 data bytes; a longer one is cut, and rejected
      exactly when fewer than 7 bytes remain. */
  lemma SeenIff(m: Ipmi.Message)
    requires !Ipmi.IsResponse(m.targetLun) && m.completion == Ipmi.CODE_OK
    ensures Seen(Ipmi.Print(m)) == Some(m) <==> |m.data| <= 8
    ensures Seen(Ipmi.Print(m)).None? <==> (7 + |m.data|) % 16 < 7
  {
    hide Ipmi.Print;
    var plain := Ipmi.Print(m);
    Ipmi.ParseOfPrint(m, []);
    assert plain + [] == plain && [] + m.data == m.data;
    if |m.data| <= 8 {
      assert plain[..|plain| % 16] == plain;
    }
  }

  /** What the server does with any sealed plain text: exactly what the message it reads in it asks for. */
  lemma CommandUnderstood(c: Suite, s: Bmc, id: u32, sequence: u32, iv: Bytes16, plain: Bytes, x: Bytes)
    requires c.Invertible() && Expressible(plain)
    requires id in s.sessions && s.sessions[id].transcript.userName in s.users && |s.sessions[id].keys.k2| >= 16
    ensures var step := Handle(c, s, CommandPacket(c, s.sessions[id].keys, id, sequence, iv, plain) + x);
            var h := Header(PAYLOAD_ENCRYPTED, id, sequence, 16 + |plain| + PadSize(|plain|));
            match Seen(plain)
            case None => step == Fail(s, ShortRead)
            case Some(m) => step == Dispatch(c, s, h, m).(out := Framed(Dispatch(c, s, h, m).out))
  {
    hide Handle, Dispatch, Decrypt, Ipmi.Parse, SealUnder, SessionPacket;
    var keys := s.sessions[id].keys;
    var sealed := SealUnder(c, keys.k2[..16], iv, plain);
    SessionPacketHandled(c, s, PAYLOAD_ENCRYPTED, id, sequence, sealed, x);
    DecryptOfSealed(c, keys.k2, iv, plain);
    assert (sealed + x)[..|sealed|] == sealed;
  }

  /** A step that did with session id exactly what message m asked, and answered under keys. Three
      exceptions: a network function that is not served, and a dry random source, get no reply; and a
      served Get Channel Authentication Capabilities, whose reply does not fit one cipher block, panics. */
  ghost predicate ServedAsAsked(c: Suite, s: Bmc, keys: Keys, id: u32, sequence: u32, m: Ipmi.Message, step: Step)
    requires id in s.sessions
  {
    var served := Ipmi.Serve(s.machine, m);
    && step.events == [Dispatched(id, m)] + CloseEvents(s, served.close)
    && step.next.machine == served.machine
    && step.next.sessions == Without(s.sessions, served.close)
    && (step.out.Failed? <==> served.reply.None? || |s.random| < 16)
    && (step.out.Fault? <==> NeedsTwoBlocks(m) && |s.random| >= 16)
    && (step.out.Reply? ==>
          && AnswersUnder(c, keys, step.out.bytes, m, Ipmi.ServedData(s.machine, m))
          && HeaderNames(step.out.bytes[4..], s.sessions[id].consoleId, sequence))
  }

  /** A reply packet whose integrity code checks under K1 and whose payload opens under K2 to the answer
      for m. */
  ghost predicate AnswersUnder(c: Suite, keys: Keys, b: Bytes, m: Ipmi.Message, data: Option<Bytes>) {
    && |b| == 64 && b[..4] == RMCP_REPLY_HEADER && b[48..52] == [0xff, 0xff, 2, 7]
    && b[52..] == c.hmac(keys.k1, b[4..52])[..12]
    && var plain := Decrypt(c, keys.k2, b[16..48]);
       && plain.Data? && Ipmi.Parse(plain.bytes, |plain.bytes|).Some?
       && Ipmi.Answers(Ipmi.Parse(plain.bytes, |plain.bytes|).value, m, data)
  }

  lemma DispatchServes(c: Suite, s: Bmc, h: Header, m: Ipmi.Message)
    requires c.Invertible() && h.sessionId in s.sessions && |s.sessions[h.sessionId].keys.k2| >= 16
    ensures var r := Dispatch(c, s, h, m);
            ServedAsAsked(c, s, s.sessions[h.sessionId].keys, h.sessionId, h.sequence, m, r.(out := Framed(r.out)))
  {
    hide Decrypt, Ipmi.Parse, Ipmi.Serve, Ipmi.Answers, Ipmi.ServedData, SealedReply, PlusFramed, HeaderNames,
      NeedsTwoBlocks;
    var v := s.sessions[h.sessionId];
    var served := Ipmi.Serve(s.machine, m);
    var events := [Dispatched(h.sessionId, m)] + CloseEvents(s, served.close);
    TwoBlocksIff(s, m);
    if served.reply.Some? {
      var reply := served.reply.value;
      Ipmi.ReplyRoundTrip(s.machine, m, []);
      assert reply + [] == reply;
      SealedReplyEnds(c, AfterCommand(s, served), v, h.sequence, reply, events);
      SealedReplyOpens(c, AfterCommand(s, served), v, h.sequence, reply, events);
      SealedReplyKeeps(c, AfterCommand(s, served), v, h.sequence, reply, events);
      var inner := SealedReply(c, AfterCommand(s, served), v, h.sequence, reply, events).out;
      if inner.Reply? {
        FramedParts(inner.bytes);
      }
    }
  }

  lemma FramedParts(b: Bytes)
    requires |b| == 60
    ensures var f := RMCP_REPLY_HEADER + b;
            && |f| == 64 && f[..4] == RMCP_REPLY_HEADER && f[4..] == b && f[4..52] == b[..48]
            && f[16..48] == b[12..44] && f[48..52] == b[44..48] && f[52..] == b[48..]
  {
  }

  /** What became of a plain text sealed under the session's keys. */
  ghost predicate CommandDone(c: Suite, s: Bmc, keys: Keys, id: u32, sequence: u32, plain: Bytes, step: Step)
    requires id in s.sessions
  {
    match Seen(plain)
    case None => step == Fail(s, ShortRead)
    case Some(m) => ServedAsAsked(c, s, keys, id, sequence, m, step)
  }

  /** Any plain text sealed under the keys of a session that went through the handshake: the message the
      server reads in it is dispatched, takes effect as served, and is answered. */
  lemma CommandRoundTrip(c: Suite, s: Bmc, id: u32, sequence: u32, iv: Bytes16, plain: Bytes, x: Bytes)
    requires c.Invertible() && Expressible(plain)
    requires id in s.sessions && s.sessions[id].transcript.userName in s.users && |s.sessions[id].keys.k2| >= 16
    ensures var keys := s.sessions[id].keys;
            CommandDone(c, s, keys, id, sequence, plain,
                      Handle(c, s, CommandPacket(c, keys, id, sequence, iv, plain) + x))
  {
    hide Handle, Dispatch, Seen, CommandPacket, ServedAsAsked;
    CommandUnderstood(c, s, id, sequence, iv, plain, x);
    if Seen(plain).Some? {
      var h := Header(PAYLOAD_ENCRYPTED, id, sequence, 16 + |plain| + PadSize(|plain|));
      DispatchServes(c, s, h, Seen(plain).value);
    }
  }

  // ---------- commands through the receive buffer ----------

  /** A command whose packet, up to the end of its payload, fits the receive buffer. */
  predicate Fits(plain: Bytes) {
    32 + |plain| + PadSize(|plain|) <= BUFFER_SIZE
  }

  /** An encrypted packet that the buffer cuts is read as too short. */
  lemma CutIsShort(c: Suite, s: Bmc, id: u32, sequence: u32, payload: Bytes)
    requires BUFFER_SIZE < 16 + |payload| && |payload| < 0x1_0000
    requires id in s.sessions && s.sessions[id].transcript.userName in s.users
    ensures Handle(c, s, SessionPacket(PAYLOAD_ENCRYPTED, id, sequence, payload)[..BUFFER_SIZE]) == Fail(s, ShortRead)
  {
    hide SessionPacket, ParseHeader;
    var packet := SessionPacket(PAYLOAD_ENCRYPTED, id, sequence, payload);
    PacketParts(PAYLOAD_ENCRYPTED, id, sequence, payload, []);
    assert packet + [] == packet && payload + [] == payload;
    assert |packet| == 16 + |payload|;
    var b := packet[..BUFFER_SIZE];
    assert b[5..][..11] == packet[5..][..11];
    assert |b[5..][11..]| == BUFFER_SIZE - 16;
  }

  lemma PacketSize(t: byte, id: u32, sequence: u32, payload: Bytes)
    requires |payload| < 0x1_0000
    ensures |SessionPacket(t, id, sequence, payload)| == 16 + |payload|
  {
  }

  /** What becomes of a sealed command, with any trailer, that the receive loop takes in: when its packet
      fits the buffer, the message read in it is served and answered; when it does not, it is rejected as
      too short and nothing changes. */
  ghost predicate CommandArrives(c: Suite, st: Stage, keys: Keys, id: u32, sequence: u32, iv: Bytes16, plain: Bytes,
                                 x: Bytes)
    requires Ready(st) && id in st.state.sessions && |keys.k2| >= 16 && Expressible(plain)
  {
    var step := Handle(c, st.state, Receive(st.buf, CommandPacket(c, keys, id, sequence, iv, plain) + x));
    if Fits(plain) then CommandDone(c, st.state, keys, id, sequence, plain, step) else step == Fail(st.state, ShortRead)
  }

  lemma CommandReceived(c: Suite, st: Stage, id: u32, sequence: u32, iv: Bytes16, plain: Bytes, x: Bytes)
    requires c.Invertible() && Expressible(plain) && Ready(st) && Holds(st.state, id, st.state)
    ensures CommandArrives(c, st, st.state.sessions[id].keys, id, sequence, iv, plain, x)
  {
    hide Handle, CommandDone, SessionPacket, SealUnder;
    var s := st.state;
    var keys := s.sessions[id].keys;
    var payload := SealUnder(c, keys.k2[..16], iv, plain);
    var packet := CommandPacket(c, keys, id, sequence, iv, plain);
    PacketSize(PAYLOAD_ENCRYPTED, id, sequence, payload);
    var b := Receive(st.buf, packet + x);
    if Fits(plain) {
      CommandRoundTrip(c, s, id, sequence, iv, plain, b[|packet|..]);
      assert b == packet + b[|packet|..];
    } else {
      CutIsShort(c, s, id, sequence, payload);
      assert b == packet[..BUFFER_SIZE];
    }
  }

  /** From Open Session to a served command, all through the receive buffer: whatever else the server
      handled meanwhile, a console that was connected sends a command under the keys it computed itself;
      it is served exactly when the message read in it is, and its packet fits the buffer. */
  lemma ConnectedConsoleIsServed(c: Suite, con: Console, st: Stage, m1: seq<Bytes>, m2: seq<Bytes>, m3: seq<Bytes>,
                                 sequence: u32, iv: Bytes16, plain: Bytes, x: Bytes)
    requires c.Invertible() && Ready(st) && Welcome(st.state.users, con) && Expressible(plain)
    ensures var r := Connect(c, con, st, m1, m2, m3);
            r.Established? ==>
              && Ready(r.after) && r.id in r.after.state.sessions && |r.keys.k2| >= 16
              && CommandArrives(c, r.after, r.keys, r.id, sequence, iv, plain, x)
  {
    hide Connect, CommandArrives;
    HandshakeCompletes(c, con, st, m1, m2, m3);
    var r := Connect(c, con, st, m1, m2, m3);
    if r.Established? {
      CommandReceived(c, r.after, r.id, sequence, iv, plain, x);
    }
  }

  /** Sequence numbers are not checked: a command that did not close its session, seen again later in the
      very same packet, is served again, whatever packets that do not name the session came in between. */
  lemma ReplayIsServed(c: Suite, st: Stage, id: u32, sequence: u32, iv: Bytes16, plain: Bytes, x: Bytes,
                       others: seq<Bytes>)
    requires c.Invertible() && Ready(st) && Expressible(plain) && Fits(plain)
    requires Holds(st.state, id, st.state)
    requires Seen(plain).Some? && NamedByMessage(Seen(plain).value) != Some(id)
    ensures var keys := st.state.sessions[id].keys;
            var (st1, out) := Deliver(c, st, CommandPacket(c, keys, id, sequence, iv, plain) + x);
            !out.Fault? && NeverNamed(c, st1.state, st1.buf, others, id) ==>
              var st2 := Meanwhile(c, st1, others);
              && Holds(st.state, id, st2.state)
              && CommandArrives(c, st2, keys, id, sequence, iv, plain, x)
  {
    hide Handle, Receive, CommandPacket, Seen, NeverNamed, ServeAll, ServedAsAsked;
    var keys := st.state.sessions[id].keys;
    var packet := CommandPacket(c, keys, id, sequence, iv, plain) + x;
    CommandReceived(c, st, id, sequence, iv, plain, x);
    var b := Receive(st.buf, packet);
    var st1 := Deliver(c, st, packet).0;
    CommandKeeps(c, st.state, keys, id, sequence, Seen(plain).value, Handle(c, st.state, b));
    StepReplays(c, st.state, b);
    if NeverNamed(c, st1.state, st1.buf, others, id) {
      QuietPackets(c, st1, others, id);
      MeanwhileKeeps(c, st1, others, id);
      var st2 := Meanwhile(c, st1, others);
      CommandReceived(c, st2, id, sequence, iv, plain, x);
    }
  }

  /** A later state in which session id is as it was, and usable. */
  predicate Holds(s: Bmc, id: u32, later: Bmc) {
    && id in s.sessions && Lookup(later.sessions, id) == Some(s.sessions[id]) && later.users == s.users
    && s.sessions[id].transcript.userName in s.users && |s.sessions[id].keys.k2| >= 16
  }

  /** A message that does not close session id leaves it in the table as it was. */
  lemma CommandKeeps(c: Suite, s: Bmc, keys: Keys, id: u32, sequence: u32, m: Ipmi.Message, step: Step)
    requires id in s.sessions && ServedAsAsked(c, s, keys, id, sequence, m, step) && NamedByMessage(m) != Some(id)
    ensures Lookup(step.next.sessions, id) == Some(s.sessions[id])
  {
    hide Ipmi.Serve, NamedByMessage, AnswersUnder, HeaderNames, NeedsTwoBlocks;
    ServedCloses(s, m);
  }

  // ---------- closing ----------

  /** A Close Session request for session id. */
  predicate Closes(m: Ipmi.Message, id: u32) {
    && Ipmi.NetFn(m) == Ipmi.NETFN_APP && m.command == Ipmi.CMD_CLOSE_SESSION && m.data == LE32(id)
    && m.completion == Ipmi.CODE_OK
  }

  lemma CloseIsShort(m: Ipmi.Message, id: u32)
    requires Closes(m, id)
    ensures Expressible(Ipmi.Print(m)) && Seen(Ipmi.Print(m)) == Some(m)
  {
    hide Ipmi.Print, Ipmi.Parse, Seen;
    Ipmi.ParseOfPrint(m, []);
    SeenIff(m);
  }

  lemma CloseServed(c: Suite, s: Bmc, keys: Keys, id: u32, sequence: u32, m: Ipmi.Message, step: Step)
    requires Closes(m, id) && id in s.sessions && ServedAsAsked(c, s, keys, id, sequence, m, step)
    ensures step.next.sessions == s.sessions - {id}
    ensures !step.out.Fault? && (step.out.Reply? <==> |s.random| >= 16)
    ensures step.out.Reply? ==> AnswersUnder(c, keys, step.out.bytes, m, Some([]))
  {
    hide AnswersUnder, HeaderNames, Ipmi.ReplyTo, Ipmi.ServeChassis;
    Ipmi.CloseNames(id, []);
    assert LE32(id) + [] == LE32(id);
  }

  /** An encrypted packet for a session that is not there. */
  lemma GoneIsRefused(c: Suite, s: Bmc, id: u32, sequence: u32, payload: Bytes, x: Bytes)
    requires id !in s.sessions && |payload| < 0x1_0000
    ensures Handle(c, s, SessionPacket(PAYLOAD_ENCRYPTED, id, sequence, payload) + x) == Fail(s, NoSession)
  {
    hide Handle, SessionPacket;
    SessionPacketHandled(c, s, PAYLOAD_ENCRYPTED, id, sequence, payload, x);
  }

  /** A console that closes its own session ends that session and no other, still gets its answer under
      the keys of the session that is gone, and the same packet, seen again, is refused. */
  lemma ClosedForGood(c: Suite, s: Bmc, id: u32, sequence: u32, iv: Bytes16, m: Ipmi.Message, x: Bytes, y: Bytes)
    requires c.Invertible() && Closes(m, id)
    requires id in s.sessions && s.sessions[id].transcript.userName in s.users && |s.sessions[id].keys.k2| >= 16
    ensures Expressible(Ipmi.Print(m))
    ensures var keys := s.sessions[id].keys;
            var packet := CommandPacket(c, keys, id, sequence, iv, Ipmi.Print(m));
            var step := Handle(c, s, packet + x);
            && step.next.sessions == s.sessions - {id}
            && !step.out.Fault? && (step.out.Reply? <==> |s.random| >= 16)
            && (step.out.Reply? ==> AnswersUnder(c, keys, step.out.bytes, m, Some([])))
            && Handle(c, step.next, packet + y) == Fail(step.next, NoSession)
  {
    CloseIsShort(m, id);
    hide Handle, Ipmi.Print, Seen, ServedAsAsked, AnswersUnder, SessionPacket, Expressible;
    var keys := s.sessions[id].keys;
    var plain := Ipmi.Print(m);
    var step := Handle(c, s, CommandPacket(c, keys, id, sequence, iv, plain) + x);
    CommandRoundTrip(c, s, id, sequence, iv, plain, x);
    CloseServed(c, s, keys, id, sequence, m, step);
    GoneIsRefused(c, step.next, id, sequence, SealUnder(c, keys.k2[..16], iv, plain), y);
  }
}
