/** What can be told of a received buffer before it is handled: the session it names, and whether it
    panics the server. */
module Packets {
  import opened Options
  import opened Wire
  import opened Crypto
  import opened Sessions
  import opened Rmcp
  import opened Runs
  import Ipmi

  // ---------- the session a packet names ----------

  /** The id that a Close Session message names. */
  function NamedByMessage(m: Ipmi.Message): Option<u32> {
    if Ipmi.NetFn(m) == Ipmi.NETFN_APP && m.command == Ipmi.CMD_CLOSE_SESSION then Ipmi.CloseTarget(m.data) else None
  }

  /** The IPMI message inside an encrypted payload, if it decrypts to one. */
  function MessageIn(c: Suite, s: Bmc, h: Header, b: Bytes): Option<Ipmi.Message> {
    if h.sessionId !in s.sessions || |b| < h.payloadLen then None
    else
      var plain := Decrypt(c, s.sessions[h.sessionId].keys.k2, b[..h.payloadLen]);
      if plain.Data? then Ipmi.Parse(plain.bytes, |plain.bytes|) else None
  }

  /** RAKP 1 and RAKP 3 name the managed system session id of their payload, an encrypted packet what the
      message in it names; Open Session names none. */
  function NamedByPayload(c: Suite, s: Bmc, h: Header, b: Bytes): Option<u32> {
    if IsEncrypted(h) then
      match MessageIn(c, s, h, b)
      case None => None
      case Some(m) => NamedByMessage(m)
    else
      var kind := h.payloadType % 64;
      if (kind == PAYLOAD_RAKP1 || kind == PAYLOAD_RAKP3) && |b| >= 8 then Some(FromLE32(b[4..8])) else None
  }

  /** The wrapper and the message of a received v1.5 buffer. */
  function Request15(b: Bytes): Option<(Wrapper, Ipmi.Message)> {
    if |b| < 5 || b[3] != CLASS_IPMI || b[4] != AUTH_NONE then None
    else
      match ParseWrapper(b[5..])
      case None => None
      case Some((w, rest)) =>
        match Ipmi.Parse(rest, w.messageLen)
        case None => None
        case Some(m) => Some((w, m))
  }

  lemma Handled15(c: Suite, s: Bmc, b: Bytes)
    requires |b| >= 5 && b[3] == CLASS_IPMI && b[4] == AUTH_NONE
    ensures Request15(b).None? ==> Handle(c, s, b) == Fail(s, ShortRead)
    ensures Request15(b).Some? ==>
              var (w, m) := Request15(b).value;
              Handle(c, s, b) == Answer15(s, w, m).(out := Framed(Answer15(s, w, m).out))
  {
  }

  function Named(c: Suite, s: Bmc, b: Bytes): Option<u32> {
    if |b| < 5 || b[3] != CLASS_IPMI then None
    else if b[4] == AUTH_RMCP_PLUS then
      if |b| < 16 then None else NamedByPayload(c, s, ParseHeader(b[5..][..11]), b[5..][11..])
    else
      match Request15(b)
      case None => None
      case Some((_, m)) => NamedByMessage(m)
  }

  /** Only the named session is challenged, keyed or closed. */
  predicate AllNamed(events: seq<Event>, name: Option<u32>) {
    forall k :: 0 <= k < |events| ==> events[k].Dispatched? || events[k].Opened? || name == Some(events[k].id)
  }

  lemma ServedCloses(s: Bmc, m: Ipmi.Message)
    ensures Ipmi.Serve(s.machine, m).close == NamedByMessage(m)
    ensures AllNamed(CloseEvents(s, Ipmi.Serve(s.machine, m).close), NamedByMessage(m))
  {
    hide Ipmi.ReplyTo, Ipmi.ServeChassis;
  }

  lemma EncryptedNamed(c: Suite, s: Bmc, h: Header, b: Bytes)
    requires IsEncrypted(h)
    ensures AllNamed(HandleEncrypted(c, s, h, b).events, NamedByPayload(c, s, h, b))
  {
    hide Decrypt, Ipmi.Parse, Ipmi.Serve, SealedReply, NamedByMessage;
    var m := MessageIn(c, s, h, b);
    if m.Some? {
      var v := Ipmi.Serve(s.machine, m.value);
      ServedCloses(s, m.value);
      if v.reply.Some? {
        SealedReplyKeeps(c, AfterCommand(s, v), s.sessions[h.sessionId], h.sequence, v.reply.value,
                         [Dispatched(h.sessionId, m.value)] + CloseEvents(s, v.close));
      }
    }
  }

  lemma V15Named(c: Suite, s: Bmc, b: Bytes)
    requires |b| >= 5 && b[3] == CLASS_IPMI && b[4] == AUTH_NONE
    ensures AllNamed(Handle(c, s, b).events, Named(c, s, b))
  {
    hide Handle, Request15, Ipmi.Serve, NamedByMessage, PrintWrapper;
    Handled15(c, s, b);
    if Request15(b).Some? {
      ServedCloses(s, Request15(b).value.1);
    }
  }

  lemma PlusNamed(c: Suite, s: Bmc, h: Header, b: Bytes)
    ensures AllNamed(HandlePlus(c, s, h, b).events, NamedByPayload(c, s, h, b))
  {
    hide HandleEncrypted, MessageIn, FromLE32, FreshId, HexPrefix, Rakp2Input, Rakp3Input, SikInput, CheckInput,
      PrintHeader, PrintOpenResponse, PrintRakp2, PrintRakp4;
    if IsEncrypted(h) {
      EncryptedNamed(c, s, h, b);
    } else if |b| >= 28 {
      assert b[..28][4..8] == b[4..8];
      assert |b| >= 48 ==> b[..48][4..8] == b[4..8];
    }
  }

  /** Whatever a buffer holds, it challenges, keys or closes no session but the one it names. */
  lemma StepNamed(c: Suite, s: Bmc, b: Bytes)
    ensures AllNamed(Handle(c, s, b).events, Named(c, s, b))
  {
    hide HandlePlus, ParseHeader, NamedByPayload, ParseWrapper, NamedByMessage, Ipmi.Parse, Answer15;
    if |b| >= 5 && b[3] == CLASS_IPMI {
      if b[4] == AUTH_NONE {
        V15Named(c, s, b);
      } else if |b| >= 16 {
        PlusNamed(c, s, ParseHeader(b[5..][..11]), b[5..][11..]);
      }
    }
  }

  /** A session in the table that a packet does not name is touched by no event of it: Open Session cannot,
      because it takes an id that is free. */
  lemma UnnamedUntouched(c: Suite, s: Bmc, b: Bytes, id: u32)
    requires id in s.sessions && Named(c, s, b) != Some(id)
    ensures forall k :: 0 <= k < |Handle(c, s, b).events| ==> !Touches(Handle(c, s, b).events[k], id)
  {
    hide Handle, Named;
    StepNamed(c, s, b);
    StepReplays(c, s, b);
    StepTouchesOne(c, s, b);
    LastTouch(c, s, Handle(c, s, b).events);
  }

  predicate IsOpening(events: seq<Event>, id: u32) {
    |events| == 1 && events[0].Opened? && events[0].id == id
  }

  /** One packet, in whatever format, changes at most one session: the one it names, or one that it opens
      under a free id. Every other session, and the users, stay exactly as they were. */
  lemma OnePacketOneSession(c: Suite, s: Bmc, b: Bytes) returns (id: u32)
    ensures Handle(c, s, b).next.users == s.users
    ensures forall other :: other != id ==>
              Lookup(Handle(c, s, b).next.sessions, other) == Lookup(s.sessions, other)
    ensures || Lookup(Handle(c, s, b).next.sessions, id) == Lookup(s.sessions, id)
            || (id in s.sessions && Named(c, s, b) == Some(id))
            || (id !in s.sessions && IsOpening(Handle(c, s, b).events, id))
  {
    hide Handle, Named;
    StepReplays(c, s, b);
    StepTouchesOne(c, s, b);
    StepNamed(c, s, b);
    var events := Handle(c, s, b).events;
    id := if events == [] then 0 else events[|events| - 1].id;
    forall other | other != id
      ensures Lookup(Handle(c, s, b).next.sessions, other) == Lookup(s.sessions, other)
    {
      UntouchedStays(c, s.users, s.sessions, events, other);
    }
    LastTouch(c, s, events);
  }

  /** The last event of a step changed its session, and that session was in the table unless it opened it. */
  lemma LastTouch(c: Suite, s: Bmc, events: seq<Event>)
    requires Replay(c, s.users, s.sessions, events).Some? && AtMostOneTouch(events)
    ensures events == [] ==> Replay(c, s.users, s.sessions, events).value == s.sessions
    ensures events != [] ==>
              var e := events[|events| - 1];
              && (e.Dispatched? ==> Replay(c, s.users, s.sessions, events).value == s.sessions)
              && (e.Opened? ==> e.id !in s.sessions && IsOpening(events, e.id))
              && (!e.Opened? ==> e.id in s.sessions)
  {
    if events != [] {
      var n := |events| - 1;
      ReplayPrefix(c, s.users, s.sessions, events, n);
      if n == 1 {
        assert events[..1] == [events[0]];
        ReplayPrefix(c, s.users, s.sessions, events, 0);
        ReplayOne(c, s.users, s.sessions, events[0]);
      }
    }
  }

  // ---------- packets that are not served ----------

  /** What is refused by its numbers alone: an RMCP class other than 7; an authentication type other than 0
      and 6; of the latter, a payload type without both flag bits that is not 0x10, 0x12 or 0x14, and one
      with both of them for a session that is not there. Nothing changes. */
  lemma OthersRefused(c: Suite, s: Bmc, b: Bytes)
    requires |b| >= 16
    ensures b[3] != 7 ==> Handle(c, s, b) == Fail(s, UnsupportedClass)
    ensures b[3] == 7 && b[4] != 0 && b[4] != 6 ==> Handle(c, s, b) == Fail(s, UnsupportedAuthType)
    ensures b[3] == 7 && b[4] == 6 && b[5] < 0xc0 && b[5] % 64 !in {0x10, 0x12, 0x14} ==>
              Handle(c, s, b) == Fail(s, UnsupportedPayload)
    ensures b[3] == 7 && b[4] == 6 && b[5] >= 0xc0 && FromLE32(b[6..10]) !in s.sessions ==>
              Handle(c, s, b) == Fail(s, NoSession)
  {
    hide Handle15, HandleOpen, HandleRakp1, HandleRakp3, FromLE32;
    assert b[5..][..11][0] == b[5] && b[5..][..11][1..5] == b[6..10];
  }

  // ---------- where an accepted code came from ----------

  /** The buffer holds an RAKP 3 packet for session id with this code. */
  predicate CarriesCode(b: Bytes, id: u32, code: Bytes20) {
    && |b| >= 44 && b[3] == CLASS_IPMI && b[4] == AUTH_RMCP_PLUS && b[5] % 64 == PAYLOAD_RAKP3
    && FromLE32(b[20..24]) == id && b[24..44] == code
  }

  lemma CodeInPayload(c: Suite, s: Bmc, h: Header, b: Bytes, k: nat)
    requires k < |HandlePlus(c, s, h, b).events| && HandlePlus(c, s, h, b).events[k].Keyed?
    ensures h.payloadType % 64 == PAYLOAD_RAKP3 && |b| >= 28
    ensures var e := HandlePlus(c, s, h, b).events[k];
            FromLE32(b[4..8]) == e.id && b[8..28] == e.code
  {
    hide HandleEncrypted, FromLE32, FreshId, HexPrefix, Rakp2Input, Rakp3Input, SikInput, CheckInput,
      PrintHeader, PrintOpenResponse, PrintRakp2, PrintRakp4;
    if IsEncrypted(h) {
      EncryptedKeysNone(c, s, h, b);
    } else {
      assert |b| >= 28;
      assert b[..28][4..8] == b[4..8] && b[..28][8..28] == b[8..28];
    }
  }

  lemma EncryptedKeysNone(c: Suite, s: Bmc, h: Header, b: Bytes)
    ensures forall k :: 0 <= k < |HandleEncrypted(c, s, h, b).events| ==> !HandleEncrypted(c, s, h, b).events[k].Keyed?
  {
    hide Decrypt, Ipmi.Parse, Ipmi.Serve, SealedReply;
    var m := MessageIn(c, s, h, b);
    if m.Some? {
      var v := Ipmi.Serve(s.machine, m.value);
      if v.reply.Some? {
        SealedReplyKeeps(c, AfterCommand(s, v), s.sessions[h.sessionId], h.sequence, v.reply.value,
                         [Dispatched(h.sessionId, m.value)] + CloseEvents(s, v.close));
      }
    }
  }

  /** A session is keyed only by a buffer that holds an RAKP 3 for it, with the code the event records. */
  lemma KeyedByItsPacket(c: Suite, s: Bmc, b: Bytes, k: nat)
    requires k < |Handle(c, s, b).events| && Handle(c, s, b).events[k].Keyed?
    ensures CarriesCode(b, Handle(c, s, b).events[k].id, Handle(c, s, b).events[k].code)
  {
    hide HandlePlus, FromLE32, ParseWrapper, Ipmi.Parse, Ipmi.Serve, PrintWrapper;
    assert |b| >= 16;
    var rest := b[5..];
    CodeInPayload(c, s, ParseHeader(rest[..11]), rest[11..], k);
    assert rest[11..][4..8] == b[20..24] && rest[11..][8..28] == b[24..44];
    assert rest[..11][0] == b[5];
  }

  /** The receive buffer when packet number i is handled. */
  function BufferAt(buf: Bytes, packets: seq<Bytes>, i: nat): Bytes
    requires |buf| == BUFFER_SIZE && i < |packets|
    decreases i
  {
    var b := Receive(buf, packets[0]);
    if i == 0 then b else BufferAt(b, packets[1..], i - 1)
  }

  /** A packet lies at the front of the buffer in which it is handled. */
  lemma {:induction false} PacketInFront(buf: Bytes, packets: seq<Bytes>, i: nat, n: nat)
    requires |buf| == BUFFER_SIZE && i < |packets| && n <= |packets[i]| && n <= BUFFER_SIZE
    ensures |BufferAt(buf, packets, i)| == BUFFER_SIZE && BufferAt(buf, packets, i)[..n] == packets[i][..n]
    decreases i
  {
    if i > 0 {
      PacketInFront(Receive(buf, packets[0]), packets[1..], i - 1, n);
    }
  }

  lemma CarriedInFront(b: Bytes, p: Bytes, id: u32, code: Bytes20)
    requires CarriesCode(b, id, code) && |p| >= 44 && b[..44] == p[..44]
    ensures CarriesCode(p, id, code)
  {
    assert b[3] == b[..44][3] && b[4] == b[..44][4] && b[5] == b[..44][5];
    assert p[3] == p[..44][3] && p[4] == p[..44][4] && p[5] == p[..44][5];
    assert b[20..24] == b[..44][20..24] && p[20..24] == p[..44][20..24];
    assert b[24..44] == b[..44][24..44] && p[24..44] == p[..44][24..44];
  }

  /** Over a run: the code of every accepted RAKP 3 was in the buffer when some packet was handled, in an
      RAKP 3 for that session, and in that packet itself when it was not shorter than an RAKP 3. */
  lemma {:induction false} CodesWereReceived(c: Suite, s: Bmc, buf: Bytes, packets: seq<Bytes>, k: nat)
    returns (i: nat)
    requires |buf| == BUFFER_SIZE
    requires k < |ServeAll(c, s, buf, packets).log| && ServeAll(c, s, buf, packets).log[k].Keyed?
    ensures var e := ServeAll(c, s, buf, packets).log[k];
            && i < |packets| && CarriesCode(BufferAt(buf, packets, i), e.id, e.code)
            && (|packets[i]| >= 44 ==> CarriesCode(packets[i], e.id, e.code))
    decreases |packets|
  {
    hide Handle, Receive, CarriesCode;
    var b := Receive(buf, packets[0]);
    var step := Handle(c, s, b);
    if k < |step.events| {
      KeyedByItsPacket(c, s, b, k);
      i := 0;
      if |packets[0]| >= 44 {
        PacketInFront(buf, packets, 0, 44);
        CarriedInFront(b, packets[0], step.events[k].id, step.events[k].code);
      }
    } else {
      i := CodesWereReceived(c, step.next, b, packets[1..], k - |step.events|);
      i := i + 1;
    }
  }

  // ---------- when a packet panics ----------

  /** The cut of the pad lies behind the end of the plain text. */
  predicate CutPastEnd(plain: Bytes) {
    plain != [] && (16 - (plain[|plain| - 1] as int + 1)) % 0x100 > |plain|
  }

  /** A served Get Channel Authentication Capabilities, the one message whose reply needs two blocks. */
  predicate NeedsTwoBlocks(m: Ipmi.Message) {
    Ipmi.NetFn(m) == Ipmi.NETFN_APP && m.command == Ipmi.CMD_GET_CHANNEL_AUTH_CAPABILITIES && |m.data| >= 2
  }

  /** Deciphering panics: no key to slice, nothing after the vector, or a cut past the end. */
  predicate DecryptPanics(c: Suite, key: Bytes, payload: Bytes) {
    && |payload| >= 16 && |payload| % 16 == 0
    && (|key| < 16 || |payload| == 16 || CutPastEnd(CbcDecrypt(c, key[..16], payload[..16], payload[16..])))
  }

  lemma DecryptPanicsIff(c: Suite, key: Bytes, payload: Bytes)
    ensures Decrypt(c, key, payload).Panic? <==> DecryptPanics(c, key, payload)
  {
    if |payload| >= 16 && |payload| % 16 == 0 {
      assert |payload[16..]| % 16 == 0;
    }
  }

  /** Exactly the encrypted packets and RAKP 1 messages that panic. */
  predicate PayloadPanics(c: Suite, s: Bmc, h: Header, b: Bytes) {
    if IsEncrypted(h) then
      && h.sessionId in s.sessions && s.sessions[h.sessionId].transcript.userName in s.users && |b| >= h.payloadLen
      && (|| DecryptPanics(c, s.sessions[h.sessionId].keys.k2, b[..h.payloadLen])
          || (&& MessageIn(c, s, h, b).Some? && NeedsTwoBlocks(MessageIn(c, s, h, b).value)
              && |s.random| >= 16))
    else
      h.payloadType % 64 == PAYLOAD_RAKP1 && |b| >= 48 && FromLE32(b[4..8]) in s.sessions && b[27] > 20
  }

  predicate Panics(c: Suite, s: Bmc, b: Bytes) {
    && |b| >= 16 && b[3] == CLASS_IPMI && b[4] == AUTH_RMCP_PLUS
    && PayloadPanics(c, s, ParseHeader(b[5..][..11]), b[5..][11..])
  }

  /** How sealing a reply ends: a panic without keys, or with a reply that does not fit one block; an
      error when the random source is dry; otherwise a reply. */
  lemma SealedReplyEnds(c: Suite, s: Bmc, v: SessionValue, sequence: u32, reply: Bytes, events: seq<Event>)
    ensures var out := SealedReply(c, s, v, sequence, reply, events).out;
            && (out.Fault? <==> |v.keys.k2| < 16 || (|s.random| >= 16 && |reply| > 15))
            && (out.Failed? <==> |v.keys.k2| >= 16 && |s.random| < 16)
            && (out.Failed? ==> out == Failed(NoRandom))
  {
    hide SealUnder, Authenticated, IntegrityData, HexPrefix;
  }

  lemma EncryptedPanicsIff(c: Suite, s: Bmc, h: Header, b: Bytes)
    requires IsEncrypted(h)
    ensures HandleEncrypted(c, s, h, b).out.Fault? <==> PayloadPanics(c, s, h, b)
  {
    hide Decrypt, DecryptPanics, Ipmi.Parse, Ipmi.Serve, SealedReply, NeedsTwoBlocks;
    if h.sessionId in s.sessions && |b| >= h.payloadLen {
      var v := s.sessions[h.sessionId];
      DecryptPanicsIff(c, v.keys.k2, b[..h.payloadLen]);
      DecryptNeedsKey(c, v.keys.k2, b[..h.payloadLen]);
      var m := MessageIn(c, s, h, b);
      if m.Some? {
        TwoBlocksIff(s, m.value);
        var served := Ipmi.Serve(s.machine, m.value);
        if served.reply.Some? {
          SealedReplyEnds(c, AfterCommand(s, served), v, h.sequence, served.reply.value,
                          [Dispatched(h.sessionId, m.value)] + CloseEvents(s, served.close));
        }
      }
    }
  }

  lemma TwoBlocksIff(s: Bmc, m: Ipmi.Message)
    ensures NeedsTwoBlocks(m) <==>
            Ipmi.Serve(s.machine, m).reply.Some? && |Ipmi.Serve(s.machine, m).reply.value| > 15
  {
    hide Ipmi.ReplyTo, Ipmi.ServeApp, Ipmi.ServeChassis;
    if Ipmi.Serve(s.machine, m).reply.Some? {
      Ipmi.ReplyLength(s.machine, m);
    }
  }

  lemma PlusPanicsIff(c: Suite, s: Bmc, h: Header, b: Bytes)
    ensures HandlePlus(c, s, h, b).out.Fault? <==> PayloadPanics(c, s, h, b)
  {
    hide HandleEncrypted, FromLE32, FreshId, HexPrefix, Rakp2Input, Rakp3Input, SikInput, CheckInput,
      PrintHeader, PrintOpenResponse, PrintRakp2, PrintRakp4;
    if IsEncrypted(h) {
      EncryptedPanicsIff(c, s, h, b);
    } else if |b| >= 48 {
      assert b[..48][4..8] == b[4..8] && b[..48][27] == b[27];
    }
  }

  lemma V15NeverPanics(s: Bmc, b: Bytes)
    ensures !Handle15(s, b).out.Fault?
  {
    hide ParseWrapper, Ipmi.Parse, Ipmi.Serve, PrintWrapper;
  }

  /** A received buffer panics the server exactly in the cases of Panics; v1.5 packets never do. */
  lemma PanicsIff(c: Suite, s: Bmc, b: Bytes)
    ensures Handle(c, s, b).out.Fault? <==> Panics(c, s, b)
  {
    hide HandlePlus, Handle15, ParseHeader, PayloadPanics;
    if |b| >= 5 {
      V15NeverPanics(s, b[5..]);
      if |b| >= 16 {
        PlusPanicsIff(c, s, ParseHeader(b[5..][..11]), b[5..][11..]);
      }
    }
  }

  // ---------- packets of others, over a run ----------

  /** Packets of which none names session id or panics, each judged in the state in which it arrives. */
  predicate NeverNamed(c: Suite, s: Bmc, buf: Bytes, packets: seq<Bytes>, id: u32)
    requires |buf| == BUFFER_SIZE
    decreases |packets|
  {
    packets == []
    || var b := Receive(buf, packets[0]);
       Named(c, s, b) != Some(id) && !Panics(c, s, b) && NeverNamed(c, Handle(c, s, b).next, b, packets[1..], id)
  }

  /** Such packets are all handled and leave the session exactly as it was. */
  lemma {:induction false} NeverNamedLeavesAlone(c: Suite, s: Bmc, buf: Bytes, packets: seq<Bytes>, id: u32)
    requires |buf| == BUFFER_SIZE && id in s.sessions && NeverNamed(c, s, buf, packets, id)
    ensures var run := ServeAll(c, s, buf, packets);
            && Fault !in run.outs && |run.outs| == |packets|
            && (forall k :: 0 <= k < |run.log| ==> !Touches(run.log[k], id))
            && Lookup(run.state.sessions, id) == Lookup(s.sessions, id)
    decreases |packets|
  {
    hide Handle, Receive, Named, Panics;
    if packets != [] {
      var b := Receive(buf, packets[0]);
      var step := Handle(c, s, b);
      PanicsIff(c, s, b);
      UnnamedUntouched(c, s, b, id);
      StepReplays(c, s, b);
      UntouchedStays(c, s.users, s.sessions, step.events, id);
      NeverNamedLeavesAlone(c, step.next, b, packets[1..], id);
    }
  }
}
