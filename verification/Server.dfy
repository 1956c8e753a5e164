/** The IPMI server as it runs: handlers that advance a reader and update session objects, the
    session map, the machine and the random source in place, and the receive loop over one shared
    buffer. Every method is proved to do exactly what the step functions of Rmcp say. */
module Server {
  import opened Options
  import opened Wire
  import opened Crypto
  import opened Power
  import opened Sessions
  import opened Rmcp
  import Ipmi

  class UserHolder {
    var users: map<Bytes, Bytes>

    constructor ()
      ensures users == map[]
    {
      users := map[];
    }

    /** addBMCUser. */
    method Add(name: Bytes, password: Bytes)
      modifies this
      ensures users == old(users)[name := password]
    {
      users := users[name := password];
    }
  }

  /** generateAdditionalKeyingMaterials. */
  method GenerateKeyingMaterial(c: Suite, sik: Bytes, b: byte) returns (r: Bytes)
    ensures r == KeyingMaterial(c, sik, b)
  {
    var cons := [];
    for i := 0 to 20
      invariant |cons| == i && forall k :: 0 <= k < i ==> cons[k] == b
    {
      cons := cons + [b];
    }
    assert cons == Repeated(b);
    r := c.hmac(sik, cons);
  }

  class BmcServer {
    const c: Suite
    const holder: SessionHolder
    const users: UserHolder
    const machine: Machine
    const random: Random

    ghost predicate Valid()
      reads holder, holder.repr
    {
      holder.Valid()
    }

    ghost function State(): Bmc
      reads holder, users, machine, random
    {
      Bmc(holder.view, users.users, machine.state, random.stream)
    }

    constructor (c: Suite, machine: Machine, random: Random)
      ensures Valid() && fresh(holder) && fresh(users) && this.machine == machine && this.random == random
      ensures this.c == c && users.users == map[] && State().sessions == map[]
      ensures holder.sessions == map[] && holder.repr == {}
    {
      this.c, this.machine, this.random := c, machine, random;
      holder := new SessionHolder();
      users := new UserHolder();
    }

    // ---------- Open Session ----------

    method HandleOpenSessionRequest(buf: Reader) returns (out: Outcome, ghost events: seq<Event>)
      requires Valid()
      modifies buf, holder, random
      ensures Valid() && fresh(holder.repr - old(holder.repr))
      ensures Step(State(), out, events) == HandleOpen(old(State()), old(buf.rest))
    {
      hide LE32, FreshId, PrintHeader, PrintOpenResponse, ParseOpen;
      var b := buf.Read(32);
      if b.None? {
        return Failed(ShortRead), [];
      }
      var p := ParseOpen(b.value);
      var session := holder.GetNew(p.consoleId, random);
      if session.None? {
        return Failed(NoRandom), [];
      }
      events := [Opened(session.value.managedId, p.consoleId)];
      out := Reply(PrintHeader(Header(PAYLOAD_OPEN_RESPONSE, 0, 0, 36))
                   + PrintOpenResponse(p.tag, p.consoleId, session.value.managedId));
    }

    // ---------- RAKP 1 ----------

    method HandleRakpMessage1(buf: Reader) returns (out: Outcome, ghost events: seq<Event>)
      requires Valid()
      modifies buf, holder`view, holder.repr, random
      ensures Valid()
      ensures Step(State(), out, events) == HandleRakp1(c, old(State()), old(buf.rest))
    {
      var b := buf.Read(48);
      if b.None? {
        return Failed(ShortRead), [];
      }
      out, events := ProcessRakp1(ParseRakp1(b.value));
    }

    method ProcessRakp1(p: Rakp1) returns (out: Outcome, ghost events: seq<Event>)
      requires Valid()
      modifies holder`view, holder.repr, random
      ensures Valid()
      ensures Step(State(), out, events) == AcceptRakp1(c, old(State()), p)
    {
      if p.managedId !in holder.sessions {
        return Failed(NoSession), [];
      }
      if p.userNameLength > 20 {
        return Fault, [];
      }
      var name := p.userName[..p.userNameLength];
      if name !in users.users {
        return Failed(NoUser), [];
      }
      var numbers := TwoNumbers();
      if numbers.None? {
        return Failed(NoRandom), [];
      }
      var t := Transcript(p.consoleRandom, numbers.value.0, numbers.value.1, p.privilege, name, p.userNameLength);
      out, events := SendChallenge(p.tag, p.managedId, t);
    }

    /** The two generateRandomNumber calls of RAKP 1. */
    method TwoNumbers() returns (r: Option<(Bytes16, Bytes16)>)
      modifies random
      ensures |old(random.stream)| < 32 ==> r == None && random.stream == []
      ensures |old(random.stream)| >= 32 ==>
                && random.stream == old(random.stream)[32..]
                && r == Some((HexPrefix(old(random.stream)[..16]), HexPrefix(old(random.stream)[16..32])))
    {
      ghost var stream := random.stream;
      var managedRandom := random.Number();
      if managedRandom.None? {
        return None;
      }
      var guid := random.Number();
      if guid.None? {
        return None;
      }
      assert stream[16..][..16] == stream[16..32] && stream[16..][16..] == stream[32..];
      r := Some((managedRandom.value, guid.value));
    }

    /** Stores the transcript and answers with the RAKP 2 authentication code. */
    method SendChallenge(tag: byte, id: u32, t: Transcript) returns (out: Outcome, ghost events: seq<Event>)
      requires Valid() && id in holder.sessions && t.userName in users.users
      modifies holder`view, holder.repr
      ensures Valid()
      ensures Step(State(), out, events) == Challenge(c, old(State()), tag, id, t, random.stream)
    {
      hide LE32, Rakp2Input, PrintHeader, PrintRakp2;
      var session := holder.sessions[id];
      ghost var v := holder.view[id];
      assert session.Value() == v;
      holder.StoreTranscript(id, t);
      assert State().sessions == old(State()).sessions[id := v.(transcript := t)];
      var code := c.hmac(users.users[t.userName], Rakp2Input(session.consoleId, session.managedId, t));
      events := [Challenged(id, t)];
      out := Reply(PrintHeader(Header(PAYLOAD_RAKP2, 0, 0, 60)) + PrintRakp2(tag, session.consoleId, t, code));
    }

    // ---------- RAKP 3 ----------

    method HandleRakpMessage3(buf: Reader) returns (out: Outcome, ghost events: seq<Event>)
      requires Valid()
      modifies buf, holder`view, holder.repr
      ensures Valid()
      ensures Step(State(), out, events) == HandleRakp3(c, old(State()), old(buf.rest))
    {
      var b := buf.Read(28);
      if b.None? {
        return Failed(ShortRead), [];
      }
      out, events := ProcessRakp3(ParseRakp3(b.value));
    }

    method ProcessRakp3(p: Rakp3) returns (out: Outcome, ghost events: seq<Event>)
      requires Valid()
      modifies holder`view, holder.repr
      ensures Valid()
      ensures Step(State(), out, events) == AcceptRakp3(c, old(State()), p)
    {
      hide LE32, Rakp3Input, SikInput, CheckInput, Repeated, PrintHeader, PrintRakp4;
      if p.managedId !in holder.sessions {
        return Failed(NoSession), [];
      }
      var session := holder.sessions[p.managedId];
      if session.userName !in users.users {
        return Failed(NoUser), [];
      }
      var password := users.users[session.userName];
      var t := Transcript(session.consoleRandom, session.managedRandom, session.guid,
                          session.privilege, session.userName, session.userNameLength);
      if p.code != c.hmac(password, Rakp3Input(session.consoleId, t)) {
        return Failed(AuthFailed), [];
      }
      var sik := Sik(c, password, t);
      DeriveKeys(p.managedId, sik);
      events := [Keyed(p.managedId, t, p.code)];
      out := Reply(PrintHeader(Header(PAYLOAD_RAKP4, 0, 0, 20))
                   + PrintRakp4(p.tag, session.consoleId, CheckValue(c, sik, session.managedId, t)));
    }

    /** Stores the SIK of a session with the two keys generated from it. */
    method DeriveKeys(id: u32, sik: Bytes20)
      requires Valid() && id in holder.sessions
      modifies holder`view, holder.repr
      ensures Valid()
      ensures holder.view == old(holder.view)[id := old(holder.view)[id].(keys := DerivedKeys(c, sik))]
    {
      hide Repeated;
      var k1 := GenerateKeyingMaterial(c, sik, 1);
      var k2 := GenerateKeyingMaterial(c, sik, 2);
      holder.StoreKeys(id, Keys(sik, k1, k2));
    }

    // ---------- IPMI commands ----------

    /** ipmi.handle: serves a message; None when the network function is not served. */
    method HandleIpmi(m: Ipmi.Message) returns (r: Option<Bytes>)
      requires Valid()
      modifies holder, machine
      ensures Valid() && fresh(holder.repr - old(holder.repr))
      ensures var v := Ipmi.Serve(old(machine.state), m);
              && r == v.reply
              && State() == AfterCommand(old(State()), v)
    {
      hide Ipmi.ReplyTo, Ipmi.ServeChassis, Ipmi.ServeApp;
      if Ipmi.NetFn(m) == Ipmi.NETFN_APP {
        var (served, close) := Ipmi.ServeApp(m);
        if close.Some? {
          holder.Remove(close.value);
        }
        var reply := Ipmi.AppendMessageHeader(m, Ipmi.NETFN_APP, served);
        r := Some(reply);
      } else if Ipmi.NetFn(m) == Ipmi.NETFN_CHASSIS {
        var served := Ipmi.HandleChassis(machine, m);
        var reply := Ipmi.AppendMessageHeader(m, Ipmi.NETFN_CHASSIS, served);
        r := Some(reply);
      } else {
        r := None;
      }
    }

    /** encryptByCBCMode and the framing of an encrypted reply; the session may have left the table. */
    method SendSealed(session: RmcpPlusSession, sequence: u32, reply: Bytes) returns (out: Outcome)
      requires Valid()
      modifies random
      ensures Valid()
      ensures var step := SealedReply(c, old(State()), old(session.Value()), sequence, reply, []);
              State() == step.next && out == step.out
    {
      if |session.k2| < 16 {
        return Fault;
      }
      var iv := random.Number();
      if iv.None? {
        return Failed(NoRandom);
      }
      var padded := PadPKCS7(reply);
      if |padded| > 16 {
        return Fault;
      }
      var ciphered := iv.value + CbcEncrypt(c, session.k2[..16], iv.value, padded);
      var packet := Authenticated(session.consoleId, sequence, ciphered);
      out := Reply(packet + IntegrityData(c, session.k1, packet));
    }

    method HandleEncryptedRequest(h: Header, buf: Reader) returns (out: Outcome, ghost events: seq<Event>)
      requires Valid()
      modifies buf, holder, machine, random
      ensures Valid() && fresh(holder.repr - old(holder.repr))
      ensures Step(State(), out, events) == HandleEncrypted(c, old(State()), h, old(buf.rest))
    {
      hide Dispatch, Ipmi.Parse, Decrypt;
      if h.sessionId !in holder.sessions {
        return Failed(NoSession), [];
      }
      var session := holder.sessions[h.sessionId];
      if session.userName !in users.users {
        return Failed(NoUser), [];
      }
      var payload := buf.Read(h.payloadLen);
      if payload.None? {
        return Failed(ShortRead), [];
      }
      var plain := Decrypt(c, session.k2, payload.value);
      if plain.BadSize? {
        return Failed(BadPayloadSize), [];
      }
      if plain.Panic? {
        return Fault, [];
      }
      var m := DecodeMessage(plain.bytes);
      if m.None? {
        return Failed(ShortRead), [];
      }
      out, events := DispatchCommand(h, m.value);
    }

    /** newIPMI on a decrypted payload. */
    method DecodeMessage(plain: Bytes) returns (m: Option<Ipmi.Message>)
      ensures m == Ipmi.Parse(plain, |plain|)
    {
      var inner := new Reader(plain);
      m := Ipmi.Deserialize(inner, |plain|);
    }

    /** Serves a decrypted message and seals the reply with the session's keys, even when the message
        closed that session. */
    method DispatchCommand(h: Header, m: Ipmi.Message) returns (out: Outcome, ghost events: seq<Event>)
      requires Valid() && h.sessionId in holder.sessions
      modifies holder, machine, random
      ensures Valid() && fresh(holder.repr - old(holder.repr))
      ensures Step(State(), out, events) == Dispatch(c, old(State()), h, m)
    {
      hide Ipmi.Serve, SealUnder, Authenticated, IntegrityData, HexPrefix;
      var session := holder.sessions[h.sessionId];
      events := [Dispatched(h.sessionId, m)] + CloseEvents(State(), Ipmi.Serve(machine.state, m).close);
      var reply := HandleIpmi(m);
      if reply.None? {
        return Failed(UnsupportedNetFn), events;
      }
      out := SendSealed(session, h.sequence, reply.value);
    }

    method HandleRmcpPlus(buf: Reader) returns (out: Outcome, ghost events: seq<Event>)
      requires Valid()
      modifies buf, holder, holder.repr, machine, random
      ensures Valid() && fresh(holder.repr - old(holder.repr))
      ensures Step(State(), out, events) == HandleSession(c, old(State()), AUTH_RMCP_PLUS, old(buf.rest))
    {
      hide HandleEncrypted, HandleOpen, HandleRakp1, HandleRakp3, ParseHeader;
      var b := buf.Read(11);
      if b.None? {
        return Failed(ShortRead), [];
      }
      var h := ParseHeader(b.value);
      if h.payloadType / 64 == 3 {
        out, events := HandleEncryptedRequest(h, buf);
      } else {
        var kind := h.payloadType % 64;
        if kind == PAYLOAD_OPEN_REQUEST {
          out, events := HandleOpenSessionRequest(buf);
        } else if kind == PAYLOAD_RAKP1 {
          out, events := HandleRakpMessage1(buf);
        } else if kind == PAYLOAD_RAKP3 {
          out, events := HandleRakpMessage3(buf);
        } else {
          out, events := Failed(UnsupportedPayload), [];
        }
      }
    }

    // ---------- v1.5 format ----------

    /** deserializeIPMISessionWrapper. */
    method ReadWrapper(buf: Reader) returns (r: Option<Wrapper>)
      modifies buf
      ensures r.None? <==> ParseWrapper(old(buf.rest)).None?
      ensures r.Some? ==> ParseWrapper(old(buf.rest)) == Some((r.value, buf.rest))
    {
      ghost var b := buf.rest;
      var sequence := buf.Read(4);
      if sequence.None? {
        return None;
      }
      var id := buf.Read(4);
      if id.None? {
        return None;
      }
      assert b[4..][..4] == b[4..8] && b[4..][4..] == b[8..];
      var sessionId := FromLE32(id.value);
      if sessionId != 0 {
        var code := buf.Read(16);
        if code.None? {
          return None;
        }
        assert buf.rest == b[24..];
      }
      var len := buf.Read(1);
      if len.None? {
        return None;
      }
      r := Some(Wrapper(FromLE32(sequence.value), sessionId, len.value[0]));
    }

    method HandleV15(buf: Reader) returns (out: Outcome, ghost events: seq<Event>)
      requires Valid()
      modifies buf, holder, machine
      ensures Valid() && fresh(holder.repr - old(holder.repr))
      ensures Step(State(), out, events) == Handle15(old(State()), old(buf.rest))
    {
      hide ParseWrapper, Ipmi.Parse, Ipmi.Serve, PrintWrapper;
      var w := ReadWrapper(buf);
      if w.None? {
        return Failed(ShortRead), [];
      }
      var m := Ipmi.Deserialize(buf, w.value.messageLen);
      if m.None? {
        return Failed(ShortRead), [];
      }
      events := CloseEvents(State(), Ipmi.Serve(machine.state, m.value).close);
      var res := HandleIpmi(m.value);
      if res.None? {
        return Failed(UnsupportedNetFn), events;
      }
      out := Reply(PrintWrapper(w.value.(messageLen := |res.value| % 0x100)) + res.value);
    }

    // ---------- RMCP ----------

    /** handleRMCPRequest. */
    method HandleRmcpRequest(buf: Reader) returns (out: Outcome, ghost events: seq<Event>)
      requires Valid()
      modifies buf, holder, holder.repr, machine, random
      ensures Valid() && fresh(holder.repr - old(holder.repr))
      ensures Step(State(), out, events) == Handle(c, old(State()), old(buf.rest))
    {
      hide HandlePlus, Handle15, ParseHeader;
      ghost var b := buf.rest;
      var header := buf.Read(4);
      if header.None? {
        return Failed(ShortRead), [];
      }
      if header.value[3] != CLASS_IPMI {
        return Failed(UnsupportedClass), [];
      }
      var authType := buf.Read(1);
      if authType.None? {
        return Failed(ShortRead), [];
      }
      assert buf.rest == b[5..];
      if authType.value[0] == AUTH_RMCP_PLUS {
        out, events := HandleRmcpPlus(buf);
      } else if authType.value[0] == AUTH_NONE {
        out, events := HandleV15(buf);
      } else {
        out, events := Failed(UnsupportedAuthType), [];
      }
      if out.Reply? {
        out := Reply(RMCP_REPLY_HEADER + out.bytes);
      }
    }

    // ---------- the receive loop ----------

    /** The loop of StartIPMIServer over the datagrams of a run: each is copied over the front of the
        shared buffer and the whole buffer is handled. A panic ends the server. */
    method ServePackets(buf: array<byte>, packets: seq<Bytes>) returns (outs: seq<Outcome>, ghost log: seq<Event>)
      requires Valid() && buf.Length == BUFFER_SIZE
      modifies buf, holder, holder.repr, machine, random
      ensures Valid()
      ensures Run(State(), buf[..], outs, log) == ServeAll(c, old(State()), old(buf[..]), packets)
    {
      hide Handle, Receive, ServeAll, Resumed;
      outs, log := [], [];
      ghost var run := ServeAll(c, State(), buf[..], packets);
      ResumedUnit(run);
      assert packets[0..] == packets;
      for i := 0 to |packets|
        invariant Valid() && fresh(holder.repr - old(holder.repr))
        invariant run == Resumed(outs, log, ServeAll(c, State(), buf[..], packets[i..]))
      {
        ServeStep(c, State(), buf[..], packets, i);
        var out, events := ServePacket(buf, packets[i]);
        ResumedTwice(outs, log, [out], events, ServeAll(c, State(), buf[..], packets[i + 1..]));
        ResumedTwice(outs, log, [out], events, Run(State(), buf[..], [], []));
        outs, log := outs + [out], log + events;
        if out.Fault? {
          ServeNothing(c, State(), buf[..], outs, log);
          return;
        }
      }
      assert packets[|packets|..] == [];
      ServeNothing(c, State(), buf[..], outs, log);
    }

    /** One turn of the loop. */
    method ServePacket(buf: array<byte>, packet: Bytes) returns (out: Outcome, ghost events: seq<Event>)
      requires Valid() && buf.Length == BUFFER_SIZE
      modifies buf, holder, holder.repr, machine, random
      ensures Valid() && fresh(holder.repr - old(holder.repr))
      ensures buf[..] == Receive(old(buf[..]), packet)
      ensures Step(State(), out, events) == Handle(c, old(State()), buf[..])
    {
      hide Handle, Receive;
      ReceiveInto(buf, packet);
      var reader := new Reader(buf[..]);
      out, events := HandleRmcpRequest(reader);
    }
  }

  const CYBOZU: Bytes := [99, 121, 98, 111, 122, 117]

  /** The server as StartIPMIServer creates it. */
  function FreshServer(machine: MachineState, random: Bytes): Bmc {
    Bmc(map[], map[CYBOZU := CYBOZU], machine, random)
  }

  lemma FreshServerIsInitial(machine: MachineState, random: Bytes)
    ensures Initial(FreshServer(machine, random))
  {
  }

  /** StartIPMIServer on the datagrams of a run: one registered user, no session, a zeroed buffer. */
  method StartIpmiServer(c: Suite, machine: Machine, random: Random, packets: seq<Bytes>)
    returns (outs: seq<Outcome>, ghost log: seq<Event>)
    modifies machine, random
    ensures var run := ServeAll(c, FreshServer(old(machine.state), old(random.stream)), Zeros(BUFFER_SIZE), packets);
            outs == run.outs && log == run.log && machine.state == run.state.machine
  {
    hide ServeAll;
    var server := new BmcServer(c, machine, random);
    server.users.Add(CYBOZU, CYBOZU);
    var buf := new byte[BUFFER_SIZE](_ => 0);
    assert buf[..] == Zeros(BUFFER_SIZE);
    outs, log := server.ServePackets(buf, packets);
  }

  /** A run of which some packets were handled before the rest. */
  ghost function Resumed(outs: seq<Outcome>, log: seq<Event>, rest: Run): Run {
    Run(rest.state, rest.buf, outs + rest.outs, log + rest.log)
  }

  lemma ResumedUnit(r: Run)
    ensures Resumed([], [], r) == r
  {
  }

  lemma ResumedTwice(outs: seq<Outcome>, log: seq<Event>, outs': seq<Outcome>, log': seq<Event>, r: Run)
    ensures Resumed(outs, log, Resumed(outs', log', r)) == Resumed(outs + outs', log + log', r)
  {
  }

  lemma ServeNothing(c: Suite, s: Bmc, buf: Bytes, outs: seq<Outcome>, log: seq<Event>)
    requires |buf| == BUFFER_SIZE
    ensures ServeAll(c, s, buf, []) == Run(s, buf, [], [])
    ensures Resumed(outs, log, Run(s, buf, [], [])) == Run(s, buf, outs, log)
  {
  }

  /** The run from packet i on is that packet's step and then the run from the next one, unless the step
      panicked. */
  lemma ServeStep(c: Suite, s: Bmc, buf: Bytes, packets: seq<Bytes>, i: nat)
    requires |buf| == BUFFER_SIZE && i < |packets|
    ensures var buf' := Receive(buf, packets[i]);
            var step := Handle(c, s, buf');
            ServeAll(c, s, buf, packets[i..]) ==
            Resumed([step.out], step.events,
                    if step.out.Fault? then Run(step.next, buf', [], [])
                    else ServeAll(c, step.next, buf', packets[i + 1..]))
  {
  }

  /** ReadFrom: a datagram longer than the buffer is cut. */
  method ReceiveInto(buf: array<byte>, packet: Bytes)
    requires buf.Length == BUFFER_SIZE
    modifies buf
    ensures buf[..] == Receive(old(buf[..]), packet)
  {
    var n := if |packet| >= BUFFER_SIZE then BUFFER_SIZE else |packet|;
    for i := 0 to n
      invariant forall k :: 0 <= k < i ==> buf[k] == packet[k]
      invariant forall k :: i <= k < BUFFER_SIZE ==> buf[k] == old(buf[..])[k]
    {
      buf[i] := packet[i];
    }
  }
}
