/** The handshake at a server as it is started: the one user it registers can connect, no other name and no
    other password can. */
module Started {
  import opened Options
  import opened Wire
  import opened Crypto
  import opened Power
  import opened Sessions
  import opened Rmcp
  import opened Runs
  import opened Packets
  import opened Handshake
  import opened Server

  /** "cybozu" in ASCII. */
  function Cybozu(): Bytes {
    [0x63, 0x79, 0x62, 0x6f, 0x7a, 0x75]
  }

  /** The server of StartIpmiServer, before its first packet. */
  function Start(machine: MachineState, random: Bytes): Stage {
    Stage(FreshServer(machine, random), Zeros(1024))
  }

  /** Where a started server may be: whatever packets it handled, its users are those it started with. */
  lemma UsersStay(c: Suite, machine: MachineState, random: Bytes, packets: seq<Bytes>)
    ensures Ready(Start(machine, random))
    ensures Meanwhile(c, Start(machine, random), packets).state.users == map[Cybozu() := Cybozu()]
  {
    hide ServeAll;
    var st := Start(machine, random);
    RunReplays(c, st.state, st.buf, packets);
  }

  /** From any state that a started server reaches, with any packets in between that neither name the
      session nor panic, and while random bytes last, user cybozu with password cybozu is connected. */
  lemma CybozuConnects(c: Suite, con: Console, machine: MachineState, random: Bytes, packets: seq<Bytes>,
                       m1: seq<Bytes>, m2: seq<Bytes>, m3: seq<Bytes>)
    requires con.name == con.password == Cybozu()
    ensures var st := Meanwhile(c, Start(machine, random), packets);
            Peaceful(c, con, st, m1, m2, m3) ==> Connect(c, con, st, m1, m2, m3).Established?
  {
    hide Connect, Peaceful, ServeAll;
    UsersStay(c, machine, random, packets);
    var st := Meanwhile(c, Start(machine, random), packets);
    if Peaceful(c, con, st, m1, m2, m3) {
      EstablishedAmongOthers(c, con, st, m1, m2, m3);
    }
  }

  /** Alone with a server just started, 36 random bytes are enough. */
  lemma CybozuConnectsAtOnce(c: Suite, con: Console, machine: MachineState, random: Bytes)
    requires con.name == con.password == Cybozu() && |random| >= 36
    ensures Connect(c, con, Start(machine, random), [], [], []).Established?
  {
    hide Connect, FromLE32;
    var st := Start(machine, random);
    assert FreshId({}, random) == Some((FromLE32(random[..4]), random[4..]));
    ConnectsAlone(c, con, st);
  }

  /** Any other name, of at most 20 bytes, is refused at RAKP 1 in every state that a started server
      reaches, on every open session, and nothing changes. */
  lemma OthersAreRefused(c: Suite, con: Console, machine: MachineState, random: Bytes, packets: seq<Bytes>, id: u32)
    requires |con.name| <= 20 && con.name != Cybozu()
    ensures var st := Meanwhile(c, Start(machine, random), packets);
            var (st1, out) := Deliver(c, st, Packet(0x12, Rakp1Payload(con, id)));
            id in st.state.sessions ==> out == Failed(NoUser) && st1.state == st.state
  {
    hide Handle, ParseRakp1, Packet, Rakp1Payload, ServeAll;
    UsersStay(c, machine, random, packets);
    var st := Meanwhile(c, Start(machine, random), packets);
    var payload := Rakp1Payload(con, id);
    PacketHandled(c, st.state, st.buf, 0x12, payload);
    Rakp1PacketParsed(con, id, st.buf[16 + |payload|..]);
  }

  /** An RAKP 3 on a session that waits for one, made by a console that saw everything but has some
      password: it is accepted exactly when its code is the one made with password cybozu, and otherwise
      nothing changes. */
  lemma PasswordDecides(c: Suite, con: Console, machine: MachineState, random: Bytes, packets: seq<Bytes>,
                        id: u32, t: Transcript)
    requires con.name == Cybozu() && t == Agreed(con, t.managedRandom, t.guid)
    ensures var st := Meanwhile(c, Start(machine, random), packets);
            var code := ConsoleRakp3Code(c, con, t.managedRandom);
            var right := ConsoleRakp3Code(c, con.(password := Cybozu()), t.managedRandom);
            var (st1, out) := Deliver(c, st, Packet(0x14, Rakp3Payload(con, id, code)));
            Lookup(st.state.sessions, id) == Some(SessionValue(con.id, id, t, NO_KEYS)) ==>
              && (out.Reply? <==> code == right)
              && (code != right ==> out == Failed(AuthFailed) && st1.state == st.state)
  {
    hide Handle, ParseRakp3, Packet, Rakp3Payload, ServeAll, Rakp3Input, Sik, DerivedKeys, CheckValue,
      PrintHeader, PrintRakp4, ConsoleRakp3Code, ConsoleKeys, ConsoleCheckValue;
    UsersStay(c, machine, random, packets);
    var st := Meanwhile(c, Start(machine, random), packets);
    var code := ConsoleRakp3Code(c, con, t.managedRandom);
    var payload := Rakp3Payload(con, id, code);
    PacketHandled(c, st.state, st.buf, 0x14, payload);
    Rakp3PacketParsed(con, id, code, st.buf[16 + |payload|..]);
    SameCodes(c, con.(password := Cybozu()), id, t);
  }
}
