/** The machine over whole runs of the IPMI server: it has obeyed exactly the messages that were served,
    no power order was redundant, and without v1.5 packets none was given before a handshake. */
module PowerRuns {
  import opened Options
  import opened Wire
  import opened Crypto
  import opened Power
  import opened Sessions
  import opened Rmcp
  import opened Runs
  import opened Packets
  import opened Replies
  import Ipmi

  // ---------- the messages behind the machine ----------

  /** The messages of encrypted packets in a log. */
  function Dispatches(log: seq<Event>): seq<Ipmi.Message> {
    if log == [] then []
    else (if log[0].Dispatched? then [log[0].message] else []) + Dispatches(log[1..])
  }

  predicate IsV15(b: Bytes) {
    |b| >= 5 && b[3] == CLASS_IPMI && b[4] == AUTH_NONE
  }

  /** The messages that a received buffer has served: that of a v1.5 packet, which belongs to no session,
      or those that its events dispatch. */
  function Messages(c: Suite, s: Bmc, b: Bytes): seq<Ipmi.Message> {
    if IsV15(b) then
      match Request15(b)
      case None => []
      case Some((_, m)) => [m]
    else Dispatches(Handle(c, s, b).events)
  }

  /** The messages served in a run, in order. */
  function RunMessages(c: Suite, s: Bmc, buf: Bytes, packets: seq<Bytes>): seq<Ipmi.Message>
    requires |buf| == BUFFER_SIZE
    decreases |packets|
  {
    if packets == [] then []
    else
      var b := Receive(buf, packets[0]);
      var step := Handle(c, s, b);
      Messages(c, s, b) + if step.out.Fault? then [] else RunMessages(c, step.next, b, packets[1..])
  }

  /** A machine that is given messages one after the other. */
  function Obeyed(machine: MachineState, ms: seq<Ipmi.Message>): MachineState
    decreases |ms|
  {
    if ms == [] then machine else Obeyed(Ipmi.Serve(machine, ms[0]).machine, ms[1..])
  }

  lemma {:induction false} ObeyedConcat(machine: MachineState, a: seq<Ipmi.Message>, b: seq<Ipmi.Message>)
    ensures Obeyed(machine, a + b) == Obeyed(Obeyed(machine, a), b)
    decreases |a|
  {
    hide Ipmi.Serve;
    if a == [] {
      assert a + b == b;
    } else {
      assert (a + b)[0] == a[0] && (a + b)[1..] == a[1..] + b;
      ObeyedConcat(Ipmi.Serve(machine, a[0]).machine, a[1..], b);
    }
  }

  lemma {:induction false} DispatchesConcat(a: seq<Event>, b: seq<Event>)
    ensures Dispatches(a + b) == Dispatches(a) + Dispatches(b)
    decreases |a|
  {
    if a == [] {
      assert a + b == b;
    } else {
      assert (a + b)[0] == a[0] && (a + b)[1..] == a[1..] + b;
      DispatchesConcat(a[1..], b);
    }
  }

  lemma ObeyedOne(machine: MachineState, m: Ipmi.Message)
    ensures Obeyed(machine, [m]) == Ipmi.Serve(machine, m).machine
  {
    hide Ipmi.Serve;
    assert [m][1..] == [];
  }

  /** The events of a command dispatch that command alone. */
  lemma CommandDispatches(s: Bmc, id: u32, m: Ipmi.Message, close: Option<u32>)
    ensures Dispatches([Dispatched(id, m)] + CloseEvents(s, close)) == [m]
  {
    var closed := CloseEvents(s, close);
    DispatchesConcat([Dispatched(id, m)], closed);
    assert |closed| == 1 ==> closed == [closed[0]] && closed[1..] == [];
    assert [Dispatched(id, m)][1..] == [];
  }

  lemma EncryptedObeys(c: Suite, s: Bmc, h: Header, b: Bytes)
    ensures var step := HandleEncrypted(c, s, h, b);
            step.next.machine == Obeyed(s.machine, Dispatches(step.events))
  {
    hide Decrypt, Ipmi.Parse, Ipmi.Serve, SealedReply;
    var m := MessageIn(c, s, h, b);
    if m.Some? {
      var v := Ipmi.Serve(s.machine, m.value);
      ObeyedOne(s.machine, m.value);
      CommandDispatches(s, h.sessionId, m.value, v.close);
      if v.reply.Some? {
        SealedReplyKeeps(c, AfterCommand(s, v), s.sessions[h.sessionId], h.sequence, v.reply.value,
                         [Dispatched(h.sessionId, m.value)] + CloseEvents(s, v.close));
      }
    }
  }

  /** A step that leaves the machine alone and dispatches nothing. */
  predicate Quiet(s: Bmc, step: Step) {
    && step.next.machine == s.machine && |step.events| <= 1
    && (step.events != [] ==> !step.events[0].Dispatched?)
  }

  lemma HandshakeIsQuiet(c: Suite, s: Bmc, b: Bytes)
    ensures Quiet(s, HandleOpen(s, b)) && Quiet(s, HandleRakp1(c, s, b)) && Quiet(s, HandleRakp3(c, s, b))
  {
    hide LE32, FromLE32, FreshId, HexPrefix, Rakp2Input, Rakp3Input, Sik, DerivedKeys, CheckValue, ParseOpen,
      ParseRakp1, ParseRakp3, PrintHeader, PrintOpenResponse, PrintRakp2, PrintRakp4;
  }

  lemma PlusObeys(c: Suite, s: Bmc, h: Header, b: Bytes)
    ensures var step := HandlePlus(c, s, h, b);
            step.next.machine == Obeyed(s.machine, Dispatches(step.events))
  {
    hide HandleEncrypted, HandleOpen, HandleRakp1, HandleRakp3, Ipmi.Serve;
    EncryptedObeys(c, s, h, b);
    HandshakeIsQuiet(c, s, b);
    var events := HandlePlus(c, s, h, b).events;
    if !IsEncrypted(h) && events != [] {
      assert events[1..] == [];
    }
  }

  /** Whatever a buffer holds, it changes the machine only by the messages it has served: an RMCP+ packet
      only with a Dispatched event. */
  lemma StepObeys(c: Suite, s: Bmc, b: Bytes)
    ensures Handle(c, s, b).next.machine == Obeyed(s.machine, Messages(c, s, b))
  {
    hide HandlePlus, Ipmi.Serve, Request15, ParseHeader, Handle15;
    if IsV15(b) {
      hide Handle;
      Handled15(c, s, b);
      if Request15(b).Some? {
        ObeyedOne(s.machine, Request15(b).value.1);
      }
    } else if |b| >= 16 {
      PlusObeys(c, s, ParseHeader(b[5..][..11]), b[5..][11..]);
    }
  }

  /** After any run the machine has obeyed exactly the messages served, in order. */
  lemma {:induction false} MachineObeys(c: Suite, s: Bmc, buf: Bytes, packets: seq<Bytes>)
    requires |buf| == BUFFER_SIZE
    ensures ServeAll(c, s, buf, packets).state.machine == Obeyed(s.machine, RunMessages(c, s, buf, packets))
    decreases |packets|
  {
    hide Handle, Receive, Messages, Ipmi.Serve;
    if packets != [] {
      var b := Receive(buf, packets[0]);
      var step := Handle(c, s, b);
      StepObeys(c, s, b);
      if step.out.Fault? {
        assert Messages(c, s, b) + [] == Messages(c, s, b);
      } else {
        MachineObeys(c, step.next, b, packets[1..]);
        ObeyedConcat(s.machine, Messages(c, s, b), RunMessages(c, step.next, b, packets[1..]));
      }
    }
  }

  // ---------- no redundant orders ----------

  lemma MessageIsNeeded(machine: MachineState, m: Ipmi.Message)
    requires NoRedundantCall(machine.calls)
    ensures var machine' := Ipmi.Serve(machine, m).machine;
            NoRedundantCall(machine'.calls) && machine.calls <= machine'.calls
  {
    hide Ipmi.ReplyTo, Fulfil, NoRedundantCall;
    if |m.data| >= 1 {
      ServedIsNeeded(machine, Chassis(m.data[0]));
    }
  }

  lemma {:induction false} MessagesAreNeeded(machine: MachineState, ms: seq<Ipmi.Message>)
    requires NoRedundantCall(machine.calls)
    ensures NoRedundantCall(Obeyed(machine, ms).calls) && machine.calls <= Obeyed(machine, ms).calls
    decreases |ms|
  {
    hide Ipmi.Serve, NoRedundantCall;
    if ms != [] {
      MessageIsNeeded(machine, ms[0]);
      MessagesAreNeeded(Ipmi.Serve(machine, ms[0]).machine, ms[1..]);
    }
  }

  /** Over every run, whatever the packets: PowerOn never reaches a machine that is on or powering on,
      PowerOff never one that is off or powering off, and orders given earlier stay as they were. */
  lemma NoRedundantOrdersOverRuns(c: Suite, s: Bmc, buf: Bytes, packets: seq<Bytes>)
    requires |buf| == BUFFER_SIZE && NoRedundantCall(s.machine.calls)
    ensures var calls := ServeAll(c, s, buf, packets).state.machine.calls;
            NoRedundantCall(calls) && s.machine.calls <= calls
  {
    hide ServeAll, NoRedundantCall, Obeyed, RunMessages;
    MachineObeys(c, s, buf, packets);
    MessagesAreNeeded(s.machine, RunMessages(c, s, buf, packets));
  }

  // ---------- no power without a handshake ----------

  /** Packets of which none is in the v1.5 format when it is handled. */
  predicate NoV15(buf: Bytes, packets: seq<Bytes>)
    requires |buf| == BUFFER_SIZE
    decreases |packets|
  {
    packets == [] || (!IsV15(Receive(buf, packets[0])) && NoV15(Receive(buf, packets[0]), packets[1..]))
  }

  lemma {:induction false} MessagesAreDispatches(c: Suite, s: Bmc, buf: Bytes, packets: seq<Bytes>)
    requires |buf| == BUFFER_SIZE && NoV15(buf, packets)
    ensures RunMessages(c, s, buf, packets) == Dispatches(ServeAll(c, s, buf, packets).log)
    decreases |packets|
  {
    hide Handle, Receive, IsV15;
    if packets != [] {
      var b := Receive(buf, packets[0]);
      var step := Handle(c, s, b);
      if step.out.Fault? {
        assert Messages(c, s, b) + [] == Messages(c, s, b);
      } else {
        MessagesAreDispatches(c, step.next, b, packets[1..]);
        DispatchesConcat(step.events, ServeAll(c, step.next, b, packets[1..]).log);
      }
    }
  }

  lemma {:induction false} SomeDispatch(log: seq<Event>) returns (k: nat)
    requires Dispatches(log) != []
    ensures k < |log| && log[k].Dispatched?
    decreases |log|
  {
    if log[0].Dispatched? {
      k := 0;
    } else {
      k := SomeDispatch(log[1..]);
      k := k + 1;
    }
  }

  /** A run from a fresh server without v1.5 packets: the machine has obeyed exactly the dispatched
      messages; so if it changed at all, a session was opened, challenged and keyed with the right code
      before. */
  lemma PowerNeedsHandshake(c: Suite, s: Bmc, buf: Bytes, packets: seq<Bytes>)
    returns (o: nat, q: nat, a: nat, k: nat)
    requires |buf| == BUFFER_SIZE && Initial(s) && NoV15(buf, packets)
    ensures var run := ServeAll(c, s, buf, packets);
            var log := run.log;
            && run.state.machine == Obeyed(s.machine, Dispatches(log))
            && (run.state.machine != s.machine ==>
                  && o < q < a < k < |log| && log[k].Dispatched?
                  && log[o].Opened? && log[o].id == log[k].id
                  && IsKeyed(log[a], log[k].id) && log[q] == Challenged(log[k].id, log[a].t)
                  && log[a].t.userName in s.users
                  && log[a].code == Rakp3Code(c, s.users, log[o].consoleId, log[a].t))
  {
    hide ServeAll, RunMessages, Rakp3Code;
    MachineObeys(c, s, buf, packets);
    MessagesAreDispatches(c, s, buf, packets);
    var log := ServeAll(c, s, buf, packets).log;
    o, q, a, k := 0, 0, 0, 0;
    if Dispatches(log) != [] {
      k := SomeDispatch(log);
      o, q, a := OrderSafety(c, s, buf, packets, k);
    }
  }

  /** The condition on the format is needed: any request in a v1.5 packet, whatever session id it gives, is
      served in every state, with or without sessions. */
  lemma PlainNeedsNoHandshake(c: Suite, s: Bmc, w: Wrapper, m: Ipmi.Message, x: Bytes)
    requires !Ipmi.IsResponse(m.targetLun) && m.completion == Ipmi.CODE_OK && w.messageLen == 7 + |m.data|
    ensures var b := RMCP_REPLY_HEADER + (PrintWrapper(w) + (Ipmi.Print(m) + x));
            && Messages(c, s, b) == [m]
            && Handle(c, s, b).next.machine == Ipmi.Serve(s.machine, m).machine
  {
    hide Handle, PrintWrapper, ParseWrapper, Ipmi.Print, Ipmi.Parse, Ipmi.Serve, Obeyed;
    var b := RMCP_REPLY_HEADER + (PrintWrapper(w) + (Ipmi.Print(m) + x));
    WrapperRoundTrip(w, Ipmi.Print(m) + x);
    Ipmi.ParseOfPrint(m, x);
    assert [] + m.data == m.data;
    assert b[4] == AUTH_NONE && b[5..] == (PrintWrapper(w) + (Ipmi.Print(m) + x))[1..];
    StepObeys(c, s, b);
    ObeyedOne(s.machine, m);
  }
}
