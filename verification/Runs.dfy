/** Runs of the BMC: the session table is at every moment the replay of the event log, every event of
    the log was permitted when it happened, and each session has the history its content claims. */
module Runs {
  import opened Options
  import opened Wire
  import opened Crypto
  import opened Sessions
  import opened Rmcp
  import Ipmi

  type Table = map<u32, SessionValue>

  // ---------- the protocol, on the session table alone ----------

  /** The only RAKP 3 code that is right for a console id and a transcript. */
  function Rakp3Code(c: Suite, users: map<Bytes, Bytes>, consoleId: u32, t: Transcript): Bytes20
    requires t.userName in users
  {
    c.hmac(users[t.userName], Rakp3Input(consoleId, t))
  }

  /** When an event may happen; an RAKP 3 only with the right code for what the session stores. */
  predicate Enabled(c: Suite, users: map<Bytes, Bytes>, table: Table, e: Event) {
    match e
    case Opened(id, _) => id !in table
    case Challenged(id, t) => id in table && t.userName in users && |t.userName| == t.userNameLength <= 20
    case Keyed(id, t, code) =>
      && id in table && t == table[id].transcript && t.userName in users
      && code == Rakp3Code(c, users, table[id].consoleId, t)
    case Dispatched(id, _) => id in table && |table[id].keys.k2| >= 16
    case Closed(id) => id in table
  }

  function Apply(c: Suite, users: map<Bytes, Bytes>, table: Table, e: Event): Table
    requires Enabled(c, users, table, e)
  {
    match e
    case Opened(id, consoleId) => table[id := Blank(consoleId, id)]
    case Challenged(id, t) => table[id := table[id].(transcript := t)]
    case Keyed(id, t, _) => table[id := table[id].(keys := DerivedKeys(c, Sik(c, users[t.userName], t)))]
    case Dispatched(_, _) => table
    case Closed(id) => table - {id}
  }

  /** The table after a log, or None once an event was not enabled. */
  function Replay(c: Suite, users: map<Bytes, Bytes>, table: Table, log: seq<Event>): Option<Table> {
    if log == [] then Some(table)
    else
      var before := Replay(c, users, table, log[..|log| - 1]);
      var e := log[|log| - 1];
      if before.Some? && Enabled(c, users, before.value, e) then Some(Apply(c, users, before.value, e)) else None
  }

  lemma ReplaySnoc(c: Suite, users: map<Bytes, Bytes>, table: Table, log: seq<Event>, e: Event)
    ensures Replay(c, users, table, log + [e]) ==
            var before := Replay(c, users, table, log);
            if before.Some? && Enabled(c, users, before.value, e) then Some(Apply(c, users, before.value, e)) else None
  {
  }

  lemma {:induction false} ReplayConcat(c: Suite, users: map<Bytes, Bytes>, table: Table, a: seq<Event>, b: seq<Event>)
    requires Replay(c, users, table, a).Some?
    ensures Replay(c, users, table, a + b) == Replay(c, users, Replay(c, users, table, a).value, b)
    decreases |b|
  {
    if b == [] {
      assert a + b == a;
    } else {
      var b' := b[..|b| - 1];
      ReplayConcat(c, users, table, a, b');
      assert a + b == (a + b') + [b[|b| - 1]];
      ReplaySnoc(c, users, table, a + b', b[|b| - 1]);
    }
  }

  lemma {:induction false} ReplayPrefix(c: Suite, users: map<Bytes, Bytes>, table: Table, log: seq<Event>, k: nat)
    requires Replay(c, users, table, log).Some? && k <= |log|
    ensures Replay(c, users, table, log[..k]).Some?
    ensures k < |log| ==> Enabled(c, users, Replay(c, users, table, log[..k]).value, log[k])
    decreases |log|
  {
    if k == |log| {
      assert log[..k] == log;
    } else if k < |log| - 1 {
      ReplayPrefix(c, users, table, log[..|log| - 1], k);
      assert log[..|log| - 1][..k] == log[..k];
    }
  }

  // ---------- every packet follows the protocol ----------

  /** A step whose events were enabled and lead exactly to its session table. */
  predicate Replays(c: Suite, s: Bmc, step: Step) {
    && step.next.users == s.users
    && Replay(c, s.users, s.sessions, step.events) == Some(step.next.sessions)
  }

  lemma ReplayOne(c: Suite, users: map<Bytes, Bytes>, table: Table, e: Event)
    requires Enabled(c, users, table, e)
    ensures Replay(c, users, table, [e]) == Some(Apply(c, users, table, e))
  {
  }

  lemma OpenReplays(c: Suite, s: Bmc, p: OpenRequest)
    ensures Replays(c, s, Open(s, p))
  {
    hide PrintHeader, PrintOpenResponse;
    var k := FreshIdIsFirst(s.sessions.Keys, s.random);
    if FreshId(s.sessions.Keys, s.random).Some? {
      ReplayOne(c, s.users, s.sessions, Opened(FreshId(s.sessions.Keys, s.random).value.0, p.consoleId));
    }
  }

  lemma Rakp1Replays(c: Suite, s: Bmc, p: Rakp1)
    ensures Replays(c, s, AcceptRakp1(c, s, p))
  {
  }

  lemma Rakp3Replays(c: Suite, s: Bmc, p: Rakp3)
    ensures Replays(c, s, AcceptRakp3(c, s, p))
  {
  }

  lemma CloseReplays(c: Suite, s: Bmc, v: Ipmi.Served)
    ensures Replay(c, s.users, s.sessions, CloseEvents(s, v.close)) == Some(AfterCommand(s, v).sessions)
  {
    if v.close.Some? && v.close.value in s.sessions {
      ReplayOne(c, s.users, s.sessions, Closed(v.close.value));
    } else if v.close.Some? {
      assert s.sessions - {v.close.value} == s.sessions;
    }
  }

  /** Sealing a reply changes nothing but the random source. */
  lemma SealedReplyKeeps(c: Suite, s: Bmc, v: SessionValue, sequence: u32, reply: Bytes, events: seq<Event>)
    ensures var step := SealedReply(c, s, v, sequence, reply, events);
            step.events == events && step.next.(random := s.random) == s
  {
  }

  lemma DispatchReplays(c: Suite, s: Bmc, h: Header, m: Ipmi.Message)
    requires h.sessionId in s.sessions && |s.sessions[h.sessionId].keys.k2| >= 16
    ensures Replays(c, s, Dispatch(c, s, h, m))
  {
    hide Ipmi.Serve, SealedReply;
    var v := Ipmi.Serve(s.machine, m);
    var e := Dispatched(h.sessionId, m);
    ReplayOne(c, s.users, s.sessions, e);
    ReplayConcat(c, s.users, s.sessions, [e], CloseEvents(s, v.close));
    CloseReplays(c, s, v);
    if v.reply.Some? {
      SealedReplyKeeps(c, AfterCommand(s, v), s.sessions[h.sessionId], h.sequence, v.reply.value,
                       [e] + CloseEvents(s, v.close));
    }
  }

  lemma DecryptNeedsKey(c: Suite, key: Bytes, payload: Bytes)
    ensures Decrypt(c, key, payload).Data? ==> |key| >= 16
  {
  }

  lemma EncryptedReplays(c: Suite, s: Bmc, h: Header, b: Bytes)
    ensures Replays(c, s, HandleEncrypted(c, s, h, b))
  {
    hide Dispatch, Decrypt, Ipmi.Parse;
    if h.sessionId in s.sessions && |b| >= h.payloadLen {
      var plain := Decrypt(c, s.sessions[h.sessionId].keys.k2, b[..h.payloadLen]);
      DecryptNeedsKey(c, s.sessions[h.sessionId].keys.k2, b[..h.payloadLen]);
      if plain.Data? && Ipmi.Parse(plain.bytes, |plain.bytes|).Some? {
        DispatchReplays(c, s, h, Ipmi.Parse(plain.bytes, |plain.bytes|).value);
      }
    }
  }

  lemma V15Replays(c: Suite, s: Bmc, b: Bytes)
    ensures Replays(c, s, Handle15(s, b))
  {
    hide Ipmi.Serve, Ipmi.Parse, PrintWrapper, ParseWrapper;
    if ParseWrapper(b).Some? {
      var (w, rest) := ParseWrapper(b).value;
      var m := Ipmi.Parse(rest, w.messageLen);
      if m.Some? {
        CloseReplays(c, s, Ipmi.Serve(s.machine, m.value));
      }
    }
  }

  lemma PlusReplays(c: Suite, s: Bmc, h: Header, b: Bytes)
    ensures Replays(c, s, HandlePlus(c, s, h, b))
  {
    hide Open, AcceptRakp1, AcceptRakp3, HandleEncrypted, ParseOpen, ParseRakp1, ParseRakp3;
    EncryptedReplays(c, s, h, b);
    if |b| >= 32 {
      OpenReplays(c, s, ParseOpen(b[..32]));
    }
    if |b| >= 48 {
      Rakp1Replays(c, s, ParseRakp1(b[..48]));
    }
    if |b| >= 28 {
      Rakp3Replays(c, s, ParseRakp3(b[..28]));
    }
  }

  lemma StepReplays(c: Suite, s: Bmc, b: Bytes)
    ensures Replays(c, s, Handle(c, s, b))
  {
    hide HandlePlus, Handle15, ParseHeader;
    if |b| >= 5 {
      V15Replays(c, s, b[5..]);
      if |b[5..]| >= 11 {
        PlusReplays(c, s, ParseHeader(b[5..][..11]), b[5..][11..]);
      }
    }
  }

  /** Over every run of packets, whatever was in the receive buffer, the log replays to the table. */
  lemma {:induction false} RunReplays(c: Suite, s: Bmc, buf: Bytes, packets: seq<Bytes>)
    requires |buf| == BUFFER_SIZE
    ensures var r := ServeAll(c, s, buf, packets);
            && r.state.users == s.users
            && Replay(c, s.users, s.sessions, r.log) == Some(r.state.sessions)
    decreases |packets|
  {
    hide Handle, Receive;
    if packets != [] {
      var buf' := Receive(buf, packets[0]);
      var step := Handle(c, s, buf');
      StepReplays(c, s, buf');
      if !step.out.Fault? {
        RunReplays(c, step.next, buf', packets[1..]);
        ReplayConcat(c, s.users, s.sessions, step.events, ServeAll(c, step.next, buf', packets[1..]).log);
      }
    }
  }

  // ---------- isolation ----------

  function Lookup(table: Table, id: u32): Option<SessionValue> {
    if id in table then Some(table[id]) else None
  }

  /** An event that may change the session id. */
  predicate Touches(e: Event, id: u32) {
    e.id == id && !e.Dispatched?
  }

  /** A session that no event of a log touches is as it was: present with the same content, or absent. */
  lemma {:induction false} UntouchedStays(c: Suite, users: map<Bytes, Bytes>, table: Table, log: seq<Event>, id: u32)
    requires Replay(c, users, table, log).Some?
    requires forall k :: 0 <= k < |log| ==> !Touches(log[k], id)
    ensures Lookup(Replay(c, users, table, log).value, id) == Lookup(table, id)
    decreases |log|
  {
    if log != [] {
      UntouchedStays(c, users, table, log[..|log| - 1], id);
      assert !Touches(log[|log| - 1], id);
    }
  }

  /** No step reports more than one event, or a dispatch and the close it led to. */
  predicate AtMostOneTouch(events: seq<Event>) {
    |events| <= 1 || (|events| == 2 && events[0].Dispatched? && events[1].Closed?)
  }

  lemma EncryptedTouchesOne(c: Suite, s: Bmc, h: Header, b: Bytes)
    ensures AtMostOneTouch(HandleEncrypted(c, s, h, b).events)
  {
    hide Decrypt, Ipmi.Parse, Ipmi.Serve, SealedReply;
    if h.sessionId in s.sessions && |b| >= h.payloadLen {
      var plain := Decrypt(c, s.sessions[h.sessionId].keys.k2, b[..h.payloadLen]);
      if plain.Data? && Ipmi.Parse(plain.bytes, |plain.bytes|).Some? {
        var m := Ipmi.Parse(plain.bytes, |plain.bytes|).value;
        var v := Ipmi.Serve(s.machine, m);
        if v.reply.Some? {
          SealedReplyKeeps(c, AfterCommand(s, v), s.sessions[h.sessionId], h.sequence, v.reply.value,
                           [Dispatched(h.sessionId, m)] + CloseEvents(s, v.close));
        }
      }
    }
  }

  lemma StepTouchesOne(c: Suite, s: Bmc, b: Bytes)
    ensures AtMostOneTouch(Handle(c, s, b).events)
  {
    hide HandleEncrypted, ParseHeader, ParseOpen, ParseRakp1, ParseRakp3, ParseWrapper, PrintHeader,
      PrintOpenResponse, PrintRakp2, PrintRakp4, PrintWrapper, Ipmi.Serve, Ipmi.Parse, FreshId, HexPrefix;
    if |b| >= 5 && |b[5..]| >= 11 {
      EncryptedTouchesOne(c, s, ParseHeader(b[5..][..11]), b[5..][11..]);
    }
  }

  // ---------- the history of a session ----------

  predicate IsChallenge(e: Event, id: u32) {
    e.Challenged? && e.id == id
  }

  predicate IsKeyed(e: Event, id: u32) {
    e.Keyed? && e.id == id
  }

  predicate EndsOrRestarts(e: Event, id: u32) {
    e.id == id && (e.Closed? || e.Opened?)
  }

  /** Positions in the log that account for a session: o where it was opened, never closed since; r its
      last RAKP 1; a its last accepted RAKP 3 and q the RAKP 1 that this one answered. -1 is none. */
  datatype Story = Story(o: int, r: int, q: int, a: int)

  ghost predicate Tells(c: Suite, users: map<Bytes, Bytes>, log: seq<Event>, id: u32, v: SessionValue, st: Story) {
    && v.managedId == id
    && 0 <= st.o < |log| && log[st.o] == Opened(id, v.consoleId)
    && (forall k :: st.o < k < |log| ==> !EndsOrRestarts(log[k], id))
    && TellsChallenge(log, id, v, st)
    && TellsKeys(c, users, log, id, v, st)
  }

  ghost predicate TellsChallenge(log: seq<Event>, id: u32, v: SessionValue, st: Story)
    requires 0 <= st.o < |log|
  {
    if st.r == -1 then
      && v.transcript == NO_TRANSCRIPT
      && (forall k :: st.o < k < |log| ==> !IsChallenge(log[k], id))
    else
      && st.o < st.r < |log| && log[st.r] == Challenged(id, v.transcript)
      && (forall k :: st.r < k < |log| ==> !IsChallenge(log[k], id))
  }

  /** Either no key was ever set, or all three come from the transcript of the last accepted RAKP 3,
      which is the transcript of the last RAKP 1 before it. */
  ghost predicate TellsKeys(c: Suite, users: map<Bytes, Bytes>, log: seq<Event>, id: u32, v: SessionValue, st: Story)
    requires 0 <= st.o < |log|
  {
    if st.a == -1 then
      && v.keys == NO_KEYS
      && (forall k :: st.o < k < |log| ==> !IsKeyed(log[k], id))
    else
      && st.o < st.q < st.a < |log|
      && IsKeyed(log[st.a], id) && log[st.q] == Challenged(id, log[st.a].t)
      && log[st.a].t.userName in users && |log[st.a].t.userName| == log[st.a].t.userNameLength
      && log[st.a].code == Rakp3Code(c, users, v.consoleId, log[st.a].t)
      && v.keys == DerivedKeys(c, Sik(c, users[log[st.a].t.userName], log[st.a].t))
      && (forall k :: st.q < k < st.a ==> !IsChallenge(log[k], id))
      && (forall k :: st.a < k < |log| ==> !IsKeyed(log[k], id))
  }

  /** How one event changes the story of a session. */
  function Retold(st: Story, e: Event, id: u32, at: nat): Story {
    if e.id != id then st
    else match e
      case Opened(_, _) => Story(at, -1, -1, -1)
      case Challenged(_, _) => st.(r := at)
      case Keyed(_, _, _) => st.(q := st.r, a := at)
      case _ => st
  }

  /** A session before RAKP 1, or with a registered name and its length. */
  ghost predicate Registered(users: map<Bytes, Bytes>, v: SessionValue) {
    v.transcript == NO_TRANSCRIPT
    || (v.transcript.userName in users && |v.transcript.userName| == v.transcript.userNameLength <= 20)
  }

  /** Every session in the table has a story: the table holds exactly what the log accounts for. */
  lemma {:induction false} EverySessionHasAStory(c: Suite, users: map<Bytes, Bytes>, log: seq<Event>, id: u32)
    returns (st: Story)
    requires [] !in users
    requires Replay(c, users, map[], log).Some?
    requires id in Replay(c, users, map[], log).value
    ensures Tells(c, users, log, id, Replay(c, users, map[], log).value[id], st)
    ensures Registered(users, Replay(c, users, map[], log).value[id])
    decreases |log|
  {
    hide Sik, DerivedKeys, Rakp3Code;
    var n := |log| - 1;
    var e := log[n];
    var before := Replay(c, users, map[], log[..n]).value;
    if e.id == id && e.Opened? {
      st := Story(n, -1, -1, -1);
    } else {
      st := EverySessionHasAStory(c, users, log[..n], id);
      StoryStep(c, users, log, id, before[id], st);
      st := Retold(st, e, id, n);
    }
  }

  lemma StoryStep(c: Suite, users: map<Bytes, Bytes>, log: seq<Event>, id: u32, v: SessionValue, st: Story)
    requires log != [] && [] !in users
    requires Tells(c, users, log[..|log| - 1], id, v, st) && Registered(users, v)
    requires !EndsOrRestarts(log[|log| - 1], id)
    requires Enabled(c, users, map[id := v], log[|log| - 1]) || log[|log| - 1].id != id
    ensures var e := log[|log| - 1];
            var v' := if e.id != id then v else Apply(c, users, map[id := v], e)[id];
            Tells(c, users, log, id, v', Retold(st, e, id, |log| - 1)) && Registered(users, v')
  {
    hide Sik, DerivedKeys, Rakp3Code;
    var e := log[|log| - 1];
    var old' := log[..|log| - 1];
    assert forall k :: 0 <= k < |old'| ==> old'[k] == log[k];
  }

  // ---------- order safety ----------

  /** In every run from a fresh server, a command is dispatched from an encrypted packet only on a
      session that was opened, then challenged by RAKP 1, then keyed by an RAKP 3 accepted against that
      very challenge, in this order, and that was not closed or reopened since. The code of that RAKP 3 is
      the HMAC, under the registered password, of the console id of the Open and the transcript of the
      challenge. */
  lemma OrderSafety(c: Suite, s: Bmc, buf: Bytes, packets: seq<Bytes>, k: nat)
    returns (o: nat, q: nat, a: nat)
    requires |buf| == BUFFER_SIZE && Initial(s)
    requires k < |ServeAll(c, s, buf, packets).log| && ServeAll(c, s, buf, packets).log[k].Dispatched?
    ensures var log := ServeAll(c, s, buf, packets).log;
            var id := log[k].id;
            && o < q < a < k
            && log[o].Opened? && log[o].id == id
            && IsKeyed(log[a], id) && log[q] == Challenged(id, log[a].t)
            && (forall i :: q < i < a ==> !IsChallenge(log[i], id))
            && (forall i :: o < i < k ==> !EndsOrRestarts(log[i], id))
            && log[a].t.userName in s.users
            && log[a].code == Rakp3Code(c, s.users, log[o].consoleId, log[a].t)
  {
    hide ServeAll, Sik, DerivedKeys, Rakp3Code;
    var log := ServeAll(c, s, buf, packets).log;
    var id := log[k].id;
    RunReplays(c, s, buf, packets);
    ReplayPrefix(c, s.users, map[], log, k);
    var st := EverySessionHasAStory(c, s.users, log[..k], id);
    var v := Replay(c, s.users, map[], log[..k]).value[id];
    assert v.keys != NO_KEYS;
    o, q, a := st.o, st.q, st.a;
    assert forall i :: 0 <= i < k ==> log[..k][i] == log[i];
  }

  /** In every state a run can reach, an RAKP 3 for a session that had no RAKP 1 since it was opened is
      refused and changes nothing, whatever happened to an earlier session of the same id. */
  lemma Rakp3NeedsRakp1(c: Suite, users: map<Bytes, Bytes>, log: seq<Event>, s: Bmc, p: Rakp3, o: nat)
    requires [] !in users && s.users == users
    requires Replay(c, users, map[], log) == Some(s.sessions)
    requires p.managedId in s.sessions
    requires o < |log| && log[o].Opened? && log[o].id == p.managedId
    requires forall k :: o < k < |log| ==> !IsChallenge(log[k], p.managedId)
    ensures AcceptRakp3(c, s, p) == Step(s, Failed(NoUser), [])
  {
    hide Sik, DerivedKeys, Rakp3Code, Rakp3Input, PrintHeader, PrintRakp4, CheckInput;
    var st := EverySessionHasAStory(c, users, log, p.managedId);
    assert EndsOrRestarts(log[o], p.managedId);
    assert st.r == -1;
  }

  /** The table invariant of every reachable state: each key is its session's id, the user name is empty
      or registered, and the keys are all absent or all derived from one transcript that some RAKP 1 of
      this session stored. */
  lemma TableInvariant(c: Suite, s: Bmc, buf: Bytes, packets: seq<Bytes>, id: u32) returns (st: Story)
    requires |buf| == BUFFER_SIZE && Initial(s)
    requires id in ServeAll(c, s, buf, packets).state.sessions
    ensures var r := ServeAll(c, s, buf, packets);
            && Tells(c, s.users, r.log, id, r.state.sessions[id], st)
            && Registered(s.users, r.state.sessions[id])
  {
    hide ServeAll;
    RunReplays(c, s, buf, packets);
    st := EverySessionHasAStory(c, s.users, ServeAll(c, s, buf, packets).log, id);
  }
}
