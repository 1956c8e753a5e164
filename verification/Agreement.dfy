/** What an accepted authentication code says: its input is an injective encoding of the exchanged
    values, so the two sides agree on them or an HMAC collision is on the table. */
module Agreement {
  import opened Wire
  import opened Crypto
  import opened Sessions
  import opened Rmcp
  import opened Runs
  import opened Packets
  import opened Handshake

  /** Equal concatenations whose first parts are equally long have equal parts. */
  lemma SameParts(a: Bytes, b: Bytes, a': Bytes, b': Bytes)
    requires |a| == |a'| && a + b == a' + b'
    ensures a == a' && b == b'
  {
    assert (a + b)[..|a|] == a && (a' + b')[..|a|] == a';
    assert (a + b)[|a|..] == b && (a' + b')[|a|..] == b';
  }

  /** The tail that all inputs share determines privilege, name length and name. */
  lemma NameTailInjective(t: Transcript, t': Transcript)
    requires [t.privilege, t.userNameLength] + t.userName == [t'.privilege, t'.userNameLength] + t'.userName
    ensures t.privilege == t'.privilege && t.userNameLength == t'.userNameLength && t.userName == t'.userName
  {
    SameParts([t.privilege, t.userNameLength], t.userName, [t'.privilege, t'.userNameLength], t'.userName);
  }

  function NameTail(t: Transcript): Bytes {
    [t.privilege, t.userNameLength] + t.userName
  }

  lemma Rakp3InputInjective(id: u32, t: Transcript, id': u32, t': Transcript)
    requires Rakp3Input(id, t) == Rakp3Input(id', t')
    ensures id == id' && t'.(consoleRandom := t.consoleRandom, guid := t.guid) == t
  {
    hide LE32;
    assert Rakp3Input(id, t) == t.managedRandom + (LE32(id) + NameTail(t));
    assert Rakp3Input(id', t') == t'.managedRandom + (LE32(id') + NameTail(t'));
    SameParts(t.managedRandom, LE32(id) + NameTail(t), t'.managedRandom, LE32(id') + NameTail(t'));
    SameParts(LE32(id), NameTail(t), LE32(id'), NameTail(t'));
    LE32Injective(id, id');
    NameTailInjective(t, t');
  }

  lemma SikInputInjective(t: Transcript, t': Transcript)
    requires SikInput(t) == SikInput(t')
    ensures t'.(guid := t.guid) == t
  {
    assert SikInput(t) == t.consoleRandom + (t.managedRandom + NameTail(t));
    assert SikInput(t') == t'.consoleRandom + (t'.managedRandom + NameTail(t'));
    SameParts(t.consoleRandom, t.managedRandom + NameTail(t), t'.consoleRandom, t'.managedRandom + NameTail(t'));
    SameParts(t.managedRandom, NameTail(t), t'.managedRandom, NameTail(t'));
    NameTailInjective(t, t');
  }

  lemma Rakp2InputInjective(id: u32, mid: u32, t: Transcript, id': u32, mid': u32, t': Transcript)
    requires Rakp2Input(id, mid, t) == Rakp2Input(id', mid', t')
    ensures id == id' && mid == mid' && t == t'
  {
    hide LE32;
    var d, d' := t.guid + NameTail(t), t'.guid + NameTail(t');
    var r, r' := t.managedRandom + d, t'.managedRandom + d';
    var q, q' := t.consoleRandom + r, t'.consoleRandom + r';
    assert Rakp2Input(id, mid, t) == LE32(id) + (LE32(mid) + q);
    assert Rakp2Input(id', mid', t') == LE32(id') + (LE32(mid') + q');
    SameParts(LE32(id), LE32(mid) + q, LE32(id'), LE32(mid') + q');
    SameParts(LE32(mid), q, LE32(mid'), q');
    SameParts(t.consoleRandom, r, t'.consoleRandom, r');
    SameParts(t.managedRandom, d, t'.managedRandom, d');
    SameParts(t.guid, NameTail(t), t'.guid, NameTail(t'));
    LE32Injective(id, id');
    LE32Injective(mid, mid');
    NameTailInjective(t, t');
  }

  /** A RAKP 3 that the server accepts, sent by any console that knows the password: the console saw the
      random number the session stores, under the session's console id, privilege byte and user name;
      or the two inputs collide under HMAC. */
  lemma AcceptedRakp3Agrees(c: Suite, s: Bmc, con: Console, managedRandom: Bytes16, tag: byte, id: u32)
    requires |con.name| <= 20
    requires AcceptRakp3(c, s, Rakp3(tag, id, ConsoleRakp3Code(c, con, managedRandom))).out.Reply?
    requires s.users[s.sessions[id].transcript.userName] == con.password
    ensures var v := s.sessions[id];
            var t := v.transcript;
            var input := Rakp3Input(con.id, Agreed(con, managedRandom, managedRandom));
            || (&& t.managedRandom == managedRandom && v.consoleId == con.id
                && t.privilege == con.privilege && t.userName == con.name && t.userNameLength == |con.name|)
            || c.Collision(con.password, Rakp3Input(v.consoleId, t), input)
  {
    hide LE32, PrintHeader, PrintRakp4, CheckInput, SikInput;
    var v := s.sessions[id];
    var sent := Agreed(con, managedRandom, managedRandom);
    if Rakp3Input(v.consoleId, v.transcript) == Rakp3Input(con.id, sent) {
      Rakp3InputInjective(v.consoleId, v.transcript, con.id, sent);
    }
  }

  /** In every run from a fresh server, behind every command dispatched from an encrypted packet there is
      an RAKP 3, in the buffer when packet number i was handled, whose code fixes its sender's view:
      whatever console with that user's password produced the code, from whatever random number it saw,
      had the session's console id, random number, privilege and user name; or two inputs collide under
      HMAC. */
  lemma DispatchedMeansAgreement(c: Suite, s: Bmc, buf: Bytes, packets: seq<Bytes>, k: nat,
                                 con: Console, managedRandom: Bytes16)
    returns (o: nat, q: nat, a: nat, i: nat)
    requires |buf| == BUFFER_SIZE && Initial(s) && |con.name| <= 20
    requires k < |ServeAll(c, s, buf, packets).log| && ServeAll(c, s, buf, packets).log[k].Dispatched?
    ensures var log := ServeAll(c, s, buf, packets).log;
            var id := log[k].id;
            && o < q < a < k
            && log[o].Opened? && log[o].id == id
            && IsKeyed(log[a], id) && log[q] == Challenged(id, log[a].t)
            && i < |packets| && CarriesCode(BufferAt(buf, packets, i), id, log[a].code)
            && (|packets[i]| >= 44 ==> CarriesCode(packets[i], id, log[a].code))
            && log[a].t.userName in s.users
            && (log[a].code == ConsoleRakp3Code(c, con, managedRandom)
                && s.users[log[a].t.userName] == con.password ==>
                  || (&& log[o].consoleId == con.id
                      && log[a].t ==
                         Agreed(con, managedRandom, log[a].t.guid).(consoleRandom := log[a].t.consoleRandom))
                  || c.Collision(con.password, Rakp3Input(log[o].consoleId, log[a].t),
                                 Rakp3Input(con.id, Agreed(con, managedRandom, managedRandom))))
  {
    hide ServeAll, LE32, CarriesCode;
    o, q, a := OrderSafety(c, s, buf, packets, k);
    i := CodesWereReceived(c, s, buf, packets, a);
    var log := ServeAll(c, s, buf, packets).log;
    var sent := Agreed(con, managedRandom, managedRandom);
    if Rakp3Input(log[o].consoleId, log[a].t) == Rakp3Input(con.id, sent) {
      Rakp3InputInjective(log[o].consoleId, log[a].t, con.id, sent);
    }
  }

  /** A RAKP 2 code that the console accepts was made for its own session ids, random number, privilege
      and name and for the random number and GUID it received; or there is a collision. With the whole
      transcript agreed, both sides derive the same keys. */
  lemma AcceptedRakp2Agrees(c: Suite, con: Console, id: u32, managedRandom: Bytes16, guid: Bytes16,
                            consoleId: u32, managedId: u32, t: Transcript)
    requires |con.name| <= 20
    requires c.hmac(con.password, Rakp2Input(consoleId, managedId, t)) ==
             ConsoleRakp2Code(c, con, id, managedRandom, guid)
    ensures || (&& consoleId == con.id && managedId == id && t == Agreed(con, managedRandom, guid)
                && DerivedKeys(c, Sik(c, con.password, t)) == ConsoleKeys(c, con, managedRandom))
            || c.Collision(con.password, Rakp2Input(consoleId, managedId, t),
                           Rakp2Input(con.id, id, Agreed(con, managedRandom, guid)))
  {
    hide LE32;
    var seen := Agreed(con, managedRandom, guid);
    if Rakp2Input(consoleId, managedId, t) == Rakp2Input(con.id, id, seen) {
      Rakp2InputInjective(consoleId, managedId, t, con.id, id, seen);
      SameCodes(c, con, id, t);
    }
  }

  /** Two sessions of one user that hold the same SIK were keyed from the same random numbers, privilege
      and name, or there is a collision. */
  lemma SameSikSameTranscript(c: Suite, password: Bytes, t: Transcript, t': Transcript)
    requires Sik(c, password, t) == Sik(c, password, t')
    ensures t'.(guid := t.guid) == t || c.Collision(password, SikInput(t), SikInput(t'))
  {
    if SikInput(t) == SikInput(t') {
      SikInputInjective(t, t');
    }
  }
}
