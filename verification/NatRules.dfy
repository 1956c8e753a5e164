/** The iptables rules of placemat: creating the PLACEMAT chains, appending the rules of networks, and
    the cleanup that restores the host's rules from wherever the setup stopped. */
module NatRules {
  import opened Options

  datatype Table = Filter | Nat

  /** A rule: what it matches and the target it jumps to. */
  datatype Rule = Rule(matches: seq<string>, target: string)

  /** The rules of every existing chain, for one IP version. */
  type Rules = map<(Table, string), seq<Rule>>

  const PLACEMAT := "PLACEMAT"
  const FORWARD := (Filter, "FORWARD")
  const POSTROUTING := (Nat, "POSTROUTING")
  const JUMP := Rule([], PLACEMAT)

  // ---------- the iptables commands ----------

  datatype Op =
    | NewChain(table: Table, chain: string)
    | Append(table: Table, chain: string, rule: Rule)
    | Delete(table: Table, chain: string, rule: Rule)
    | ClearChain(table: Table, chain: string)
    | DeleteChain(table: Table, chain: string)

  function RemoveFirst(rules: seq<Rule>, rule: Rule): seq<Rule> {
    if rules == [] then []
    else if rules[0] == rule then rules[1..]
    else [rules[0]] + RemoveFirst(rules[1..], rule)
  }

  predicate Mentions(rules: seq<Rule>, chain: string) {
    exists i :: 0 <= i < |rules| && rules[i].target == chain
  }

  /** Some rule of the table jumps to the chain. */
  predicate Referenced(r: Rules, table: Table, chain: string) {
    exists k :: k in r && k.0 == table && Mentions(r[k], chain)
  }

  /** The rules after a command, or None when iptables refuses it and changes nothing. ClearChain
      flushes a chain or creates it; DeleteChain needs it to be empty and unreferenced. */
  function Do(r: Rules, op: Op): Option<Rules> {
    var at := (op.table, op.chain);
    match op
    case NewChain(_, _) => if at in r then None else Some(r[at := []])
    case Append(_, _, rule) => if at !in r then None else Some(r[at := r[at] + [rule]])
    case Delete(_, _, rule) => if at !in r || rule !in r[at] then None else Some(r[at := RemoveFirst(r[at], rule)])
    case ClearChain(_, _) => Some(r[at := []])
    case DeleteChain(t, c) =>
      if at !in r || r[at] != [] || Referenced(r, t, c) then None else Some(r - {at})
  }

  // ---------- the host ----------

  datatype Proto = V4 | V6

  datatype Host = Host(v4: Rules, v6: Rules)

  function Get(h: Host, p: Proto): Rules {
    if p.V4? then h.v4 else h.v6
  }

  function Put(h: Host, p: Proto, r: Rules): Host {
    if p.V4? then h.(v4 := r) else h.(v6 := r)
  }

  datatype Command = Command(proto: Proto, op: Op)

  /** Which of the calls to iptables, counted from 0, work; a call that does not changes nothing. */
  type Fate = nat -> bool

  /** The host after some commands, the number of calls made by then, and whether none failed. */
  datatype Ran = Ran(host: Host, calls: nat, ok: bool)

  /** Commands run one by one, the first being call number n, until one does not work or is refused. */
  function Execute(h: Host, cs: seq<Command>, works: Fate, n: nat): Ran
    decreases |cs|
  {
    if cs == [] then Ran(h, n, true)
    else if !works(n) then Ran(h, n + 1, false)
    else
      match Do(Get(h, cs[0].proto), cs[0].op)
      case None => Ran(h, n + 1, false)
      case Some(r) => Execute(Put(h, cs[0].proto, r), cs[1..], works, n + 1)
  }

  /** A command whose failure is only logged. */
  function Attempt(r: Rules, op: Op, works: bool): Rules {
    var done := Do(r, op);
    if works && done.Some? then done.value else r
  }

  // ---------- what placemat runs ----------

  function CreateOps(): seq<Op> {
    [NewChain(Filter, PLACEMAT), NewChain(Nat, PLACEMAT),
     Append(Nat, POSTROUTING.1, JUMP), Append(Filter, FORWARD.1, JUMP)]
  }

  function On(p: Proto, ops: seq<Op>): seq<Command> {
    seq(|ops|, i requires 0 <= i < |ops| => Command(p, ops[i]))
  }

  function CreateCommands(): seq<Command> {
    On(V4, CreateOps()) + On(V6, CreateOps())
  }

  datatype NetworkType = Internal | External | Bmc

  datatype Network = Network(name: string, typ: NetworkType, useNat: bool, isV4: bool, ipNet: string)

  function AcceptOps(name: string): seq<Op> {
    [Append(Filter, PLACEMAT, Rule(["-i", name], "ACCEPT")), Append(Filter, PLACEMAT, Rule(["-o", name], "ACCEPT"))]
  }

  function MasqueradeOp(ipNet: string): Op {
    Append(Nat, PLACEMAT, Rule(["-s", ipNet, "!", "--destination", ipNet], "MASQUERADE"))
  }

  /** The rules a network's Setup appends. */
  function NetworkCommands(n: Network): seq<Command> {
    var accept := On(V4, AcceptOps(n.name)) + On(V6, AcceptOps(n.name));
    if !n.useNat then (if n.typ.Internal? then accept else [])
    else accept + [Command(if n.isV4 then V4 else V6, MasqueradeOp(n.ipNet))]
  }

  function NetworksCommands(ns: seq<Network>): seq<Command> {
    if ns == [] then [] else NetworkCommands(ns[0]) + NetworksCommands(ns[1..])
  }

  function CleanupOps(): seq<Op> {
    [Delete(Filter, FORWARD.1, JUMP), Delete(Nat, POSTROUTING.1, JUMP),
     ClearChain(Filter, PLACEMAT), DeleteChain(Filter, PLACEMAT),
     ClearChain(Nat, PLACEMAT), DeleteChain(Nat, PLACEMAT)]
  }

  function AttemptAll(r: Rules, ops: seq<Op>, works: Fate, n: nat): Rules
    decreases |ops|
  {
    if ops == [] then r else AttemptAll(Attempt(r, ops[0], works(n)), ops[1..], works, n + 1)
  }

  /** The host after a cleanup whose first call is call number n. */
  function Cleanup(h: Host, works: Fate, n: nat): Host {
    Host(AttemptAll(h.v4, CleanupOps(), works, n), AttemptAll(h.v6, CleanupOps(), works, n + 6))
  }

  ghost predicate AllWork(works: Fate, n: nat, count: nat) {
    forall i :: n <= i < n + count ==> works(i)
  }

  /** Rules that know nothing of PLACEMAT, with the two chains that every host has. */
  ghost predicate Pristine(r: Rules) {
    && FORWARD in r && POSTROUTING in r
    && (Filter, PLACEMAT) !in r && (Nat, PLACEMAT) !in r
    && (forall k :: k in r ==> !Mentions(r[k], PLACEMAT))
  }

  // ---------- where a setup can stop ----------

  /** The marks a setup has left on pristine rules: the two chains with their rules, and the two jumps. */
  datatype Marks = Marks(filterChain: Option<seq<Rule>>, natChain: Option<seq<Rule>>, post: bool, forward: bool)

  function Tail(k: (Table, string), m: Marks): seq<Rule> {
    if (k == FORWARD && m.forward) || (k == POSTROUTING && m.post) then [JUMP] else []
  }

  ghost predicate Marked(r0: Rules, r: Rules, m: Marks) {
    && Pristine(r0)
    && (forall k :: k in r0 ==> k in r && r[k] == r0[k] + Tail(k, m))
    && (forall k :: k in r ==>
          k in r0 || (k == (Filter, PLACEMAT) && m.filterChain.Some?) || (k == (Nat, PLACEMAT) && m.natChain.Some?))
    && (m.filterChain.Some? ==> (Filter, PLACEMAT) in r && r[(Filter, PLACEMAT)] == m.filterChain.value)
    && (m.natChain.Some? ==> (Nat, PLACEMAT) in r && r[(Nat, PLACEMAT)] == m.natChain.value)
  }

  const NO_MARKS := Marks(None, None, false, false)

  lemma PristineIsUnmarked(r: Rules)
    requires Pristine(r)
    ensures Marked(r, r, NO_MARKS)
  {
  }

  /** Rules without marks are the original ones, and only they are. */
  lemma UnmarkedIffOriginal(r0: Rules, r: Rules, m: Marks)
    requires Marked(r0, r, m)
    ensures r == r0 <==> m == NO_MARKS
  {
    if m == NO_MARKS {
      assert forall k :: k in r0 ==> r[k] == r0[k];
      assert r.Keys == r0.Keys;
    }
  }

  /** The marks after the first n creation commands. */
  function CreateMarks(n: nat): Marks {
    Marks(if n >= 1 then Some([]) else None, if n >= 2 then Some([]) else None, n >= 3, n >= 4)
  }

  lemma CreateStep(r0: Rules, r: Rules, n: nat)
    requires n < 4 && Marked(r0, r, CreateMarks(n))
    ensures Do(r, CreateOps()[n]).Some?
    ensures Marked(r0, Do(r, CreateOps()[n]).value, CreateMarks(n + 1))
  {
    var op := CreateOps()[n];
    var r' := Do(r, op).value;
    forall k | k in r0
      ensures k in r' && r'[k] == r0[k] + Tail(k, CreateMarks(n + 1))
    {
      assert r[k] == r0[k] + Tail(k, CreateMarks(n));
      assert r0[k] + [] + [JUMP] == r0[k] + [JUMP];
    }
  }

  /** A rule appended to one of the two chains stays inside them. */
  predicate IsNetworkOp(op: Op) {
    op.Append? && op.chain == PLACEMAT
  }

  lemma NetworkStep(r0: Rules, r: Rules, m: Marks, op: Op)
    requires Marked(r0, r, m) && m.filterChain.Some? && m.natChain.Some? && IsNetworkOp(op)
    ensures Do(r, op).Some?
    ensures var m' := if op.table.Filter? then m.(filterChain := Some(m.filterChain.value + [op.rule]))
                      else m.(natChain := Some(m.natChain.value + [op.rule]));
            Marked(r0, Do(r, op).value, m')
  {
  }

  // ---------- cleaning up ----------

  lemma {:induction false} RemoveLast(rules: seq<Rule>, rule: Rule)
    requires rule !in rules
    ensures RemoveFirst(rules + [rule], rule) == rules
    decreases |rules|
  {
    if rules == [] {
      assert rules + [rule] == [rule];
    } else {
      assert (rules + [rule])[1..] == rules[1..] + [rule];
      RemoveLast(rules[1..], rule);
    }
  }

  lemma UnmentionedHasNoJump(rules: seq<Rule>)
    requires !Mentions(rules, PLACEMAT)
    ensures JUMP !in rules
  {
  }

  lemma DeleteForward(r0: Rules, r: Rules, m: Marks, works: bool)
    requires Marked(r0, r, m)
    ensures Marked(r0, Attempt(r, Delete(Filter, FORWARD.1, JUMP), works), m.(forward := m.forward && !works))
  {
    UnmentionedHasNoJump(r0[FORWARD]);
    RemoveLast(r0[FORWARD], JUMP);
  }

  lemma DeletePostrouting(r0: Rules, r: Rules, m: Marks, works: bool)
    requires Marked(r0, r, m)
    ensures Marked(r0, Attempt(r, Delete(Nat, POSTROUTING.1, JUMP), works), m.(post := m.post && !works))
  {
    UnmentionedHasNoJump(r0[POSTROUTING]);
    RemoveLast(r0[POSTROUTING], JUMP);
  }

  lemma ClearChains(r0: Rules, r: Rules, m: Marks)
    requires Marked(r0, r, m)
    ensures Marked(r0, Attempt(r, ClearChain(Filter, PLACEMAT), true), m.(filterChain := Some([])))
    ensures Marked(r0, Attempt(r, ClearChain(Nat, PLACEMAT), true), m.(natChain := Some([])))
  {
  }

  /** The filter chain can be deleted exactly when it has been flushed and the jump to it is gone:
      nothing else refers to it. */
  lemma FilterChainGoesIff(r0: Rules, r: Rules, m: Marks)
    requires Marked(r0, r, m)
    ensures Do(r, DeleteChain(Filter, PLACEMAT)).Some? <==> m.filterChain == Some([]) && !m.forward
    ensures Do(r, DeleteChain(Filter, PLACEMAT)).Some? ==>
              Marked(r0, Do(r, DeleteChain(Filter, PLACEMAT)).value, m.(filterChain := None))
  {
    if m.forward {
      assert r[FORWARD][|r0[FORWARD]|] == JUMP;
      assert Mentions(r[FORWARD], PLACEMAT);
    } else if m.filterChain == Some([]) {
      forall k | k in r && k.0 == Filter
        ensures !Mentions(r[k], PLACEMAT)
      {
        if k.1 != PLACEMAT {
          assert r[k] == r0[k] + [];
          assert r[k] == r0[k];
        }
      }
    }
  }

  /** The same for the nat chain. */
  lemma NatChainGoesIff(r0: Rules, r: Rules, m: Marks)
    requires Marked(r0, r, m)
    ensures Do(r, DeleteChain(Nat, PLACEMAT)).Some? <==> m.natChain == Some([]) && !m.post
    ensures Do(r, DeleteChain(Nat, PLACEMAT)).Some? ==>
              Marked(r0, Do(r, DeleteChain(Nat, PLACEMAT)).value, m.(natChain := None))
  {
    if m.post {
      assert r[POSTROUTING][|r0[POSTROUTING]|] == JUMP;
      assert Mentions(r[POSTROUTING], PLACEMAT);
    } else if m.natChain == Some([]) {
      forall k | k in r && k.0 == Nat
        ensures !Mentions(r[k], PLACEMAT)
      {
        if k.1 != PLACEMAT {
          assert r[k] == r0[k] + [];
          assert r[k] == r0[k];
        }
      }
    }
  }

  /** A chain after the calls that clear and delete it, given whether each works and a jump refers to it. */
  function Dropped(chain: Option<seq<Rule>>, jump: bool, clears: bool, deletes: bool): Option<seq<Rule>> {
    var cleared := if clears then Some([]) else chain;
    if deletes && cleared == Some([]) && !jump then None else cleared
  }

  lemma DropFilterChain(r0: Rules, r: Rules, m: Marks, clears: bool, deletes: bool)
    requires Marked(r0, r, m)
    ensures var cleared := Attempt(r, ClearChain(Filter, PLACEMAT), clears);
            Marked(r0, Attempt(cleared, DeleteChain(Filter, PLACEMAT), deletes),
                   m.(filterChain := Dropped(m.filterChain, m.forward, clears, deletes)))
  {
    hide Marked, Do;
    ClearChains(r0, r, m);
    FilterChainGoesIff(r0, Attempt(r, ClearChain(Filter, PLACEMAT), clears),
                       m.(filterChain := if clears then Some([]) else m.filterChain));
  }

  lemma DropNatChain(r0: Rules, r: Rules, m: Marks, clears: bool, deletes: bool)
    requires Marked(r0, r, m)
    ensures var cleared := Attempt(r, ClearChain(Nat, PLACEMAT), clears);
            Marked(r0, Attempt(cleared, DeleteChain(Nat, PLACEMAT), deletes),
                   m.(natChain := Dropped(m.natChain, m.post, clears, deletes)))
  {
    hide Marked, Do;
    ClearChains(r0, r, m);
    NatChainGoesIff(r0, Attempt(r, ClearChain(Nat, PLACEMAT), clears),
                    m.(natChain := if clears then Some([]) else m.natChain));
  }

  /** The marks that are left by a cleanup on one IP version whose first call is call number n. */
  function Remaining(m: Marks, works: Fate, n: nat): Marks {
    var forward := m.forward && !works(n);
    var post := m.post && !works(n + 1);
    Marks(Dropped(m.filterChain, forward, works(n + 2), works(n + 3)),
          Dropped(m.natChain, post, works(n + 4), works(n + 5)),
          post, forward)
  }

  /** A cleanup during which any of the calls may fail still leaves only marks of the setup, and
      exactly these. */
  lemma CleanupLeaves(r0: Rules, r: Rules, m: Marks, works: Fate, n: nat)
    requires Marked(r0, r, m)
    ensures Marked(r0, AttemptAll(r, CleanupOps(), works, n), Remaining(m, works, n))
  {
    hide Marked, Attempt, AttemptAll, Dropped;
    var ops := CleanupOps();
    var r1 := Attempt(r, ops[0], works(n));
    var r2 := Attempt(r1, ops[1], works(n + 1));
    var r4 := Attempt(Attempt(r2, ops[2], works(n + 2)), ops[3], works(n + 3));
    var end := Remaining(m, works, n);
    var m2 := m.(forward := end.forward, post := end.post);
    AttemptUnfolded(r, works, n);
    DeleteForward(r0, r, m, works(n));
    DeletePostrouting(r0, r1, m.(forward := end.forward), works(n + 1));
    DropFilterChain(r0, r2, m2, works(n + 2), works(n + 3));
    DropNatChain(r0, r4, m2.(filterChain := end.filterChain), works(n + 4), works(n + 5));
  }

  /** Whatever marks a setup left and whichever calls of the cleanup fail: the rules are the original
      ones exactly when no mark remains, and that is so when all six calls work. */
  lemma CleanupRestoresIff(r0: Rules, r: Rules, m: Marks, works: Fate, n: nat)
    requires Marked(r0, r, m)
    ensures AttemptAll(r, CleanupOps(), works, n) == r0 <==> Remaining(m, works, n) == NO_MARKS
    ensures AllWork(works, n, 6) ==> Remaining(m, works, n) == NO_MARKS
  {
    hide Marked, AttemptAll;
    CleanupLeaves(r0, r, m, works, n);
    UnmarkedIffOriginal(r0, AttemptAll(r, CleanupOps(), works, n), Remaining(m, works, n));
  }

  lemma AttemptUnfolded(r: Rules, works: Fate, n: nat)
    ensures var ops := CleanupOps();
            AttemptAll(r, ops, works, n) ==
            var r1 := Attempt(r, ops[0], works(n));
            var r2 := Attempt(r1, ops[1], works(n + 1));
            var r3 := Attempt(r2, ops[2], works(n + 2));
            var r4 := Attempt(r3, ops[3], works(n + 3));
            var r5 := Attempt(r4, ops[4], works(n + 4));
            Attempt(r5, ops[5], works(n + 5))
  {
    hide Attempt;
  }

  // ---------- setup, stopped anywhere ----------

  /** A host whose two rule sets each carry the marks of an unfinished or finished setup. */
  ghost predicate Touched(h0: Host, h: Host, m4: Marks, m6: Marks) {
    Marked(h0.v4, h.v4, m4) && Marked(h0.v6, h.v6, m6)
  }

  ghost predicate SomewhereInSetup(h0: Host, h: Host) {
    exists m4, m6 :: Touched(h0, h, m4, m6)
  }

  lemma {:induction false} ExecuteConcat(h: Host, a: seq<Command>, b: seq<Command>, works: Fate, n: nat)
    ensures Execute(h, a + b, works, n) ==
            var r := Execute(h, a, works, n);
            if r.ok then Execute(r.host, b, works, r.calls) else r
    decreases |a|
  {
    hide Do;
    if a == [] {
      assert a + b == b;
    } else {
      assert (a + b)[0] == a[0] && (a + b)[1..] == a[1..] + b;
      if works(n) && Do(Get(h, a[0].proto), a[0].op).Some? {
        ExecuteConcat(Put(h, a[0].proto, Do(Get(h, a[0].proto), a[0].op).value), a[1..], b, works, n + 1);
      }
    }
  }

  /** Creation on one IP version, from its i-th command on: it stops with the marks of some command, and
      with all four when it does not stop. */
  lemma {:induction false} CreateMarksHost(r0: Rules, h: Host, p: Proto, i: nat, works: Fate, n: nat)
    returns (k: nat)
    requires i <= 4 && Marked(r0, Get(h, p), CreateMarks(i))
    ensures var r := Execute(h, On(p, CreateOps())[i..], works, n);
            && k <= 4 && (r.ok ==> k == 4)
            && (AllWork(works, n, 4 - i) ==> r.ok && r.calls == n + 4 - i)
            && Marked(r0, Get(r.host, p), CreateMarks(k))
            && r.host == Put(h, p, Get(r.host, p))
    decreases 4 - i
  {
    hide Do, Marked, CreateMarks;
    var cs := On(p, CreateOps());
    if i == 4 || !works(n) {
      k := i;
      assert i == 4 ==> cs[i..] == [];
    } else {
      CreateStep(r0, Get(h, p), i);
      assert cs[i..][0] == Command(p, CreateOps()[i]) && cs[i..][1..] == cs[i + 1..];
      k := CreateMarksHost(r0, Put(h, p, Do(Get(h, p), CreateOps()[i]).value), p, i + 1, works, n + 1);
    }
  }

  lemma CreateStops(h0: Host, works: Fate, n: nat)
    requires Pristine(h0.v4) && Pristine(h0.v6)
    ensures var r := Execute(h0, CreateCommands(), works, n);
            && SomewhereInSetup(h0, r.host)
            && (r.ok ==> Touched(h0, r.host, CreateMarks(4), CreateMarks(4)))
            && (AllWork(works, n, 8) ==> r.ok && r.calls == n + 8)
  {
    hide Do, Marked, CreateMarks, Pristine;
    var a, b := On(V4, CreateOps()), On(V6, CreateOps());
    assert a[0..] == a && b[0..] == b;
    PristineIsUnmarked(h0.v4);
    PristineIsUnmarked(h0.v6);
    NoMarksYet();
    ExecuteConcat(h0, a, b, works, n);
    var k4 := CreateMarksHost(h0.v4, h0, V4, 0, works, n);
    var r := Execute(h0, a, works, n);
    if r.ok {
      var k6 := CreateMarksHost(h0.v6, r.host, V6, 0, works, r.calls);
      assert Touched(h0, Execute(r.host, b, works, r.calls).host, CreateMarks(k4), CreateMarks(k6));
    } else {
      assert Touched(h0, r.host, CreateMarks(k4), NO_MARKS);
    }
  }

  lemma NoMarksYet()
    ensures CreateMarks(0) == NO_MARKS
    ensures CreateMarks(4).filterChain.Some? && CreateMarks(4).natChain.Some?
  {
  }

  lemma {:induction false} NetworksKeep(h0: Host, h: Host, m4: Marks, m6: Marks,
                                       cs: seq<Command>, works: Fate, n: nat)
    requires Touched(h0, h, m4, m6)
    requires m4.filterChain.Some? && m4.natChain.Some? && m6.filterChain.Some? && m6.natChain.Some?
    requires forall i :: 0 <= i < |cs| ==> IsNetworkOp(cs[i].op)
    ensures SomewhereInSetup(h0, Execute(h, cs, works, n).host)
    decreases |cs|
  {
    hide Do, Marked;
    if cs != [] && works(n) {
      var op := cs[0].op;
      if cs[0].proto.V4? {
        NetworkStep(h0.v4, h.v4, m4, op);
        var m := if op.table.Filter? then m4.(filterChain := Some(m4.filterChain.value + [op.rule]))
                 else m4.(natChain := Some(m4.natChain.value + [op.rule]));
        NetworksKeep(h0, h.(v4 := Do(h.v4, op).value), m, m6, cs[1..], works, n + 1);
      } else {
        NetworkStep(h0.v6, h.v6, m6, op);
        var m := if op.table.Filter? then m6.(filterChain := Some(m6.filterChain.value + [op.rule]))
                 else m6.(natChain := Some(m6.natChain.value + [op.rule]));
        NetworksKeep(h0, h.(v6 := Do(h.v6, op).value), m4, m, cs[1..], works, n + 1);
      }
    }
  }

  lemma {:induction false} NetworkCommandsAppend(ns: seq<Network>)
    ensures forall i :: 0 <= i < |NetworksCommands(ns)| ==> IsNetworkOp(NetworksCommands(ns)[i].op)
    decreases |ns|
  {
    if ns != [] {
      NetworkCommandsAppend(ns[1..]);
      assert forall i :: 0 <= i < |NetworkCommands(ns[0])| ==> IsNetworkOp(NetworkCommands(ns[0])[i].op);
    }
  }

  /** On a host that knows nothing of PLACEMAT: create the rules and set up any networks, whichever
      calls fail. */
  lemma SetupStopsSomewhere(h0: Host, ns: seq<Network>, works: Fate, n: nat)
    requires Pristine(h0.v4) && Pristine(h0.v6)
    ensures SomewhereInSetup(h0, Execute(h0, CreateCommands() + NetworksCommands(ns), works, n).host)
  {
    hide Execute, Marked, CreateCommands, NetworksCommands, CreateMarks;
    ExecuteConcat(h0, CreateCommands(), NetworksCommands(ns), works, n);
    CreateStops(h0, works, n);
    var r := Execute(h0, CreateCommands(), works, n);
    if r.ok {
      NetworkCommandsAppend(ns);
      NoMarksYet();
      NetworksKeep(h0, r.host, CreateMarks(4), CreateMarks(4), NetworksCommands(ns), works, r.calls);
    }
  }

  /** A cleanup leads from somewhere in the setup to somewhere in the setup, whichever calls fail, and
      to the original host when all of them work. */
  lemma CleanupStaysOrRestores(h0: Host, h: Host, works: Fate, n: nat)
    requires SomewhereInSetup(h0, h)
    ensures SomewhereInSetup(h0, Cleanup(h, works, n))
    ensures AllWork(works, n, 12) ==> Cleanup(h, works, n) == h0
  {
    hide Marked, AttemptAll, Remaining;
    var m4, m6 :| Touched(h0, h, m4, m6);
    CleanupLeaves(h0.v4, h.v4, m4, works, n);
    CleanupLeaves(h0.v6, h.v6, m6, works, n + 6);
    assert Touched(h0, Cleanup(h, works, n), Remaining(m4, works, n), Remaining(m6, works, n + 6));
    CleanupRestoresIff(h0.v4, h.v4, m4, works, n);
    CleanupRestoresIff(h0.v6, h.v6, m6, works, n + 6);
  }

  /** Any number of cleanups, one after the other. */
  function Cleanups(h: Host, count: nat, works: Fate, n: nat): Host
    decreases count
  {
    if count == 0 then h else Cleanups(Cleanup(h, works, n), count - 1, works, n + 12)
  }

  lemma {:induction false} CleanupsStay(h0: Host, h: Host, count: nat, works: Fate, n: nat)
    requires SomewhereInSetup(h0, h)
    ensures SomewhereInSetup(h0, Cleanups(h, count, works, n))
    decreases count
  {
    hide SomewhereInSetup, Cleanup;
    if count > 0 {
      CleanupStaysOrRestores(h0, h, works, n);
      CleanupsStay(h0, Cleanup(h, works, n), count - 1, works, n + 12);
    }
  }

  /** Create the rules, set up any networks, with any calls failing and so stopping anywhere; clean up
      any number of times with any calls failing; then clean up with all calls working. The rules of
      both IP versions are exactly the original ones, every chain and every rule in its place. */
  lemma RestoredFromAnywhere(h0: Host, ns: seq<Network>, count: nat, works: Fate, n: nat)
    requires Pristine(h0.v4) && Pristine(h0.v6)
    ensures var r := Execute(h0, CreateCommands() + NetworksCommands(ns), works, n);
            var last := r.calls + 12 * count;
            AllWork(works, last, 12) ==> Cleanup(Cleanups(r.host, count, works, r.calls), works, last) == h0
  {
    hide Execute, SomewhereInSetup, Cleanup, Cleanups, CreateCommands, NetworksCommands;
    SetupStopsSomewhere(h0, ns, works, n);
    var r := Execute(h0, CreateCommands() + NetworksCommands(ns), works, n);
    CleanupsStay(h0, r.host, count, works, r.calls);
    CleanupStaysOrRestores(h0, Cleanups(r.host, count, works, r.calls), works, r.calls + 12 * count);
  }

  // ---------- the code that runs the commands ----------

  /** The kernel's rules behind the iptables library, and the number of calls made. */
  class Kernel {
    const works: Fate
    var host: Host
    var calls: nat

    constructor (host: Host, works: Fate)
      ensures this.host == host && this.works == works && calls == 0
    {
      this.host, this.works, calls := host, works, 0;
    }

    method Call(p: Proto, op: Op) returns (ok: bool)
      modifies this
      ensures calls == old(calls) + 1
      ensures ok == (works(old(calls)) && Do(Get(old(host), p), op).Some?)
      ensures host == (if ok then Put(old(host), p, Do(Get(old(host), p), op).value) else old(host))
      ensures host == Put(old(host), p, Attempt(Get(old(host), p), op, works(old(calls))))
    {
      var r := Do(Get(host, p), op);
      ok := works(calls) && r.Some?;
      if ok {
        host := Put(host, p, r.value);
      }
      calls := calls + 1;
    }
  }

  lemma ExecuteFrom(h: Host, cs: seq<Command>, i: nat, works: Fate, n: nat)
    requires i < |cs|
    ensures Execute(h, cs[i..], works, n) ==
            if !works(n) then Ran(h, n + 1, false)
            else
              var r := Do(Get(h, cs[i].proto), cs[i].op);
              if r.None? then Ran(h, n + 1, false)
              else Execute(Put(h, cs[i].proto, r.value), cs[i + 1..], works, n + 1)
  {
  }

  /** CreateNatRules: stops at the first call that fails. */
  method CreateNatRules(k: Kernel) returns (ok: bool)
    modifies k
    ensures Ran(k.host, k.calls, ok) == Execute(old(k.host), CreateCommands(), k.works, old(k.calls))
  {
    hide Execute, Do, CreateOps;
    ExecuteConcat(k.host, On(V4, CreateOps()), On(V6, CreateOps()), k.works, k.calls);
    var protos := [V4, V6];
    for i := 0 to 2
      invariant i == 0 ==> k.host == old(k.host) && k.calls == old(k.calls)
      invariant i == 1 ==>
                  Ran(k.host, k.calls, true) == Execute(old(k.host), On(V4, CreateOps()), k.works, old(k.calls))
      invariant i == 2 ==>
                  Ran(k.host, k.calls, true) == Execute(old(k.host), CreateCommands(), k.works, old(k.calls))
    {
      ok := CreateOne(k, protos[i]);
      if !ok {
        return;
      }
    }
    ok := true;
  }

  method CreateOne(k: Kernel, p: Proto) returns (ok: bool)
    modifies k
    ensures Ran(k.host, k.calls, ok) == Execute(old(k.host), On(p, CreateOps()), k.works, old(k.calls))
  {
    hide Execute, Do;
    ghost var cs := On(p, CreateOps());
    assert cs[0..] == cs && cs[4..] == [];
    ExecuteFrom(k.host, cs, 0, k.works, k.calls);
    ok := k.Call(p, NewChain(Filter, PLACEMAT));
    if !ok {
      return;
    }
    ExecuteFrom(k.host, cs, 1, k.works, k.calls);
    ok := k.Call(p, NewChain(Nat, PLACEMAT));
    if !ok {
      return;
    }
    ExecuteFrom(k.host, cs, 2, k.works, k.calls);
    ok := k.Call(p, Append(Nat, POSTROUTING.1, JUMP));
    if !ok {
      return;
    }
    ExecuteFrom(k.host, cs, 3, k.works, k.calls);
    ok := k.Call(p, Append(Filter, FORWARD.1, JUMP));
    if ok {
      ExecuteNothing(k.host, k.works, k.calls);
    }
  }

  lemma ExecuteNothing(h: Host, works: Fate, n: nat)
    ensures Execute(h, [], works, n) == Ran(h, n, true)
  {
  }

  /** appendAcceptRule. */
  method AppendAcceptRule(k: Kernel, name: string) returns (ok: bool)
    modifies k
    ensures Ran(k.host, k.calls, ok) ==
            Execute(old(k.host), On(V4, AcceptOps(name)) + On(V6, AcceptOps(name)), k.works, old(k.calls))
  {
    hide Execute, Do;
    ghost var cs := On(V4, AcceptOps(name)) + On(V6, AcceptOps(name));
    ghost var whole := Execute(k.host, cs, k.works, k.calls);
    assert cs[0..] == cs;
    var protos := [V4, V6];
    for i := 0 to 2
      invariant whole == Execute(k.host, cs[2 * i..], k.works, k.calls)
    {
      ExecuteFrom(k.host, cs, 2 * i, k.works, k.calls);
      ok := k.Call(protos[i], Append(Filter, PLACEMAT, Rule(["-i", name], "ACCEPT")));
      if !ok {
        return;
      }
      ExecuteFrom(k.host, cs, 2 * i + 1, k.works, k.calls);
      ok := k.Call(protos[i], Append(Filter, PLACEMAT, Rule(["-o", name], "ACCEPT")));
      if !ok {
        return;
      }
    }
    assert cs[4..] == [];
    ExecuteNothing(k.host, k.works, k.calls);
    ok := true;
  }

  /** The rule-appending part of a network's Setup. */
  method SetupNetworkRules(k: Kernel, n: Network) returns (ok: bool)
    modifies k
    ensures Ran(k.host, k.calls, ok) == Execute(old(k.host), NetworkCommands(n), k.works, old(k.calls))
  {
    hide Execute, Do, AcceptOps;
    if !n.useNat {
      if n.typ.Internal? {
        ok := AppendAcceptRule(k, n.name);
        return;
      }
      ExecuteNothing(k.host, k.works, k.calls);
      return true;
    }
    var p := if n.isV4 then V4 else V6;
    ghost var masquerade := [Command(p, MasqueradeOp(n.ipNet))];
    ghost var accept := On(V4, AcceptOps(n.name)) + On(V6, AcceptOps(n.name));
    ExecuteConcat(k.host, accept, masquerade, k.works, k.calls);
    ok := AppendAcceptRule(k, n.name);
    if !ok {
      return;
    }
    assert masquerade[0..] == masquerade && masquerade[1..] == [];
    ExecuteFrom(k.host, masquerade, 0, k.works, k.calls);
    ok := k.Call(p, MasqueradeOp(n.ipNet));
    if ok {
      ExecuteNothing(k.host, k.works, k.calls);
    }
  }

  /** CleanupNatRules: attempts all twelve calls; those that fail are only logged. */
  method CleanupNatRules(k: Kernel)
    modifies k
    ensures k.calls == old(k.calls) + 12
    ensures k.host == Cleanup(old(k.host), k.works, old(k.calls))
  {
    hide Do, AttemptAll;
    var protos := [V4, V6];
    for i := 0 to 2
      invariant k.calls == old(k.calls) + 6 * i
      invariant k.host == (if i == 0 then old(k.host)
                           else if i == 1 then old(k.host).(v4 := Cleanup(old(k.host), k.works, old(k.calls)).v4)
                           else Cleanup(old(k.host), k.works, old(k.calls)))
    {
      CleanupOne(k, protos[i]);
    }
  }

  method CleanupOne(k: Kernel, p: Proto)
    modifies k
    ensures k.calls == old(k.calls) + 6
    ensures k.host == Put(old(k.host), p, AttemptAll(Get(old(k.host), p), CleanupOps(), k.works, old(k.calls)))
  {
    hide Do, Attempt, AttemptAll;
    AttemptUnfolded(Get(k.host, p), k.works, k.calls);
    var ok := k.Call(p, Delete(Filter, FORWARD.1, JUMP));
    ok := k.Call(p, Delete(Nat, POSTROUTING.1, JUMP));
    ok := k.Call(p, ClearChain(Filter, PLACEMAT));
    ok := k.Call(p, DeleteChain(Filter, PLACEMAT));
    ok := k.Call(p, ClearChain(Nat, PLACEMAT));
    ok := k.Call(p, DeleteChain(Nat, PLACEMAT));
  }
}
