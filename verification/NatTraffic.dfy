/** What the iptables rules of placemat do to packets: which forwarded packets they accept and which they
    masquerade, once the rules are created and the networks set up. */
module NatTraffic {
  import opened Options
  import opened NatRules

  // ---------- packets and rules ----------

  /** A forwarded packet: the interfaces it comes in and goes out by, and its addresses. */
  datatype Packet = Packet(input: string, output: string, source: string, destination: string)

  /** Whether a network, as it is written in a rule, contains an address. */
  type Contains = (string, string) -> bool

  /** Whether a packet meets the conditions of a rule: -i, -o, -s and --destination, the last two also
      negated by "!". A rule with any other condition is taken to match nothing. */
  predicate Matches(args: seq<string>, p: Packet, inside: Contains)
    decreases |args|
  {
    if args == [] then true
    else if |args| >= 2 && args[0] == "-i" then p.input == args[1] && Matches(args[2..], p, inside)
    else if |args| >= 2 && args[0] == "-o" then p.output == args[1] && Matches(args[2..], p, inside)
    else if |args| >= 2 && args[0] == "-s" then inside(args[1], p.source) && Matches(args[2..], p, inside)
    else if |args| >= 2 && args[0] == "--destination" then
      inside(args[1], p.destination) && Matches(args[2..], p, inside)
    else if |args| >= 3 && args[0] == "!" && args[1] == "-s" then
      !inside(args[2], p.source) && Matches(args[3..], p, inside)
    else if |args| >= 3 && args[0] == "!" && args[1] == "--destination" then
      !inside(args[2], p.destination) && Matches(args[3..], p, inside)
    else false
  }

  /** The target of the first rule that the packet matches, and "" when there is none. */
  function Target(rules: seq<Rule>, p: Packet, inside: Contains): string {
    if rules == [] then ""
    else if Matches(rules[0].matches, p, inside) && rules[0].target != "" then rules[0].target
    else Target(rules[1..], p, inside)
  }

  /** Where a packet ends up in a built-in chain; a jump to PLACEMAT leads through that chain. */
  function Verdict(r: Rules, table: Table, chain: string, p: Packet, inside: Contains): string {
    if (table, chain) !in r then ""
    else
      var target := Target(r[(table, chain)], p, inside);
      if target == "PLACEMAT" && (table, "PLACEMAT") in r then Target(r[(table, "PLACEMAT")], p, inside) else target
  }

  lemma {:induction false} TargetConcat(a: seq<Rule>, b: seq<Rule>, p: Packet, inside: Contains)
    ensures Target(a + b, p, inside) ==
            if Target(a, p, inside) != "" then Target(a, p, inside) else Target(b, p, inside)
    decreases |a|
  {
    hide Matches;
    if a == [] {
      assert a + b == b;
    } else {
      assert (a + b)[1..] == a[1..] + b;
      TargetConcat(a[1..], b, p, inside);
    }
  }

  lemma {:induction false} TargetIsMentioned(rules: seq<Rule>, p: Packet, inside: Contains)
    requires Target(rules, p, inside) != ""
    ensures Mentions(rules, Target(rules, p, inside))
    decreases |rules|
  {
    hide Matches;
    if Matches(rules[0].matches, p, inside) && rules[0].target != "" {
      assert rules[0].target == Target(rules, p, inside);
    } else {
      TargetIsMentioned(rules[1..], p, inside);
      var i :| 0 <= i < |rules[1..]| && rules[1..][i].target == Target(rules, p, inside);
      assert rules[i + 1] == rules[1..][i];
    }
  }

  // ---------- what a network appends ----------

  /** The rule that a command appends to the PLACEMAT chain of a table, for one IP version. */
  function RuleOf(c: Command, proto: Proto, table: Table): seq<Rule> {
    if IsNetworkOp(c.op) && c.proto == proto && c.op.table == table then [c.op.rule] else []
  }

  function Appended(cs: seq<Command>, proto: Proto, table: Table): seq<Rule> {
    if cs == [] then [] else RuleOf(cs[0], proto, table) + Appended(cs[1..], proto, table)
  }

  lemma AppendedOne(c: Command, proto: Proto, table: Table)
    ensures Appended([c], proto, table) == RuleOf(c, proto, table)
  {
    hide RuleOf;
    var rest := [c][1..];
    assert rest == [] && Appended(rest, proto, table) == [];
  }

  lemma {:induction false} AppendedConcat(a: seq<Command>, b: seq<Command>, proto: Proto, table: Table)
    ensures Appended(a + b, proto, table) == Appended(a, proto, table) + Appended(b, proto, table)
    decreases |a|
  {
    hide RuleOf;
    if a == [] {
      assert a + b == b;
    } else {
      assert (a + b)[0] == a[0] && (a + b)[1..] == a[1..] + b;
      AppendedConcat(a[1..], b, proto, table);
    }
  }

  /** Traffic of a network with NAT, and of an internal one, is accepted. */
  predicate Accepts(n: Network, p: Packet) {
    (n.useNat || n.typ == Internal) && (p.input == n.name || p.output == n.name)
  }

  /** Packets that leave a network with NAT are masqueraded, on the IP version of its address. */
  predicate Masquerades(n: Network, proto: Proto, p: Packet, inside: Contains) {
    n.useNat && (n.isV4 <==> proto == V4) && inside(n.ipNet, p.source) && !inside(n.ipNet, p.destination)
  }

  lemma AcceptRules(name: string, p: Packet, inside: Contains)
    ensures Target([Rule(["-i", name], "ACCEPT"), Rule(["-o", name], "ACCEPT")], p, inside) ==
            if p.input == name || p.output == name then "ACCEPT" else ""
  {
    var first, second := Rule(["-i", name], "ACCEPT"), Rule(["-o", name], "ACCEPT");
    assert [first, second] == [first] + [second];
    TargetConcat([first], [second], p, inside);
    assert [first][1..] == [] && [second][1..] == [];
    assert ["-i", name][2..] == [] && ["-o", name][2..] == [];
    assert Matches(["-i", name], p, inside) <==> p.input == name;
    assert Matches(["-o", name], p, inside) <==> p.output == name;
  }

  lemma MasqueradeRule(ipNet: string, p: Packet, inside: Contains)
    ensures Target([MasqueradeOp(ipNet).rule], p, inside) ==
            if inside(ipNet, p.source) && !inside(ipNet, p.destination) then "MASQUERADE" else ""
  {
    var args := MasqueradeOp(ipNet).rule.matches;
    assert args[2..] == ["!", "--destination", ipNet] && args[2..][3..] == [];
    assert Matches(args[2..], p, inside) <==> !inside(ipNet, p.destination);
    assert [MasqueradeOp(ipNet).rule][1..] == [];
  }

  /** The rules of one network, spelled out. */
  lemma NetworkAppends(n: Network, proto: Proto)
    ensures Appended(NetworkCommands(n), proto, Filter) ==
            if n.useNat || n.typ == Internal then [Rule(["-i", n.name], "ACCEPT"), Rule(["-o", n.name], "ACCEPT")]
            else []
    ensures Appended(NetworkCommands(n), proto, Nat) ==
            if n.useNat && (n.isV4 <==> proto == V4) then [MasqueradeOp(n.ipNet).rule] else []
  {
    var four, six := On(V4, AcceptOps(n.name)), On(V6, AcceptOps(n.name));
    var masquerade := [Command(if n.isV4 then V4 else V6, MasqueradeOp(n.ipNet))];
    AcceptAppends(V4, n.name, proto);
    AcceptAppends(V6, n.name, proto);
    hide Appended, AcceptOps;
    NetworkAppendsTo(four, six, masquerade[0], proto, Filter);
    NetworkAppendsTo(four, six, masquerade[0], proto, Nat);
    NothingAppended(proto, Filter);
    NothingAppended(proto, Nat);
  }

  lemma NetworkAppendsTo(four: seq<Command>, six: seq<Command>, c: Command, proto: Proto, table: Table)
    ensures Appended(four + six, proto, table) == Appended(four, proto, table) + Appended(six, proto, table)
    ensures Appended(four + six + [c], proto, table) ==
            Appended(four, proto, table) + Appended(six, proto, table)
            + RuleOf(c, proto, table)
  {
    hide Appended;
    AppendedConcat(four, six, proto, table);
    AppendedConcat(four + six, [c], proto, table);
    AppendedOne(c, proto, table);
  }

  lemma NothingAppended(proto: Proto, table: Table)
    ensures Appended([], proto, table) == []
  {
  }

  lemma AcceptAppends(of: Proto, name: string, proto: Proto)
    ensures Appended(On(of, AcceptOps(name)), proto, Nat) == []
    ensures Appended(On(of, AcceptOps(name)), proto, Filter) ==
            if of == proto then [Rule(["-i", name], "ACCEPT"), Rule(["-o", name], "ACCEPT")] else []
  {
    var cs := On(of, AcceptOps(name));
    AppendedTwo(cs[0], cs[1], proto, Filter);
    AppendedTwo(cs[0], cs[1], proto, Nat);
    assert cs == [cs[0], cs[1]];
  }

  lemma AppendedTwo(c: Command, d: Command, proto: Proto, table: Table)
    ensures Appended([c, d], proto, table) == RuleOf(c, proto, table) + RuleOf(d, proto, table)
  {
    hide Appended;
    assert [c, d] == [c] + [d];
    AppendedConcat([c], [d], proto, table);
    AppendedOne(c, proto, table);
    AppendedOne(d, proto, table);
  }

  lemma NetworkTargets(n: Network, proto: Proto, p: Packet, inside: Contains)
    ensures Target(Appended(NetworkCommands(n), proto, Filter), p, inside) == if Accepts(n, p) then "ACCEPT" else ""
    ensures Target(Appended(NetworkCommands(n), proto, Nat), p, inside) ==
            if Masquerades(n, proto, p, inside) then "MASQUERADE" else ""
  {
    hide NetworkCommands, Appended, Target, MasqueradeOp;
    NetworkAppends(n, proto);
    AcceptRules(n.name, p, inside);
    MasqueradeRule(n.ipNet, p, inside);
    assert Target([], p, inside) == "" by {
      NoRules(p, inside);
    }
  }

  lemma NoRules(p: Packet, inside: Contains)
    ensures Target([], p, inside) == ""
  {
  }

  /** All the networks together: what the two chains do to a packet. */
  lemma {:induction false} NetworksTargets(ns: seq<Network>, proto: Proto, p: Packet, inside: Contains)
    ensures Target(Appended(NetworksCommands(ns), proto, Filter), p, inside) ==
            if exists n :: n in ns && Accepts(n, p) then "ACCEPT" else ""
    ensures Target(Appended(NetworksCommands(ns), proto, Nat), p, inside) ==
            if exists n :: n in ns && Masquerades(n, proto, p, inside) then "MASQUERADE" else ""
    decreases |ns|
  {
    hide NetworkCommands, Matches, Accepts, Masquerades, Appended, Target;
    NothingAppended(proto, Filter);
    NothingAppended(proto, Nat);
    NoRules(p, inside);
    if ns != [] {
      var a, b := NetworkCommands(ns[0]), NetworksCommands(ns[1..]);
      NetworksTargets(ns[1..], proto, p, inside);
      NetworkTargets(ns[0], proto, p, inside);
      forall table: Table
        ensures Target(Appended(a + b, proto, table), p, inside) ==
                var t := Target(Appended(a, proto, table), p, inside);
                if t != "" then t else Target(Appended(b, proto, table), p, inside)
      {
        AppendedConcat(a, b, proto, table);
        TargetConcat(Appended(a, proto, table), Appended(b, proto, table), p, inside);
      }
      assert ns == [ns[0]] + ns[1..];
    }
  }

  // ---------- the host afterwards ----------

  /** Marks with more rules in the two chains. */
  function More(m: Marks, cs: seq<Command>, proto: Proto): Marks
    requires m.filterChain.Some? && m.natChain.Some?
  {
    m.(filterChain := Some(m.filterChain.value + Appended(cs, proto, Filter)),
       natChain := Some(m.natChain.value + Appended(cs, proto, Nat)))
  }

  lemma MoreStep(m: Marks, cs: seq<Command>, proto: Proto)
    requires m.filterChain.Some? && m.natChain.Some? && cs != []
    ensures More(m, cs, proto) == More(More(m, [cs[0]], proto), cs[1..], proto)
  {
    hide Appended;
    assert cs == [cs[0]] + cs[1..];
    AppendedConcat([cs[0]], cs[1..], proto, Filter);
    AppendedConcat([cs[0]], cs[1..], proto, Nat);
    Regrouped(m.filterChain.value, Appended([cs[0]], proto, Filter), Appended(cs[1..], proto, Filter));
    Regrouped(m.natChain.value, Appended([cs[0]], proto, Nat), Appended(cs[1..], proto, Nat));
  }

  lemma Regrouped(a: seq<Rule>, b: seq<Rule>, c: seq<Rule>)
    ensures a + (b + c) == (a + b) + c
  {
  }

  lemma MoreOne(m: Marks, c: Command, proto: Proto)
    requires m.filterChain.Some? && m.natChain.Some? && IsNetworkOp(c.op)
    ensures More(m, [c], proto) ==
            if c.proto != proto then m
            else if c.op.table.Filter? then m.(filterChain := Some(m.filterChain.value + [c.op.rule]))
            else m.(natChain := Some(m.natChain.value + [c.op.rule]))
  {
    AppendedOne(c, proto, Filter);
    AppendedOne(c, proto, Nat);
    assert m.filterChain.value + [] == m.filterChain.value && m.natChain.value + [] == m.natChain.value;
  }

  /** Commands of networks that all work leave exactly their rules, in order. */
  lemma {:induction false} NetworksLeave(h0: Host, h: Host, m4: Marks, m6: Marks, cs: seq<Command>, works: Fate, n: nat)
    requires Touched(h0, h, m4, m6)
    requires m4.filterChain.Some? && m4.natChain.Some? && m6.filterChain.Some? && m6.natChain.Some?
    requires forall i :: 0 <= i < |cs| ==> IsNetworkOp(cs[i].op)
    requires Execute(h, cs, works, n).ok
    ensures Touched(h0, Execute(h, cs, works, n).host, More(m4, cs, V4), More(m6, cs, V6))
    decreases |cs|
  {
    hide Do, Marked, More;
    if cs == [] {
      NothingMore(m4, V4);
      NothingMore(m6, V6);
    } else {
      var op := cs[0].op;
      MoreOne(m4, cs[0], V4);
      MoreOne(m6, cs[0], V6);
      MoreStep(m4, cs, V4);
      MoreStep(m6, cs, V6);
      if cs[0].proto.V4? {
        NetworkStep(h0.v4, h.v4, m4, op);
      } else {
        NetworkStep(h0.v6, h.v6, m6, op);
      }
      var h' := Put(h, cs[0].proto, Do(Get(h, cs[0].proto), op).value);
      NetworksLeave(h0, h', More(m4, [cs[0]], V4), More(m6, [cs[0]], V6), cs[1..], works, n + 1);
    }
  }

  lemma NothingMore(m: Marks, proto: Proto)
    requires m.filterChain.Some? && m.natChain.Some?
    ensures More(m, [], proto) == m
  {
    assert m.filterChain.value + [] == m.filterChain.value && m.natChain.value + [] == m.natChain.value;
  }

  /** The fate of forwarded packets on one IP version of a host that the setup has changed: where a rule of
      the host's own decides, as before; else ACCEPT exactly for traffic of a network with NAT or an internal
      one, and MASQUERADE exactly for what leaves a network with NAT. */
  ghost predicate Forwards(r0: Rules, r: Rules, ns: seq<Network>, proto: Proto, p: Packet, inside: Contains) {
    var forward := Verdict(r0, Filter, "FORWARD", p, inside);
    var post := Verdict(r0, Nat, "POSTROUTING", p, inside);
    && Verdict(r, Filter, "FORWARD", p, inside) ==
       (if forward != "" then forward else if exists n :: n in ns && Accepts(n, p) then "ACCEPT" else "")
    && Verdict(r, Nat, "POSTROUTING", p, inside) ==
       (if post != "" then post
        else if exists n :: n in ns && Masquerades(n, proto, p, inside) then "MASQUERADE" else "")
  }

  lemma JumpAlone(p: Packet, inside: Contains)
    ensures Target([JUMP], p, inside) == "PLACEMAT"
  {
  }

  /** A built-in chain that ends in the jump. */
  lemma ThroughJump(r0: Rules, r: Rules, table: Table, chain: string, p: Packet, inside: Contains)
    requires (table, chain) in r0 && (table, chain) in r && r[(table, chain)] == r0[(table, chain)] + [JUMP]
    requires !Mentions(r0[(table, chain)], "PLACEMAT") && (table, "PLACEMAT") in r
    ensures Verdict(r, table, chain, p, inside) ==
            var own := Verdict(r0, table, chain, p, inside);
            if own != "" then own else Target(r[(table, "PLACEMAT")], p, inside)
  {
    hide Matches, Target;
    var rules := r0[(table, chain)];
    JumpAlone(p, inside);
    TargetConcat(rules, [JUMP], p, inside);
    if Target(rules, p, inside) != "" {
      TargetIsMentioned(rules, p, inside);
    }
  }

  lemma MarkedForwards(r0: Rules, r: Rules, ns: seq<Network>, proto: Proto, p: Packet, inside: Contains)
    requires Marked(r0, r, Marks(Some(Appended(NetworksCommands(ns), proto, Filter)),
                                 Some(Appended(NetworksCommands(ns), proto, Nat)), true, true))
    ensures Forwards(r0, r, ns, proto, p, inside)
  {
    hide Target, Verdict, NetworksCommands, Appended, Accepts, Masquerades, Mentions;
    NetworksTargets(ns, proto, p, inside);
    ThroughJump(r0, r, Filter, "FORWARD", p, inside);
    ThroughJump(r0, r, Nat, "POSTROUTING", p, inside);
  }

  lemma {:induction false} NetworksSucceed(h0: Host, h: Host, m4: Marks, m6: Marks,
                                          cs: seq<Command>, works: Fate, n: nat)
    requires Touched(h0, h, m4, m6) && AllWork(works, n, |cs|)
    requires m4.filterChain.Some? && m4.natChain.Some? && m6.filterChain.Some? && m6.natChain.Some?
    requires forall i :: 0 <= i < |cs| ==> IsNetworkOp(cs[i].op)
    ensures Execute(h, cs, works, n).ok
    decreases |cs|
  {
    hide Do, Marked, More;
    if cs != [] {
      var op := cs[0].op;
      MoreOne(m4, cs[0], V4);
      MoreOne(m6, cs[0], V6);
      if cs[0].proto.V4? {
        NetworkStep(h0.v4, h.v4, m4, op);
      } else {
        NetworkStep(h0.v6, h.v6, m6, op);
      }
      var h' := Put(h, cs[0].proto, Do(Get(h, cs[0].proto), op).value);
      NetworksSucceed(h0, h', More(m4, [cs[0]], V4), More(m6, [cs[0]], V6), cs[1..], works, n + 1);
    }
  }

  /** On a host that knows nothing of PLACEMAT nothing is refused: the setup succeeds when all calls work. */
  lemma SetupSucceeds(h0: Host, ns: seq<Network>, works: Fate, n: nat)
    requires Pristine(h0.v4) && Pristine(h0.v6) && AllWork(works, n, 8 + |NetworksCommands(ns)|)
    ensures Execute(h0, CreateCommands() + NetworksCommands(ns), works, n).ok
  {
    hide Execute, Marked, CreateCommands, NetworksCommands;
    var cs := NetworksCommands(ns);
    ExecuteConcat(h0, CreateCommands(), cs, works, n);
    CreateStops(h0, works, n);
    NetworkCommandsAppend(ns);
    var created := Execute(h0, CreateCommands(), works, n);
    NetworksSucceed(h0, created.host, CreateMarks(4), CreateMarks(4), cs, works, created.calls);
  }

  /** On a host that knows nothing of PLACEMAT, after creating the rules and setting up any networks without
      a failure, every packet on either IP version is forwarded as Forwards says. */
  lemma TrafficAfterSetup(h0: Host, ns: seq<Network>, works: Fate, n: nat, proto: Proto, p: Packet, inside: Contains)
    requires Pristine(h0.v4) && Pristine(h0.v6)
    ensures var r := Execute(h0, CreateCommands() + NetworksCommands(ns), works, n);
            r.ok ==> Forwards(Get(h0, proto), Get(r.host, proto), ns, proto, p, inside)
  {
    hide Execute, Marked, CreateCommands, NetworksCommands, Forwards, Appended;
    var cs := NetworksCommands(ns);
    ExecuteConcat(h0, CreateCommands(), cs, works, n);
    CreateStops(h0, works, n);
    var created := Execute(h0, CreateCommands(), works, n);
    var r := Execute(h0, CreateCommands() + cs, works, n);
    if r.ok {
      NetworkCommandsAppend(ns);
      NetworksLeave(h0, created.host, CreateMarks(4), CreateMarks(4), cs, works, created.calls);
      assert [] + Appended(cs, proto, Filter) == Appended(cs, proto, Filter);
      assert [] + Appended(cs, proto, Nat) == Appended(cs, proto, Nat);
      MarkedForwards(Get(h0, proto), Get(r.host, proto), ns, proto, p, inside);
    }
  }
}
