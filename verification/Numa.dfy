/** The NUMA part of the QEMU command line: how the CPUs of a node are divided among NUMA nodes. */
module Numa {

  /** The range of one -numa option, printed as first-last. */
  datatype Range = Range(first: int, last: int)

  predicate Covers(r: Range, cpu: int) {
    r.first <= cpu <= r.last
  }

  predicate NonEmpty(r: Range) {
    r.first <= r.last
  }

  /** Division as the code does it, rounding toward zero. */
  function Quot(a: int, b: nat): int
    requires b > 0
  {
    if a >= 0 then a / b else -(-a / b)
  }

  /** The loop of qemuParams: no option for zero or a negative number of nodes. */
  method NumaRanges(cpus: int, nodes: int) returns (r: seq<Range>)
    ensures r == if nodes < 0 then [] else Ranges(cpus, nodes)
  {
    r := [];
    if nodes > 0 {
      var cpuPerNode := Quot(cpus, nodes);
      for i := 0 to nodes
        invariant r == seq(i, k requires 0 <= k < i => NodeRange(cpuPerNode, k))
      {
        r := r + [Range(cpuPerNode * i, cpuPerNode * (i + 1) - 1)];
      }
    }
  }

  function NodeRange(perNode: int, i: nat): Range {
    Range(perNode * i, perNode * (i + 1) - 1)
  }

  function Ranges(cpus: int, nodes: nat): seq<Range> {
    if nodes == 0 then []
    else seq(nodes, i requires 0 <= i < nodes => NodeRange(Quot(cpus, nodes), i))
  }

  lemma Monotone(n: nat, a: nat, b: nat)
    requires a <= b
    ensures n * a <= n * b
  {
  }

  lemma Successor(n: int, i: nat)
    ensures n * (i + 1) == n * i + n
  {
  }

  lemma DivideBack(x: nat, n: nat)
    requires n > 0
    ensures n * (x / n) <= x < n * (x / n + 1)
  {
  }

  /** The node whose range holds cpu. */
  lemma NodeOf(n: nat, nodes: nat, cpu: nat) returns (i: nat)
    requires cpu < n * nodes
    ensures i < nodes && Covers(NodeRange(n, i), cpu)
  {
    assert n > 0;
    i := cpu / n;
    DivideBack(cpu, n);
    if i >= nodes {
      Monotone(n, nodes, i);
    }
  }

  /** A range covers only CPUs of its own part, and none when the parts are not positive. */
  lemma CoveredWithin(n: int, i: nat, cpu: int)
    requires Covers(NodeRange(n, i), cpu)
    ensures 0 < n && 0 <= n * i <= cpu < n * (i + 1)
  {
    Successor(n, i);
    Monotone(n, 0, i);
  }

  lemma Disjoint(n: int, i: nat, j: nat, cpu: int)
    requires i < j
    ensures !(Covers(NodeRange(n, i), cpu) && Covers(NodeRange(n, j), cpu))
  {
    if Covers(NodeRange(n, i), cpu) && Covers(NodeRange(n, j), cpu) {
      CoveredWithin(n, i, cpu);
      Monotone(n, i + 1, j);
      assert false;
    }
  }

  lemma BelowEnd(n: int, i: nat, nodes: nat, cpu: int)
    requires i < nodes && Covers(NodeRange(n, i), cpu)
    ensures 0 <= cpu < n * nodes
  {
    CoveredWithin(n, i, cpu);
    Monotone(n, i + 1, nodes);
  }

  /** Exactly the CPUs from 0 to below nodes * (cpus / nodes) are covered, each by one range. */
  lemma EachCpuOnce(cpus: int, nodes: nat, cpu: int)
    requires nodes > 0
    ensures (exists i :: 0 <= i < nodes && Covers(Ranges(cpus, nodes)[i], cpu)) <==>
            0 <= cpu < nodes * Quot(cpus, nodes)
    ensures forall i, j :: 0 <= i < j < nodes ==>
              !(Covers(Ranges(cpus, nodes)[i], cpu) && Covers(Ranges(cpus, nodes)[j], cpu))
  {
    var n := Quot(cpus, nodes);
    var r := Ranges(cpus, nodes);
    assert forall i :: 0 <= i < nodes ==> r[i] == NodeRange(n, i);
    hide NodeRange, Covers, Ranges, Quot;
    assert nodes * n == n * nodes;
    if 0 <= cpu < nodes * n {
      var i := NodeOf(n, nodes, cpu);
      assert Covers(r[i], cpu);
    }
    forall i | 0 <= i < nodes && Covers(r[i], cpu)
      ensures 0 <= cpu < nodes * n
    {
      BelowEnd(n, i, nodes, cpu);
    }
    forall i, j | 0 <= i < j < nodes
      ensures !(Covers(r[i], cpu) && Covers(r[j], cpu))
    {
      Disjoint(n, i, j, cpu);
    }
  }

  lemma QuotPositiveIff(cpus: int, nodes: nat)
    requires nodes > 0
    ensures Quot(cpus, nodes) >= 1 <==> cpus >= nodes
  {
    if cpus >= 0 {
      var n := cpus / nodes;
      DivideBack(cpus, nodes);
      if n >= 1 {
        Monotone(nodes, 1, n);
      }
    }
  }

  /** Every range is non-empty exactly when there are at least as many CPUs as nodes; otherwise every
      range is empty. The ranges are equally long and follow each other without gaps. */
  lemma RangesNonEmptyIff(cpus: int, nodes: nat)
    requires nodes > 0
    ensures var r := Ranges(cpus, nodes);
            && |r| == nodes && r[0].first == 0
            && (forall i :: 0 <= i < nodes ==> r[i].last - r[i].first + 1 == Quot(cpus, nodes))
            && (forall i :: 0 < i < nodes ==> r[i].first == r[i - 1].last + 1)
            && ((forall i :: 0 <= i < nodes ==> NonEmpty(r[i])) <==> cpus >= nodes)
            && (cpus < nodes ==> forall i :: 0 <= i < nodes ==> !NonEmpty(r[i]))
  {
    hide Quot;
    var r := Ranges(cpus, nodes);
    var n := Quot(cpus, nodes);
    forall i | 0 <= i < nodes
      ensures r[i].last - r[i].first + 1 == n
    {
      Successor(n, i);
    }
    QuotPositiveIff(cpus, nodes);
    assert NonEmpty(r[0]) <==> n >= 1;
  }

  lemma QuotLeaves(a: int, b: nat)
    requires b > 0
    ensures a - b * Quot(a, b) == if a >= 0 then a % b else -(-a % b)
  {
    if a < 0 {
      var q := -a / b;
      assert -a == b * q + -a % b;
      assert b * -q == -(b * q);
    }
  }

  lemma MultipleDivides(n: nat, x: int, q: int)
    requires n > 0 && x == n * q
    ensures x % n == 0
  {
    var d := q - x / n;
    assert x % n == n * d;
    if d >= 1 {
      Monotone(n, 1, d);
    } else {
      Monotone(n, 0, -d);
    }
  }

  lemma DividesNegated(n: nat, x: int)
    requires n > 0 && x % n == 0
    ensures -x % n == 0
  {
    var q := x / n;
    assert x == n * q;
    assert -x == n * -q;
    MultipleDivides(n, -x, -q);
  }

  /** Fewer CPUs than there are nodes are left over, and none exactly when nodes divides cpus. */
  lemma LeftOver(cpus: int, nodes: nat)
    requires nodes > 0
    ensures var left := cpus - nodes * Quot(cpus, nodes);
            && left < nodes && -left < nodes && (cpus >= 0 ==> left >= 0) && (cpus <= 0 ==> left <= 0)
            && (left == 0 <==> cpus % nodes == 0)
  {
    QuotLeaves(cpus, nodes);
    hide Quot;
    if cpus % nodes == 0 {
      DividesNegated(nodes, cpus);
    }
    if -cpus % nodes == 0 {
      DividesNegated(nodes, -cpus);
    }
  }
}
