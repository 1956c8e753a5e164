/** The channel on which guest connections report their BMC address to the BMC server. Every guest
    goroutine and the server step independently; any interleaving of the steps is a run. */
module GuestChannel {

  /** The white space of Unicode. */
  predicate IsSpace(c: char) {
    || '\t' <= c <= '\r'
    || c in {' ', '\U{85}', '\U{A0}', '\U{1680}', '\U{2028}', '\U{2029}', '\U{202F}', '\U{205F}', '\U{3000}'}
    || '\U{2000}' <= c <= '\U{200A}'
  }

  /** Its code points: tab to carriage return, space, and those outside ASCII. */
  lemma SpaceCodes(c: char)
    ensures var n := c as int;
            IsSpace(c) <==> n in {9, 10, 11, 12, 13, 32, 0x85, 0xa0, 0x1680, 0x2028, 0x2029, 0x202f, 0x205f, 0x3000}
                            || 0x2000 <= n <= 0x200a
  {
  }

  function TrimLeft(s: string): string {
    if s != [] && IsSpace(s[0]) then TrimLeft(s[1..]) else s
  }

  function TrimRight(s: string): string {
    if s != [] && IsSpace(s[|s| - 1]) then TrimRight(s[..|s| - 1]) else s
  }

  function TrimSpace(s: string): string {
    TrimRight(TrimLeft(s))
  }

  predicate AllSpace(s: string) {
    forall i :: 0 <= i < |s| ==> IsSpace(s[i])
  }

  /** Text that neither starts nor ends with white space. */
  predicate Trimmed(s: string) {
    s == [] || (!IsSpace(s[0]) && !IsSpace(s[|s| - 1]))
  }

  lemma {:induction false} TrimLeftOf(a: string, s: string)
    requires AllSpace(a) && (s == [] || !IsSpace(s[0]))
    ensures TrimLeft(a + s) == s
    decreases |a|
  {
    hide IsSpace;
    if a == [] {
      assert a + s == s;
    } else {
      assert (a + s)[0] == a[0] && (a + s)[1..] == a[1..] + s;
      TrimLeftOf(a[1..], s);
    }
  }

  lemma {:induction false} TrimRightOf(s: string, b: string)
    requires AllSpace(b) && (s == [] || !IsSpace(s[|s| - 1]))
    ensures TrimRight(s + b) == s
    decreases |b|
  {
    hide IsSpace;
    if b == [] {
      assert s + b == s;
    } else {
      var n := |b| - 1;
      assert (s + b)[|s + b| - 1] == b[n] && (s + b)[..|s + b| - 1] == s + b[..n];
      TrimRightOf(s, b[..n]);
    }
  }

  /** However a line is made of white space, trimmed text and white space, that text is what is sent. */
  lemma TrimSpaceKeepsMiddle(a: string, s: string, b: string)
    requires AllSpace(a) && Trimmed(s) && AllSpace(b)
    ensures TrimSpace(a + s + b) == s
  {
    hide IsSpace, TrimLeft, TrimRight;
    if s == [] {
      assert a + s + b == (a + b) + [];
      assert AllSpace(a + b);
      TrimLeftOf(a + b, []);
      assert s + s == s;
      TrimRightOf(s, s);
    } else {
      assert a + s + b == a + (s + b);
      TrimLeftOf(a, s + b);
      TrimRightOf(s, b);
    }
  }

  /** Every line is so made. */
  lemma {:induction false} LineParts(line: string) returns (a: string, s: string, b: string)
    ensures line == a + s + b && AllSpace(a) && Trimmed(s) && AllSpace(b)
    decreases |line|
  {
    hide IsSpace;
    if line == [] || Trimmed(line) {
      a, s, b := [], line, [];
    } else if IsSpace(line[0]) {
      a, s, b := LineParts(line[1..]);
      a := [line[0]] + a;
    } else {
      var n := |line| - 1;
      a, s, b := LineParts(line[..n]);
      b := b + [line[n]];
    }
  }

  /** Where a guest goroutine stands: not connected yet, reading the next line, about to send, having
      sent but not yet set its flag, or finished. */
  datatype Point = Unconnected | Reading | Sending(address: string) | Marking | Finished

  /** One guest connection; lines are those it has read so far. */
  datatype Guest = Guest(serial: string, at: Point, sent: bool, lines: seq<string>)

  datatype Info = Info(from: nat, serial: string, address: string)

  /** The channel holds at most `capacity` messages; `received` are those the server has taken. */
  datatype World = World(capacity: nat, guests: seq<Guest>, channel: seq<Info>, received: seq<Info>)

  datatype Step =
    | Connect(i: nat)
    | ReadLine(i: nat, line: string)
    | ReadFails(i: nat)
    | Send(i: nat)
    | Mark(i: nat)
    | Receive

  /** One connection per node of the cluster, and a channel with room for as many messages. */
  predicate Initial(w: World) {
    && w.capacity == |w.guests| && w.channel == [] && w.received == []
    && forall i :: 0 <= i < |w.guests| ==> w.guests[i] == Guest(w.guests[i].serial, Unconnected, false, [])
  }

  /** Whether a step can be taken; a send waits while the channel is full. */
  predicate Enabled(w: World, s: Step) {
    match s
    case Connect(i) => i < |w.guests| && w.guests[i].at.Unconnected?
    case ReadLine(i, _) => i < |w.guests| && w.guests[i].at.Reading?
    case ReadFails(i) => i < |w.guests| && w.guests[i].at.Reading?
    case Send(i) => i < |w.guests| && w.guests[i].at.Sending? && |w.channel| < w.capacity
    case Mark(i) => i < |w.guests| && w.guests[i].at.Marking?
    case Receive => w.channel != []
  }

  function Next(w: World, s: Step): World
    requires Enabled(w, s)
  {
    match s
    case Connect(i) => w.(guests := w.guests[i := w.guests[i].(at := Reading)])
    case ReadLine(i, line) =>
      var g := w.guests[i];
      var at := if g.sent then Reading else Sending(TrimSpace(line));
      w.(guests := w.guests[i := g.(at := at, lines := g.lines + [line])])
    case ReadFails(i) => w.(guests := w.guests[i := w.guests[i].(at := Finished)])
    case Send(i) =>
      var g := w.guests[i];
      w.(guests := w.guests[i := g.(at := Marking)], channel := w.channel + [Info(i, g.serial, g.at.address)])
    case Mark(i) => w.(guests := w.guests[i := w.guests[i].(at := Reading, sent := true)])
    case Receive => w.(channel := w.channel[1..], received := w.received + [w.channel[0]])
  }

  // ---------- invariant ----------

  predicate HasSent(g: Guest) {
    g.sent || g.at.Marking?
  }

  function Senders(guests: seq<Guest>): set<nat> {
    set i: nat | i < |guests| && HasSent(guests[i])
  }

  /** All messages sent so far, in the order of sending. */
  function Messages(w: World): seq<Info> {
    w.received + w.channel
  }

  predicate GuestOk(g: Guest) {
    match g.at
    case Unconnected => !g.sent && g.lines == []
    case Reading => g.sent <==> g.lines != []
    case Sending(a) => !g.sent && |g.lines| == 1 && a == TrimSpace(g.lines[0])
    case Marking => !g.sent && |g.lines| == 1
    case Finished => g.sent <==> g.lines != []
  }

  /** A message carries its sender's serial and first line. */
  predicate MessageOk(guests: seq<Guest>, m: Info) {
    && m.from < |guests| && HasSent(guests[m.from]) && guests[m.from].lines != []
    && m.serial == guests[m.from].serial && m.address == TrimSpace(guests[m.from].lines[0])
  }

  ghost predicate Inv(w: World) {
    && w.capacity == |w.guests|
    && (forall i :: 0 <= i < |w.guests| ==> GuestOk(w.guests[i]))
    && (forall k :: 0 <= k < |Messages(w)| ==> MessageOk(w.guests, Messages(w)[k]))
    && (forall j, k :: 0 <= j < k < |Messages(w)| ==> Messages(w)[j].from != Messages(w)[k].from)
    && |Messages(w)| == |Senders(w.guests)|
  }

  lemma InitialInv(w: World)
    requires Initial(w)
    ensures Inv(w)
  {
  }

  /** A step of guest i that does not send keeps who has sent. */
  lemma QuietGuestStep(w: World, i: nat, g: Guest)
    requires Inv(w) && i < |w.guests| && GuestOk(g)
    requires HasSent(g) == HasSent(w.guests[i]) && g.serial == w.guests[i].serial
    requires w.guests[i].lines != [] ==> g.lines != [] && g.lines[0] == w.guests[i].lines[0]
    ensures Inv(w.(guests := w.guests[i := g]))
  {
    var w' := w.(guests := w.guests[i := g]);
    assert Senders(w'.guests) == Senders(w.guests);
    assert Messages(w') == Messages(w);
    forall k | 0 <= k < |Messages(w)|
      ensures MessageOk(w'.guests, Messages(w)[k])
    {
      assert MessageOk(w.guests, Messages(w)[k]);
    }
  }

  lemma OneMoreSender(guests: seq<Guest>, i: nat, g: Guest)
    requires i < |guests| && HasSent(g) && !HasSent(guests[i])
    ensures |Senders(guests[i := g])| == |Senders(guests)| + 1
  {
    hide HasSent;
    assert Senders(guests[i := g]) == Senders(guests) + {i};
  }

  lemma OthersMessages(w: World, i: nat, g: Guest)
    requires Inv(w) && i < |w.guests| && !HasSent(w.guests[i])
    ensures forall k :: 0 <= k < |Messages(w)| ==>
              MessageOk(w.guests[i := g], Messages(w)[k]) && Messages(w)[k].from != i
  {
  }

  lemma SendStep(w: World, i: nat)
    requires Inv(w) && Enabled(w, Send(i))
    ensures Inv(Next(w, Send(i)))
  {
    hide TrimSpace, Senders;
    var g := w.guests[i];
    var g' := g.(at := Marking);
    var m := Info(i, g.serial, g.at.address);
    var w' := Next(w, Send(i));
    assert GuestOk(g) && GuestOk(g');
    OneMoreSender(w.guests, i, g');
    OthersMessages(w, i, g');
    assert Messages(w') == Messages(w) + [m];
    assert MessageOk(w'.guests, m);
  }

  lemma StepKeepsInv(w: World, s: Step)
    requires Inv(w) && Enabled(w, s)
    ensures Inv(Next(w, s))
  {
    if s.Receive? {
      assert Messages(Next(w, s)) == Messages(w);
    } else {
      assert GuestOk(w.guests[s.i]);
      if s.Send? {
        SendStep(w, s.i);
      } else {
        QuietGuestStep(w, s.i, Next(w, s).guests[s.i]);
      }
    }
  }

  // ---------- runs ----------

  /** Every step of the run could be taken when it was. */
  predicate IsRun(w: World, steps: seq<Step>)
    decreases |steps|
  {
    steps == [] || (Enabled(w, steps[0]) && IsRun(Next(w, steps[0]), steps[1..]))
  }

  function After(w: World, steps: seq<Step>): World
    requires IsRun(w, steps)
    decreases |steps|
  {
    if steps == [] then w else After(Next(w, steps[0]), steps[1..])
  }

  lemma {:induction false} RunKeepsInv(w: World, steps: seq<Step>)
    requires Inv(w) && IsRun(w, steps)
    ensures Inv(After(w, steps))
    decreases |steps|
  {
    hide Inv, Next, Enabled;
    if steps != [] {
      StepKeepsInv(w, steps[0]);
      RunKeepsInv(Next(w, steps[0]), steps[1..]);
    }
  }

  lemma {:induction false} BoundedSet(s: set<nat>, n: nat, i: nat)
    requires i < n && i !in s && forall k :: k in s ==> k < n
    ensures |s| < n
    decreases n
  {
    if n > 1 {
      var other := if i == n - 1 then n - 2 else n - 1;
      if i == n - 1 {
        if other !in s {
          BoundedSet(s, n - 1, other);
        } else {
          BoundedSet(s - {other}, n - 1, other);
        }
      } else {
        BoundedSet(s - {other}, n - 1, i);
      }
    } else {
      assert s == {};
    }
  }

  /** A set of numbers below n has at most n elements. */
  lemma {:induction false} CountBelow(s: set<nat>, n: nat)
    requires forall k :: k in s ==> k < n
    ensures |s| <= n
    decreases n
  {
    if n == 0 {
      assert s == {};
    } else {
      CountBelow(s - {n - 1}, n - 1);
    }
  }

  lemma {:induction false} GuestsStay(w: World, steps: seq<Step>)
    requires IsRun(w, steps)
    ensures |After(w, steps).guests| == |w.guests|
    decreases |steps|
  {
    hide TrimSpace;
    if steps != [] {
      GuestsStay(Next(w, steps[0]), steps[1..]);
    }
  }

  /** No step, in whatever world, overfills the channel: a send into a full one waits. */
  lemma NeverOverfull(w: World, s: Step)
    requires |w.channel| <= w.capacity && Enabled(w, s)
    ensures |Next(w, s).channel| <= Next(w, s).capacity
  {
    hide TrimSpace;
  }

  /** Messages are received in the order in which they were sent: over any run, those sent so far keep their
      places, and new ones come after them. */
  lemma {:induction false} OrderKept(w: World, steps: seq<Step>)
    requires IsRun(w, steps)
    ensures w.received <= After(w, steps).received
    ensures w.received + w.channel <= After(w, steps).received + After(w, steps).channel
    decreases |steps|
  {
    hide TrimSpace;
    if steps != [] {
      var next := Next(w, steps[0]);
      assert w.received + w.channel <= next.received + next.channel by {
        if steps[0].Receive? {
          assert w.channel == [w.channel[0]] + w.channel[1..];
          assert next.received + next.channel == w.received + w.channel;
        } else if steps[0].Send? {
          assert next.received + next.channel == w.received + w.channel + [next.channel[|w.channel|]];
        }
      }
      OrderKept(next, steps[1..]);
    }
  }

  /** In every reachable world, sending never waits: a guest that is about to send finds room, whether
      or not the server receives. Buffered plus received messages are as many as guests that have sent. */
  lemma NeverBlocks(w: World, steps: seq<Step>)
    requires Initial(w) && IsRun(w, steps)
    ensures var now := After(w, steps);
            && now.capacity == |now.guests| == |w.guests|
            && |now.channel| + |now.received| == |Senders(now.guests)| <= now.capacity
            && forall i: nat :: i < |now.guests| && now.guests[i].at.Sending? ==>
                 |now.channel| < now.capacity && Enabled(now, Send(i))
  {
    hide After;
    InitialInv(w);
    RunKeepsInv(w, steps);
    var now := After(w, steps);
    GuestsStay(w, steps);
    CountBelow(Senders(now.guests), |now.guests|);
    forall i: nat | i < |now.guests| && now.guests[i].at.Sending?
      ensures |now.channel| < now.capacity && Enabled(now, Send(i))
    {
      assert GuestOk(now.guests[i]);
      BoundedSet(Senders(now.guests), |now.guests|, i);
    }
  }

  /** In every reachable world, each guest has at most one message, sent or received, and it is that
      guest's serial with the first line it read. */
  lemma FirstLineOnce(w: World, steps: seq<Step>)
    requires Initial(w) && IsRun(w, steps)
    ensures var now := After(w, steps);
            var ms := Messages(now);
            && (forall j, k :: 0 <= j < k < |ms| ==> ms[j].from != ms[k].from)
            && (forall k :: 0 <= k < |ms| ==> MessageOk(now.guests, ms[k]))
  {
    hide After;
    InitialInv(w);
    RunKeepsInv(w, steps);
  }
}
