/** The writer that turns the byte chunks of a QEMU console into prefixed log lines. */
module LogWriter {

  const CR := '\r'
  const LF := '\n'

  /** Every CR LF pair replaced by LF. */
  function Normalize(s: string): string {
    if |s| < 2 then s
    else if s[0] == CR && s[1] == LF then [LF] + Normalize(s[2..])
    else [s[0]] + Normalize(s[1..])
  }

  /** The parts between line feeds; one more than there are line feeds. */
  function Split(s: string): (parts: seq<string>)
    ensures parts != []
  {
    if s == [] then [[]]
    else if s[0] == LF then [[]] + Split(s[1..])
    else
      var rest := Split(s[1..]);
      [[s[0]] + rest[0]] + rest[1..]
  }

  function Join(parts: seq<string>): string
    requires parts != []
  {
    if |parts| == 1 then parts[0] else parts[0] + [LF] + Join(parts[1..])
  }

  /** What has been emitted, without prefix, and the unfinished line that is kept. */
  datatype Log = Log(lines: seq<string>, prev: string)

  /** One write to an underlying writer that accepts every line. */
  function Written(w: Log, p: string): Log {
    var parts := Split(w.prev + Normalize(p));
    Log(w.lines + parts[..|parts| - 1], parts[|parts| - 1])
  }

  function WrittenAll(w: Log, chunks: seq<string>): Log
    decreases |chunks|
  {
    if chunks == [] then w else WrittenAll(Written(w, chunks[0]), chunks[1..])
  }

  // ---------- the writer itself ----------

  /** The underlying writer: accepts `room` more lines, then fails. */
  class Sink {
    var lines: seq<string>
    var room: nat

    constructor (room: nat)
      ensures lines == [] && this.room == room
    {
      lines := [];
      this.room := room;
    }

    method Println(s: string) returns (ok: bool)
      modifies this
      ensures ok == (old(room) > 0)
      ensures ok ==> lines == old(lines) + [s] && room == old(room) - 1
      ensures !ok ==> lines == old(lines) && room == 0
    {
      ok := room > 0;
      if ok {
        lines := lines + [s];
        room := room - 1;
      }
    }
  }

  /** The lines as they are emitted: prefixed, then painted, which puts colour codes around them. */
  function Painted(paint: string -> string, prefix: string, lines: seq<string>): seq<string> {
    seq(|lines|, i requires 0 <= i < |lines| => paint(prefix + lines[i]))
  }

  class ColoredLogWriter {
    const prefix: string
    const paint: string -> string
    const sink: Sink
    var prev: string

    /** NewColoredLogWriter, for the kind and the name of what writes. */
    constructor (kind: string, name: string, paint: string -> string, sink: Sink)
      ensures prefix == "[" + kind + "] " + name + " - "
      ensures this.paint == paint && this.sink == sink && prev == []
    {
      prefix := "[" + kind + "] " + name + " - ";
      this.paint := paint;
      this.sink := sink;
      prev := [];
    }

    /** Write. When the underlying writer fails, the lines not yet emitted are lost, but the unfinished
        line is kept all the same. */
    method Write(p: string) returns (n: nat, ok: bool)
      modifies this, sink
      ensures n == |p|
      ensures var w := Written(Log([], old(prev)), p);
              var done := if ok then |w.lines| else old(sink.room);
              && prev == w.prev
              && ok == (|w.lines| <= old(sink.room))
              && sink.lines == old(sink.lines) + Painted(paint, prefix, w.lines[..done])
              && (forall k :: 0 <= k < done ==> sink.lines[|old(sink.lines)| + k] == paint(prefix + w.lines[k]))
              && sink.room == old(sink.room) - done
    {
      n := |p|;
      var input := prev + Normalize(p);
      var inputs := Split(input);
      prev := inputs[|inputs| - 1];
      inputs := inputs[..|inputs| - 1];
      assert Written(Log([], old(prev)), p).lines == inputs;
      ok := Emit(inputs);
    }

    method Emit(lines: seq<string>) returns (ok: bool)
      modifies sink
      ensures ok == (|lines| <= old(sink.room))
      ensures var done := if ok then |lines| else old(sink.room);
              && sink.lines == old(sink.lines) + Painted(paint, prefix, lines[..done])
              && sink.room == old(sink.room) - done
    {
      for i := 0 to |lines|
        invariant sink.room == old(sink.room) - i
        invariant sink.lines == old(sink.lines) + Painted(paint, prefix, lines[..i])
      {
        ok := sink.Println(paint(prefix + lines[i]));
        if !ok {
          return;
        }
        assert Painted(paint, prefix, lines[..i + 1]) ==
               Painted(paint, prefix, lines[..i]) + [paint(prefix + lines[i])];
      }
      ok := true;
    }
  }

  // ---------- normalising ----------

  /** The text from position i on without its carriage returns that stand before a line feed. */
  function WithoutCR(s: string, i: nat): string
    requires i <= |s|
    decreases |s| - i
  {
    if i == |s| then []
    else if s[i] == '\r' && i + 1 < |s| && s[i + 1] == '\n' then WithoutCR(s, i + 1)
    else [s[i]] + WithoutCR(s, i + 1)
  }

  /** Normalising deletes exactly the carriage returns that stand before a line feed. */
  lemma {:induction false} NormalizeDeletes(s: string, i: nat)
    requires i <= |s|
    ensures Normalize(s[i..]) == WithoutCR(s, i)
    decreases |s| - i
  {
    var rest := s[i..];
    if |rest| >= 2 {
      NormalizeUnfolded(rest);
      NormalizeDeletes(s, i + 1);
      assert rest[1..] == s[i + 1..] && rest[2..] == s[i + 2..];
      if rest[0] == CR && rest[1] == LF {
        NormalizeDeletes(s, i + 2);
      }
    }
  }

  // ---------- splitting and joining ----------

  predicate Clean(s: string) {
    LF !in s
  }

  predicate AllClean(parts: seq<string>) {
    forall i :: 0 <= i < |parts| ==> Clean(parts[i])
  }

  lemma JoinOfLonger(x: char, rest: seq<string>)
    requires rest != []
    ensures Join([[x] + rest[0]] + rest[1..]) == [x] + Join(rest)
  {
  }

  lemma Regroup(a: string, b: string, c: string)
    ensures (a + b) + c == a + (b + c)
  {
  }

  lemma CleanLonger(x: char, rest: seq<string>)
    requires rest != [] && x != LF && AllClean(rest)
    ensures AllClean([[x] + rest[0]] + rest[1..])
  {
  }

  lemma {:induction false} JoinOfSplit(s: string)
    ensures Join(Split(s)) == s && AllClean(Split(s))
    decreases |s|
  {
    if s != [] {
      var rest := Split(s[1..]);
      JoinOfSplit(s[1..]);
      assert s == [s[0]] + s[1..];
      if s[0] == LF {
        assert ([[]] + rest)[1..] == rest;
        assert Join([[]] + rest) == [LF] + Join(rest);
      } else {
        JoinOfLonger(s[0], rest);
        CleanLonger(s[0], rest);
      }
    }
  }

  lemma {:induction false} SplitOfJoin(parts: seq<string>)
    requires parts != [] && AllClean(parts)
    ensures Split(Join(parts)) == parts
    decreases |parts|, |parts[0]|
  {
    var p := parts[0];
    if p != [] {
      var parts' := [p[1..]] + parts[1..];
      assert p == [p[0]] + p[1..] && Clean(p);
      assert parts'[1..] == parts[1..];
      assert Join(parts) == [p[0]] + Join(parts');
      SplitOfJoin(parts');
      assert parts == [[p[0]] + parts'[0]] + parts'[1..];
    } else if |parts| > 1 {
      assert Join(parts) == [LF] + Join(parts[1..]);
      SplitOfJoin(parts[1..]);
      assert parts == [[]] + parts[1..];
    } else {
      assert parts == [[]];
    }
  }

  // ---------- what has been read, recovered from lines and leftover ----------

  ghost predicate WellFormed(w: Log) {
    AllClean(w.lines) && Clean(w.prev)
  }

  /** The emitted lines joined by line feeds, then the leftover. */
  ghost function Text(w: Log): string {
    Join(w.lines + [w.prev])
  }

  function Terminated(lines: seq<string>): string {
    if lines == [] then [] else lines[0] + [LF] + Terminated(lines[1..])
  }

  lemma {:induction false} JoinConcat(a: seq<string>, b: seq<string>)
    requires b != []
    ensures Join(a + b) == Terminated(a) + Join(b)
    decreases |a|
  {
    if a == [] {
      assert a + b == b;
    } else {
      assert (a + b)[1..] == a[1..] + b;
      JoinConcat(a[1..], b);
    }
  }

  /** A write appends the normalised chunk to the text, and lines never hold a line feed. */
  lemma WriteAppends(w: Log, p: string)
    requires WellFormed(w)
    ensures Text(Written(w, p)) == Text(w) + Normalize(p)
    ensures WellFormed(Written(w, p))
  {
    hide Normalize, Split, Terminated;
    var parts := Split(w.prev + Normalize(p));
    var last := parts[|parts| - 1];
    JoinOfSplit(w.prev + Normalize(p));
    assert parts == parts[..|parts| - 1] + [last];
    assert Written(w, p).lines + [last] == w.lines + parts;
    JoinConcat(w.lines, parts);
    JoinConcat(w.lines, [w.prev]);
  }

  /** Lines and leftover are determined by the text. */
  lemma TextDetermines(w: Log, w': Log)
    requires WellFormed(w) && WellFormed(w') && Text(w) == Text(w')
    ensures w == w'
  {
    var parts, parts' := w.lines + [w.prev], w'.lines + [w'.prev];
    SplitOfJoin(parts);
    SplitOfJoin(parts');
    assert parts[..|parts| - 1] == w.lines && parts'[..|parts'| - 1] == w'.lines;
    assert parts[|parts| - 1] == w.prev && parts'[|parts'| - 1] == w'.prev;
  }

  // ---------- chunks ----------

  function Concat(chunks: seq<string>): string {
    if chunks == [] then [] else chunks[0] + Concat(chunks[1..])
  }

  function NormalizeEach(chunks: seq<string>): string {
    if chunks == [] then [] else Normalize(chunks[0]) + NormalizeEach(chunks[1..])
  }

  predicate Breaks(a: string, b: string) {
    a != [] && b != [] && a[|a| - 1] == CR && b[0] == LF
  }

  /** Some chunk ends between the CR and the LF of one pair. */
  predicate BreaksAPair(chunks: seq<string>) {
    chunks != [] && (Breaks(chunks[0], Concat(chunks[1..])) || BreaksAPair(chunks[1..]))
  }

  lemma NormalizeCons(x: char, b: string)
    ensures !Breaks([x], b) ==> Normalize([x] + b) == [x] + Normalize(b)
    ensures Breaks([x], b) ==> |Normalize([x] + b)| == |Normalize(b)|
  {
  }

  lemma NormalizeUnfolded(s: string)
    requires |s| >= 2
    ensures Normalize(s) ==
            if s[0] == CR && s[1] == LF then [LF] + Normalize(s[2..]) else [s[0]] + Normalize(s[1..])
  {
  }

  lemma {:induction false} NormalizeConcat(a: string, b: string)
    ensures !Breaks(a, b) ==> Normalize(a + b) == Normalize(a) + Normalize(b)
    ensures Breaks(a, b) ==> |Normalize(a + b)| + 1 == |Normalize(a)| + |Normalize(b)|
    decreases |a|
  {
    if a == [] {
      assert a + b == b;
    } else if |a| == 1 {
      NormalizeCons(a[0], b);
      assert a == [a[0]];
    } else {
      hide Normalize;
      NormalizeStep(a, b, if a[0] == CR && a[1] == LF then 2 else 1);
      NormalizeConcat(a[if a[0] == CR && a[1] == LF then 2 else 1..], b);
    }
  }

  /** One character, or one pair, taken off the front of both sides. */
  lemma NormalizeStep(a: string, b: string, n: nat)
    requires |a| >= 2 && n == if a[0] == CR && a[1] == LF then 2 else 1
    ensures var head := if n == 2 then [LF] else [a[0]];
            && Normalize(a + b) == head + Normalize(a[n..] + b)
            && Normalize(a) == head + Normalize(a[n..])
            && Normalize(a) + Normalize(b) == head + (Normalize(a[n..]) + Normalize(b))
            && (Breaks(a, b) <==> Breaks(a[n..], b))
  {
    hide Normalize;
    NormalizeUnfolded(a);
    NormalizeUnfolded(a + b);
    assert (a + b)[n..] == a[n..] + b;
    Regroup(if n == 2 then [LF] else [a[0]], Normalize(a[n..]), Normalize(b));
  }

  lemma {:induction false} NormalizeChunks(chunks: seq<string>)
    ensures !BreaksAPair(chunks) ==> NormalizeEach(chunks) == Normalize(Concat(chunks))
    ensures BreaksAPair(chunks) ==> |NormalizeEach(chunks)| > |Normalize(Concat(chunks))|
    ensures |NormalizeEach(chunks)| >= |Normalize(Concat(chunks))|
    decreases |chunks|
  {
    if chunks != [] {
      NormalizeChunks(chunks[1..]);
      NormalizeConcat(chunks[0], Concat(chunks[1..]));
    }
  }

  lemma {:induction false} WritesAppend(w: Log, chunks: seq<string>)
    requires WellFormed(w)
    ensures Text(WrittenAll(w, chunks)) == Text(w) + NormalizeEach(chunks)
    ensures WellFormed(WrittenAll(w, chunks))
    decreases |chunks|
  {
    hide Text, Written, Normalize, WellFormed;
    if chunks == [] {
      assert Text(w) + [] == Text(w);
    } else {
      WriteAppends(w, chunks[0]);
      WritesAppend(Written(w, chunks[0]), chunks[1..]);
      Regroup(Text(w), Normalize(chunks[0]), NormalizeEach(chunks[1..]));
    }
  }

  /** How a stream is cut into chunks does not matter, to the emitted lines or to the leftover, exactly
      when no cut falls inside a CR LF pair. */
  lemma ChunkingIrrelevantIff(w: Log, chunks: seq<string>)
    requires WellFormed(w)
    ensures WrittenAll(w, chunks) == Written(w, Concat(chunks)) <==> !BreaksAPair(chunks)
  {
    hide Text, Written, WrittenAll, Normalize, NormalizeEach, BreaksAPair;
    WritesAppend(w, chunks);
    WriteAppends(w, Concat(chunks));
    NormalizeChunks(chunks);
    if !BreaksAPair(chunks) {
      TextDetermines(WrittenAll(w, chunks), Written(w, Concat(chunks)));
    } else {
      assert |Text(WrittenAll(w, chunks))| > |Text(Written(w, Concat(chunks)))|;
    }
  }

  /** What a write does, given the lines its text consists of. */
  lemma WrittenAs(w: Log, p: string, lines: seq<string>, last: string)
    requires AllClean(lines) && Clean(last) && w.prev + Normalize(p) == Join(lines + [last])
    ensures Written(w, p) == Log(w.lines + lines, last)
  {
    SplitOfJoin(lines + [last]);
    assert (lines + [last])[..|lines|] == lines;
  }

  /** A stream that shows it: the carriage return of a cut pair stays in the line. */
  lemma ChunkingMattersWitness()
    ensures WrittenAll(Log([], []), ["\r", "\n"]) == Log(["\r"], [])
    ensures Written(Log([], []), "\r\n") == Log([[]], [])
  {
    hide Written, Split, Join, Normalize, AllClean;
    ShortTexts();
    WrittenAs(Log([], []), "\r", [], "\r");
    assert Written(Log([], []), "\r") == Log([], "\r");
    WrittenAs(Log([], "\r"), "\n", ["\r"], []);
    WrittenTwice(Log([], []), "\r", "\n");
    WrittenAs(Log([], []), "\r\n", [[]], []);
  }

  lemma WrittenTwice(w: Log, p: string, q: string)
    ensures WrittenAll(w, [p, q]) == Written(Written(w, p), q)
  {
    hide Written;
    var w' := Written(w, p);
    assert [p, q][1..] == [q] && [q][1..] == [];
    assert WrittenAll(w', [q]) == WrittenAll(Written(w', q), []);
  }

  lemma ShortTexts()
    ensures Normalize("\r") == "\r" && Normalize("\n") == "\n" && Normalize("\r\n") == "\n"
    ensures Join([] + ["\r"]) == "\r" && Join(["\r"] + [[]]) == "\r\n" && Join([[]] + [[]]) == "\n"
    ensures AllClean([]) && AllClean(["\r"]) && AllClean([[]])
  {
  }
}
