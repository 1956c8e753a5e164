/** The receive loop hands the whole 1024-byte buffer to the parsers, so bytes of earlier packets follow
    the received ones. They never matter to a packet that holds the bytes its own fields declare. */
module StaleBuffer {
  import opened Options
  import opened Wire
  import opened Crypto
  import opened Sessions
  import opened Rmcp
  import Ipmi

  /** An RMCP+ payload that holds what it declares: an encrypted one its payload length, an RAKP 1 its
      user name length rather than the 20 bytes of the field. */
  predicate PayloadComplete(h: Header, b: Bytes) {
    if IsEncrypted(h) then |b| >= h.payloadLen
    else
      var kind := h.payloadType % 64;
      if kind == PAYLOAD_OPEN_REQUEST then |b| >= 32
      else if kind == PAYLOAD_RAKP1 then |b| >= 28 && (b[27] > 20 || |b| >= 28 + b[27])
      else if kind == PAYLOAD_RAKP3 then |b| >= 28
      else true
  }

  predicate MessageComplete(b: Bytes) {
    ParseWrapper(b).Some?
    && var (w, rest) := ParseWrapper(b).value;
       |rest| >= 7 + Ipmi.DataLen(w.messageLen)
  }

  /** A packet that holds every byte its own headers and length fields announce. */
  predicate Complete(p: Bytes) {
    |p| >= 4
    && (p[3] == CLASS_IPMI ==>
          && |p| >= 5
          && (p[4] == AUTH_RMCP_PLUS ==> |p| >= 16 && PayloadComplete(ParseHeader(p[5..16]), p[16..]))
          && (p[4] == AUTH_NONE ==> MessageComplete(p[5..])))
  }

  lemma PrefixOf(b: Bytes, x: Bytes, n: nat)
    requires n <= |b|
    ensures (b + x)[..n] == b[..n] && (b + x)[n..] == b[n..] + x
  {
  }

  lemma Rakp1IgnoresRest(c: Suite, s: Bmc, p: Rakp1, q: Rakp1)
    requires p.(userName := q.userName) == q
    requires p.userNameLength <= 20 ==> p.userName[..p.userNameLength] == q.userName[..q.userNameLength]
    ensures AcceptRakp1(c, s, p) == AcceptRakp1(c, s, q)
  {
  }

  lemma Rakp1Fields(b: Bytes, x: Bytes, y: Bytes)
    requires |b| >= 28 && |b + x| >= 48 && |x| == |y|
    requires b[27] > 20 || |b| >= 28 + b[27]
    ensures var p, q := ParseRakp1((b + x)[..48]), ParseRakp1((b + y)[..48]);
            && p.(userName := q.userName) == q
            && (p.userNameLength <= 20 ==> p.userName[..p.userNameLength] == q.userName[..q.userNameLength])
  {
    hide FromLE32;
    FrontSlice(b, x, 48, 4, 8);
    FrontSlice(b, y, 48, 4, 8);
    FrontSlice(b, x, 48, 8, 24);
    FrontSlice(b, y, 48, 8, 24);
    assert (b + x)[..48][0] == b[0] && (b + x)[..48][24] == b[24] && (b + x)[..48][27] == b[27];
    assert (b + y)[..48][0] == b[0] && (b + y)[..48][24] == b[24] && (b + y)[..48][27] == b[27];
    if b[27] <= 20 {
      NameSlice(b, x, b[27]);
      NameSlice(b, y, b[27]);
    }
  }

  /** A slice that lies within b is a slice of b. */
  lemma FrontSlice(b: Bytes, x: Bytes, n: nat, i: nat, j: nat)
    requires i <= j <= |b| && j <= n <= |b + x|
    ensures (b + x)[..n][i..j] == b[i..j]
  {
  }

  /** The declared part of the name field. */
  lemma NameSlice(b: Bytes, x: Bytes, n: nat)
    requires n <= 20 && 28 + n <= |b| && |b + x| >= 48
    ensures (b + x)[..48][28..48][..n] == b[28..28 + n]
  {
    FrontSlice(b, x, 48, 28, 28 + n);
    SliceOfSlice((b + x)[..48], 28, 48, n);
  }

  lemma PayloadIgnoresRest(c: Suite, s: Bmc, h: Header, b: Bytes, x: Bytes, y: Bytes)
    requires PayloadComplete(h, b) && |x| == |y|
    ensures HandlePlus(c, s, h, b + x) == HandlePlus(c, s, h, b + y)
  {
    hide Open, AcceptRakp1, AcceptRakp3, Decrypt, Dispatch, Ipmi.Parse, ParseOpen, ParseRakp1, ParseRakp3;
    if IsEncrypted(h) {
      PrefixOf(b, x, h.payloadLen);
      PrefixOf(b, y, h.payloadLen);
    } else {
      var kind := h.payloadType % 64;
      if kind == PAYLOAD_OPEN_REQUEST {
        PrefixOf(b, x, 32);
        PrefixOf(b, y, 32);
      } else if kind == PAYLOAD_RAKP1 {
        if |b + x| >= 48 {
          Rakp1Fields(b, x, y);
          Rakp1IgnoresRest(c, s, ParseRakp1((b + x)[..48]), ParseRakp1((b + y)[..48]));
        }
      } else if kind == PAYLOAD_RAKP3 {
        PrefixOf(b, x, 28);
        PrefixOf(b, y, 28);
      }
    }
  }

  lemma WrapperIgnoresRest(b: Bytes, x: Bytes)
    requires ParseWrapper(b).Some?
    ensures ParseWrapper(b + x) == Some((ParseWrapper(b).value.0, ParseWrapper(b).value.1 + x))
  {
    hide FromLE32;
    PrefixOf(b, x, 4);
    assert (b + x)[4..8] == b[4..8];
    PrefixOf(b, x, 8 + AuthCodeLen(FromLE32(b[4..8])) + 1);
  }

  lemma MessageIgnoresRest(s: Bmc, b: Bytes, x: Bytes, y: Bytes)
    requires MessageComplete(b)
    ensures Handle15(s, b + x) == Handle15(s, b + y)
  {
    hide ParseWrapper, Answer15;
    WrapperIgnoresRest(b, x);
    WrapperIgnoresRest(b, y);
    var (w, rest) := ParseWrapper(b).value;
    var n := Ipmi.DataLen(w.messageLen);
    assert (rest + x)[6..6 + n] == rest[6..6 + n] == (rest + y)[6..6 + n];
  }

  /** What follows a complete packet in the buffer has no influence: same reply or error, same state,
      same events. */
  lemma StaleBytesDoNotMatter(c: Suite, s: Bmc, p: Bytes, x: Bytes, y: Bytes)
    requires Complete(p) && |x| == |y|
    ensures Handle(c, s, p + x) == Handle(c, s, p + y)
  {
    hide HandlePlus, Handle15, ParseHeader, PayloadComplete, MessageComplete;
    if p[3] == CLASS_IPMI {
      PrefixOf(p, x, 5);
      PrefixOf(p, y, 5);
      var b := p[5..];
      if p[4] == AUTH_RMCP_PLUS {
        PrefixOf(b, x, 11);
        PrefixOf(b, y, 11);
        assert b[..11] == p[5..16] && b[11..] == p[16..];
        PayloadIgnoresRest(c, s, ParseHeader(b[..11]), b[11..], x, y);
      } else if p[4] == AUTH_NONE {
        MessageIgnoresRest(s, b, x, y);
      }
    }
  }

  /** Two servers in the same state, with arbitrary different buffer contents, that receive the same
      complete packets (or packets that fill the buffer) give the same replies and stay in the same
      state throughout. */
  lemma {:induction false} RunsAgree(c: Suite, s: Bmc, buf: Bytes, buf': Bytes, packets: seq<Bytes>)
    requires |buf| == |buf'| == BUFFER_SIZE
    requires forall i :: 0 <= i < |packets| ==> Complete(packets[i]) || |packets[i]| >= BUFFER_SIZE
    ensures var r, r' := ServeAll(c, s, buf, packets), ServeAll(c, s, buf', packets);
            r.outs == r'.outs && r.state == r'.state && r.log == r'.log
    decreases |packets|
  {
    hide Handle, Complete;
    if packets != [] {
      var p := packets[0];
      if |p| < BUFFER_SIZE {
        StaleBytesDoNotMatter(c, s, p, buf[|p|..], buf'[|p|..]);
      }
      var step := Handle(c, s, Receive(buf, p));
      if !step.out.Fault? {
        RunsAgree(c, step.next, Receive(buf, p), Receive(buf', p), packets[1..]);
      }
    }
  }

  /** An incomplete packet is completed from the buffer: one that repeats the beginning of the packet before
      it is handled, in whatever state, exactly as that packet would be again. */
  lemma PrefixRepeatsPacket(c: Suite, s: Bmc, buf: Bytes, p: Bytes, n: nat)
    requires |buf| == BUFFER_SIZE && n <= |p|
    ensures BUFFER_SIZE == 1024
    ensures Handle(c, s, Receive(Receive(buf, p), p[..n])) == Handle(c, s, Receive(buf, p))
  {
    hide Handle;
    var b := Receive(buf, p);
    var k := if n < BUFFER_SIZE then n else BUFFER_SIZE;
    SliceOfSlice(p, 0, n, k);
    assert p[..k] == b[..k];
    assert Receive(b, p[..n]) == b[..k] + b[k..];
    assert b[..k] + b[k..] == b;
  }
}
