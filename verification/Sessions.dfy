/** The RMCP+ session table: session objects that the handlers update in place, the map that holds
    them, and the allocation of a fresh session id from the random source. */
module Sessions {
  import opened Options
  import opened Wire

  /** What RAKP 1 stores in a session, and what the keys of an accepted RAKP 3 are computed from. */
  datatype Transcript = Transcript(
    consoleRandom: Bytes16,
    managedRandom: Bytes16,
    guid: Bytes16,
    privilege: byte,
    userName: Bytes,
    userNameLength: byte)

  /** Session integrity key, integrity key K1 and confidentiality key K2; empty until RAKP 3. */
  datatype Keys = Keys(sik: Bytes, k1: Bytes, k2: Bytes)

  /** The content of one session object. A nil slice is the empty sequence. */
  datatype SessionValue = SessionValue(consoleId: u32, managedId: u32, transcript: Transcript, keys: Keys)

  const ZERO16: Bytes16 := [0, 0, 0, 0, 0, 0, 0, 0, 0, 0, 0, 0, 0, 0, 0, 0]

  const NO_TRANSCRIPT := Transcript(ZERO16, ZERO16, ZERO16, 0, [], 0)

  const NO_KEYS := Keys([], [], [])

  /** A session as Open Session leaves it. */
  function Blank(consoleId: u32, managedId: u32): SessionValue {
    SessionValue(consoleId, managedId, NO_TRANSCRIPT, NO_KEYS)
  }

  // ---------- the random source ----------

  /** The k-th 32-bit id that a random byte stream yields. */
  function Draw(stream: Bytes, k: nat): u32
    requires 4 * (k + 1) <= |stream|
  {
    FromLE32(stream[4 * k..4 * k + 4])
  }

  /** The first id drawn that is not taken, and the stream after it. */
  function FreshId(taken: set<u32>, stream: Bytes): Option<(u32, Bytes)>
    decreases |stream|
  {
    if |stream| < 4 then None
    else if FromLE32(stream[..4]) in taken then FreshId(taken, stream[4..])
    else Some((FromLE32(stream[..4]), stream[4..]))
  }

  /** The allocated id is the first draw outside the table; allocation fails only when the source ran
      dry on draws that were all taken. */
  lemma {:induction false} FreshIdIsFirst(taken: set<u32>, stream: Bytes) returns (k: nat)
    ensures 4 * k <= |stream|
    ensures forall i :: 0 <= i < k ==> Draw(stream, i) in taken
    ensures FreshId(taken, stream).None? ==> |stream| < 4 * (k + 1)
    ensures FreshId(taken, stream).Some? ==>
              && 4 * (k + 1) <= |stream|
              && FreshId(taken, stream).value == (Draw(stream, k), stream[4 * (k + 1)..])
              && Draw(stream, k) !in taken
    decreases |stream|
  {
    if |stream| < 4 || FromLE32(stream[..4]) !in taken {
      k := 0;
    } else {
      var j := FreshIdIsFirst(taken, stream[4..]);
      k := j + 1;
      forall i | 0 <= i < k
        ensures Draw(stream, i) in taken
      {
        if i > 0 {
          DrawOfTail(stream, i);
        }
      }
      if FreshId(taken, stream[4..]).Some? {
        DrawOfTail(stream, k);
        assert stream[4..][4 * (j + 1)..] == stream[4 * (k + 1)..];
      }
    }
  }

  lemma DrawOfTail(stream: Bytes, i: nat)
    requires 0 < i && 4 * (i + 1) <= |stream|
    ensures Draw(stream[4..], i - 1) == Draw(stream, i)
  {
  }

  /** Any |table| + 1 distinct draws contain a fresh id, so allocation succeeds within them. */
  lemma FreshIdFound(taken: set<u32>, stream: Bytes)
    requires |stream| >= 4 * (|taken| + 1)
    requires forall i, j :: 0 <= i < j <= |taken| ==> Draw(stream, i) != Draw(stream, j)
    ensures FreshId(taken, stream).Some?
    ensures |FreshId(taken, stream).value.1| >= |stream| - 4 * (|taken| + 1)
  {
    var k := FreshIdIsFirst(taken, stream);
    if FreshId(taken, stream).None? || k > |taken| {
      assert forall i :: 0 <= i <= |taken| ==> Draw(stream, i) in taken;
      DistinctDrawsCount(taken, stream, |taken| + 1);
      assert false;
    }
  }

  lemma {:induction false} DistinctDrawsCount(taken: set<u32>, stream: Bytes, n: nat)
    requires 4 * n <= |stream|
    requires forall i, j :: 0 <= i < j < n ==> Draw(stream, i) != Draw(stream, j)
    requires forall i :: 0 <= i < n ==> Draw(stream, i) in taken
    ensures n <= |taken|
    decreases n
  {
    if n > 0 {
      var last := Draw(stream, n - 1);
      DistinctDrawsCount(taken - {last}, stream, n - 1);
    }
  }

  /** The character of a hexadecimal digit. */
  function HexDigit(n: nat): byte
    requires n < 16
  {
    if n < 10 then 48 + n else 87 + n
  }

  /** The first 16 characters of the hexadecimal form of 16 bytes. */
  function HexPrefix(b: Bytes16): Bytes16 {
    seq(16, i requires 0 <= i < 16 => HexDigit(if i % 2 == 0 then b[i / 2] / 16 else b[i / 2] % 16))
  }

  lemma HexPrefixAt(b: Bytes16, k: nat)
    requires k < 8
    ensures HexPrefix(b)[2 * k] == HexDigit(b[k] / 16) && HexPrefix(b)[2 * k + 1] == HexDigit(b[k] % 16)
  {
  }

  lemma HexByte(x: byte, y: byte)
    requires HexDigit(x / 16) == HexDigit(y / 16) && HexDigit(x % 16) == HexDigit(y % 16)
    ensures x == y
  {
    assert x == 16 * (x / 16) + x % 16 && y == 16 * (y / 16) + y % 16;
  }

  /** A generated number spells out the first eight drawn bytes: it determines them and depends on no
      others. */
  lemma HexPrefixIff(b: Bytes16, b': Bytes16)
    ensures HexPrefix(b) == HexPrefix(b') <==> b[..8] == b'[..8]
  {
    hide HexPrefix, HexDigit;
    var h, h' := HexPrefix(b), HexPrefix(b');
    if h == h' {
      forall k | 0 <= k < 8
        ensures b[k] == b'[k]
      {
        HexPrefixAt(b, k);
        HexPrefixAt(b', k);
        HexByte(b[k], b'[k]);
      }
    }
    if b[..8] == b'[..8] {
      forall i | 0 <= i < 16
        ensures h[i] == h'[i]
      {
        var k := i / 2;
        HexPrefixAt(b, k);
        HexPrefixAt(b', k);
        assert b[..8][k] == b[k] && b'[..8][k] == b'[k];
        assert i == 2 * k || i == 2 * k + 1;
      }
    }
  }

  /** The characters of a generated number: two lower-case hexadecimal digits for each of the first eight
      drawn bytes, the high one first. */
  lemma NumberSpells(b: Bytes16, k: nat)
    requires k < 8
    ensures var digits := "0123456789abcdef";
            && HexPrefix(b)[2 * k] == digits[b[k] / 16] as int
            && HexPrefix(b)[2 * k + 1] == digits[b[k] % 16] as int
  {
    HexPrefixAt(b, k);
    DigitCharacter(b[k] / 16);
    DigitCharacter(b[k] % 16);
  }

  lemma DigitCharacter(n: nat)
    requires n < 16
    ensures HexDigit(n) == "0123456789abcdef"[n] as int
  {
  }

  class Random {
    var stream: Bytes

    constructor (b: Bytes)
      ensures stream == b
    {
      stream := b;
    }

    /** A drawn session id. */
    method Id() returns (r: Option<u32>)
      modifies this
      ensures 4 <= |old(stream)| ==> r == Some(FromLE32(old(stream)[..4])) && stream == old(stream)[4..]
      ensures 4 > |old(stream)| ==> r == None && stream == []
    {
      var (b, left) := Taken(stream, 4);
      stream := left;
      r := if b.None? then None else Some(FromLE32(b.value));
    }

    /** generateRandomNumber. */
    method Number() returns (r: Option<Bytes16>)
      modifies this
      ensures 16 <= |old(stream)| ==> r == Some(HexPrefix(old(stream)[..16])) && stream == old(stream)[16..]
      ensures 16 > |old(stream)| ==> r == None && stream == []
    {
      var (b, left) := Taken(stream, 16);
      stream := left;
      r := if b.None? then None else Some(HexPrefix(b.value));
    }
  }

  // ---------- session objects and their holder ----------

  class RmcpPlusSession {
    const consoleId: u32
    const managedId: u32
    var consoleRandom: Bytes16
    var managedRandom: Bytes16
    var privilege: byte
    var guid: Bytes16
    var userName: Bytes
    var userNameLength: byte
    var sik: Bytes
    var k1: Bytes
    var k2: Bytes

    ghost function Value(): SessionValue
      reads this
    {
      SessionValue(consoleId, managedId,
                   Transcript(consoleRandom, managedRandom, guid, privilege, userName, userNameLength),
                   Keys(sik, k1, k2))
    }

    constructor (consoleId: u32, managedId: u32)
      ensures Value() == Blank(consoleId, managedId)
    {
      this.consoleId := consoleId;
      this.managedId := managedId;
      consoleRandom, managedRandom, privilege, guid := ZERO16, ZERO16, 0, ZERO16;
      userName, userNameLength := [], 0;
      sik, k1, k2 := [], [], [];
    }

    method SetTranscript(t: Transcript)
      modifies this
      ensures Value() == old(Value()).(transcript := t)
    {
      consoleRandom := t.consoleRandom;
      managedRandom := t.managedRandom;
      guid := t.guid;
      privilege := t.privilege;
      userNameLength := t.userNameLength;
      userName := t.userName;
    }

    method SetKeys(keys: Keys)
      modifies this
      ensures Value() == old(Value()).(keys := keys)
    {
      sik, k1, k2 := keys.sik, keys.k1, keys.k2;
    }
  }

  class SessionHolder {
    var sessions: map<u32, RmcpPlusSession>

    /** The content of the session objects, by id. */
    ghost var view: map<u32, SessionValue>

    /** All session objects ever in the table. */
    ghost var repr: set<RmcpPlusSession>

    /** Every session object knows the id it is stored under; so no object is stored twice. */
    ghost predicate Valid()
      reads this, repr
    {
      && view.Keys == sessions.Keys
      && (forall i :: i in sessions ==> sessions[i] in repr)
      && (forall i :: i in sessions ==> sessions[i].managedId == i && sessions[i].Value() == view[i])
    }

    lemma NoSharing(i: u32, j: u32)
      requires Valid() && i in sessions && j in sessions && i != j
      ensures sessions[i] != sessions[j]
    {
    }

    constructor ()
      ensures Valid() && sessions == map[] && view == map[] && repr == {}
    {
      sessions, view, repr := map[], map[], {};
    }

    /** The retry loop of getNewRMCPPlusSession. */
    method DrawId(random: Random) returns (r: Option<u32>)
      modifies random
      ensures r.None? ==> FreshId(sessions.Keys, old(random.stream)).None? && random.stream == []
      ensures r.Some? ==> FreshId(sessions.Keys, old(random.stream)) == Some((r.value, random.stream))
      ensures r.Some? ==> r.value !in sessions
    {
      ghost var stream := random.stream;
      r := random.Id();
      if r.None? {
        return;
      }
      while r.value in sessions
        invariant r.Some?
        invariant FreshId(sessions.Keys, stream) ==
                  if r.value in sessions then FreshId(sessions.Keys, random.stream)
                  else Some((r.value, random.stream))
        decreases |random.stream|
      {
        r := random.Id();
        if r.None? {
          return;
        }
      }
    }

    /** getNewRMCPPlusSession. */
    method GetNew(consoleId: u32, random: Random) returns (r: Option<RmcpPlusSession>)
      requires Valid()
      modifies this, random
      ensures Valid() && repr >= old(repr) && fresh(repr - old(repr))
      ensures FreshId(old(sessions.Keys), old(random.stream)).None? ==>
                r.None? && sessions == old(sessions) && view == old(view) && random.stream == []
      ensures FreshId(old(sessions.Keys), old(random.stream)).Some? ==>
                var (id, rest) := FreshId(old(sessions.Keys), old(random.stream)).value;
                && r.Some? && fresh(r.value) && id !in old(sessions)
                && sessions == old(sessions)[id := r.value]
                && r.value.Value() == Blank(consoleId, id)
                && view == old(view)[id := Blank(consoleId, id)]
                && random.stream == rest
    {
      var id := DrawId(random);
      if id.None? {
        return None;
      }
      var session := Insert(consoleId, id.value);
      r := Some(session);
    }

    method Insert(consoleId: u32, id: u32) returns (session: RmcpPlusSession)
      requires Valid() && id !in sessions
      modifies this
      ensures Valid() && fresh(session) && repr == old(repr) + {session}
      ensures sessions == old(sessions)[id := session]
      ensures session.Value() == Blank(consoleId, id)
      ensures view == old(view)[id := Blank(consoleId, id)]
    {
      session := new RmcpPlusSession(consoleId, id);
      sessions, view := sessions[id := session], view[id := session.Value()];
      repr := repr + {session};
    }

    /** removeRMCPPlusSession. */
    method Remove(id: u32)
      requires Valid()
      modifies `sessions, `view
      ensures Valid() && sessions == old(sessions) - {id} && view == old(view) - {id}
    {
      if id in sessions {
        sessions, view := sessions - {id}, view - {id};
      }
    }

    /** Updates the session object of id in place. */
    method StoreTranscript(id: u32, t: Transcript)
      requires Valid() && id in sessions
      modifies sessions[id], `view
      ensures Valid() && view == old(view)[id := old(view)[id].(transcript := t)]
    {
      assert forall j :: j in sessions && sessions[j] == sessions[id] ==> j == id;
      sessions[id].SetTranscript(t);
      view := view[id := view[id].(transcript := t)];
    }

    method StoreKeys(id: u32, keys: Keys)
      requires Valid() && id in sessions
      modifies sessions[id], `view
      ensures Valid() && view == old(view)[id := old(view)[id].(keys := keys)]
    {
      assert forall j :: j in sessions && sessions[j] == sessions[id] ==> j == id;
      sessions[id].SetKeys(keys);
      view := view[id := view[id].(keys := keys)];
    }
  }
}
