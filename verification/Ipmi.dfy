/** IPMI messages: parser, printer and checksums, the reply template, and the served App and
    Chassis commands. */
module Ipmi {
  import opened Options
  import opened Wire
  import opened Power

  const NETFN_CHASSIS: byte := 0x00
  const NETFN_APP: byte := 0x06

  const CODE_OK: byte := 0x00
  const CODE_COULD_NOT_EXECUTE: byte := 0xd5

  const CMD_GET_CHANNEL_AUTH_CAPABILITIES: byte := 0x38
  const CMD_SET_SESSION_PRIVILEGE: byte := 0x3b
  const CMD_CLOSE_SESSION: byte := 0x3c

  const CMD_GET_CHASSIS_STATUS: byte := 0x01
  const CMD_CHASSIS_CONTROL: byte := 0x02

  /** targetLun is the network function (6 bits) and the LUN (2 bits), sourceLun the sequence number
      (6 bits) and the LUN (2 bits). Masks and shifts of those bits are divisions by 4. */
  datatype Message = Message(
    target: byte,
    targetLun: byte,
    checksum: byte,
    source: byte,
    sourceLun: byte,
    command: byte,
    completion: byte,
    data: Bytes,
    dataChecksum: byte)

  function NetFn(m: Message): byte {
    m.targetLun / 4
  }

  // ---------- parsing ----------

  /** Number of data bytes read for a declared message length. */
  function DataLen(len: int): nat {
    if len > 7 then len - 7 else 0
  }

  /** A message of declared length len at the start of b. */
  function Parse(b: Bytes, len: int): Option<Message> {
    var n := DataLen(len);
    if |b| < 7 + n then None
    else Some(Message(b[0], b[1], b[2], b[3], b[4], b[5], CODE_OK, b[6..6 + n], b[6 + n]))
  }

  /** deserializeIPMIMessage. */
  method Deserialize(buf: Reader, len: int) returns (r: Option<Message>)
    modifies buf
    ensures r == Parse(old(buf.rest), len)
  {
    var n := DataLen(len);
    ghost var b := buf.rest;
    var head := buf.Read(6);
    if head.None? {
      return None;
    }
    var h := head.value;
    var data := Some([]);
    if n > 0 {
      data := buf.Read(n);
      if data.None? {
        return None;
      }
      assert data.value == b[6..6 + n];
    }
    var sum := buf.Read(1);
    if sum.None? {
      return None;
    }
    assert data.value == b[6..6 + n] && sum.value[0] == b[6 + n];
    r := Some(Message(h[0], h[1], h[2], h[3], h[4], h[5], CODE_OK, data.value, sum.value[0]));
  }

  // ---------- printing ----------

  /** Bytes added up, without a bound. */
  function Sum(b: Bytes): nat {
    if b == [] then 0 else b[0] + Sum(b[1..])
  }

  lemma {:induction false} SumConcat(a: Bytes, b: Bytes)
    ensures Sum(a + b) == Sum(a) + Sum(b)
    decreases |a|
  {
    if a == [] {
      assert a + b == b;
    } else {
      assert (a + b)[1..] == a[1..] + b;
      SumConcat(a[1..], b);
    }
  }

  /** The two's-complement checksum byte of a sum. */
  function Checksum(sum: nat): byte {
    (0x100 - sum % 0x100) % 0x100
  }

  predicate IsResponse(targetLun: byte) {
    targetLun / 4 % 2 == 1
  }

  function Header(m: Message): Bytes {
    [m.target, m.targetLun, m.checksum]
  }

  function Body(m: Message): Bytes {
    [m.source, m.sourceLun, m.command] + (if IsResponse(m.targetLun) then [m.completion] else []) + m.data
  }

  /** serializeIPMIMessage: the completion code is written in responses only. */
  function Print(m: Message): Bytes {
    Header(m) + Body(m) + [m.dataChecksum]
  }

  /** The message with both checksums filled in; the completion code always counts. */
  function Summed(m: Message): Message {
    m.(checksum := Checksum(m.target as int + m.targetLun),
       dataChecksum := Checksum(Sum([m.source, m.sourceLun, m.command, m.completion] + m.data)))
  }

  /** serializeIPMI: sums in a uint32, then prints. */
  method Serialize(m: Message) returns (r: Bytes)
    ensures r == Print(Summed(m))
  {
    ghost var head := [m.source, m.sourceLun, m.command, m.completion];
    SumOfFour(m.source, m.sourceLun, m.command, m.completion);
    var sum := AddBytes(m.source as int + m.sourceLun as int + m.command as int + m.completion as int, m.data);
    SumConcat(head, m.data);
    var dataChecksum: byte := (0x100 - sum % 0x100) % 0x100;
    assert dataChecksum == Checksum(Sum(head + m.data));
    sum := m.target as int + m.targetLun as int;
    var checksum: byte := (0x100 - sum % 0x100) % 0x100;
    r := Print(m.(checksum := checksum, dataChecksum := dataChecksum));
  }

  /** The summing loop: only the low byte survives a wrap-around of the uint32. */
  method AddBytes(start: u32, b: Bytes) returns (sum: u32)
    ensures sum % 0x100 == (start + Sum(b)) % 0x100
  {
    sum := start;
    for i := 0 to |b|
      invariant sum % 0x100 == (start + Sum(b[..i])) % 0x100
    {
      SumSnoc(b[..i], b[i]);
      assert b[..i + 1] == b[..i] + [b[i]];
      WrapKeepsLowByte(sum, b[i], start + Sum(b[..i]));
      sum := (sum as int + b[i] as int) % 0x1_0000_0000;
    }
    assert b[..|b|] == b;
  }

  lemma SumOfFour(a: byte, b: byte, c: byte, d: byte)
    ensures Sum([a, b, c, d]) == a as int + b as int + c as int + d as int
  {
    SumOfTwo(c, d);
    assert [a, b, c, d][1..] == [b, c, d] && [b, c, d][1..] == [c, d];
  }

  lemma SumOfThree(a: byte, b: byte, c: byte)
    ensures Sum([a, b, c]) == a as int + b as int + c as int
  {
    SumOfTwo(b, c);
    assert [a, b, c][1..] == [b, c];
  }

  lemma SumOfTwo(a: byte, b: byte)
    ensures Sum([a, b]) == a as int + b as int
  {
    assert [a, b][1..] == [b] && [b][1..] == [];
    assert Sum([b]) == b;
  }

  lemma SumSnoc(b: Bytes, x: byte)
    ensures Sum(b + [x]) == Sum(b) + x
  {
    SumConcat(b, [x]);
    assert Sum([x]) == x;
  }

  lemma WrapKeepsLowByte(sum: u32, x: byte, total: nat)
    requires sum % 0x100 == total % 0x100
    ensures (sum as int + x) % 0x1_0000_0000 % 0x100 == (total + x) % 0x100
  {
    var s := sum as int + x as int;
    var wrapped := if s < 0x1_0000_0000 then s else s - 0x1_0000_0000;
    assert s % 0x1_0000_0000 == wrapped;
    SameLowByte(wrapped, s, if wrapped == s then 0 else 0x100_0000);
    SameLowByte(s, total + x, (total - sum) / 0x100);
  }

  /** Adding a multiple of 256 does not change the low byte. */
  lemma SameLowByte(a: nat, b: nat, k: int)
    requires b == a + 0x100 * k
    ensures a % 0x100 == b % 0x100
  {
    LowByte(b, a / 0x100 + k, a % 0x100);
  }

  /** Both parts of every printed response add up to 0 modulo 256. */
  lemma ChecksumsAddUp(m: Message)
    requires IsResponse(m.targetLun)
    ensures var r := Print(Summed(m));
            && |r| == 8 + |m.data|
            && Sum(r[..3]) % 0x100 == 0
            && Sum(r[3..]) % 0x100 == 0
  {
    var s := Summed(m);
    var r := Print(s);
    var counted := [m.source, m.sourceLun, m.command, m.completion] + m.data;
    assert Body(s) == counted;
    assert r[..3] == [s.target, s.targetLun] + [s.checksum];
    assert r[3..] == counted + [s.dataChecksum];
    SumSnoc([s.target, s.targetLun], s.checksum);
    SumOfTwo(s.target, s.targetLun);
    SumSnoc(counted, s.dataChecksum);
    ChecksumCancels(s.target as int + s.targetLun as int);
    ChecksumCancels(Sum(counted));
  }

  /** A number written as a multiple of 256 and a rest has that rest as its low byte. */
  lemma LowByte(n: int, q: int, r: nat)
    requires n == 0x100 * q + r && r < 0x100
    ensures n % 0x100 == r
  {
  }

  /** The checksum completes the low byte to 256, or is 0. */
  lemma ChecksumCompletes(sum: nat) returns (q: nat)
    ensures sum + Checksum(sum) == 0x100 * q
  {
    q := (sum + 0xff) / 0x100;
  }

  lemma ChecksumCancels(sum: nat)
    ensures (sum + Checksum(sum)) % 0x100 == 0
  {
    var q := ChecksumCompletes(sum);
    hide Checksum;
    LowByte(sum + Checksum(sum), q, 0);
  }

  /** A request, whose network function is even, adds up only when its completion code is 0: the
      code counts in the checksum but is not written. */
  lemma RequestAddsUpIff(m: Message)
    requires !IsResponse(m.targetLun)
    ensures Sum(Print(Summed(m))[3..]) % 0x100 == 0 <==> m.completion == 0
  {
    var s := Summed(m);
    var three := [m.source, m.sourceLun, m.command];
    assert Print(s)[3..] == three + m.data + [s.dataChecksum];
    SumSnoc(three + m.data, s.dataChecksum);
    SumConcat(three, m.data);
    var four := three + [m.completion];
    assert four + m.data == [m.source, m.sourceLun, m.command, m.completion] + m.data;
    SumConcat(four, m.data);
    SumSnoc(three, m.completion);
    LowByteOfDifference(Sum(three + m.data), m.completion);
  }

  lemma LowByteOfDifference(sum: nat, x: byte)
    ensures (sum + Checksum(sum + x)) % 0x100 == 0 <==> x == 0
  {
    var q := ChecksumCompletes(sum + x);
    hide Checksum;
    if x == 0 {
      LowByte(sum + Checksum(sum + x), q, 0);
    } else {
      LowByte(sum + Checksum(sum + x), q - 1, 0x100 - x);
    }
  }

  /** Reading back a printed message: its declared length is its byte count, and the completion code
      of a response is the first data byte. */
  lemma ParseOfPrint(m: Message, tail: Bytes)
    requires IsResponse(m.targetLun) || m.completion == CODE_OK
    ensures |Print(m)| == 7 + |m.data| + (if IsResponse(m.targetLun) then 1 else 0)
    ensures Parse(Print(m) + tail, |Print(m)|) ==
            Some(m.(completion := CODE_OK,
                    data := (if IsResponse(m.targetLun) then [m.completion] else []) + m.data))
  {
    var b := Print(m) + tail;
    var data := (if IsResponse(m.targetLun) then [m.completion] else []) + m.data;
    var head := [m.target, m.targetLun, m.checksum, m.source, m.sourceLun, m.command];
    assert Header(m) + Body(m) == head + data;
    assert b == head + (data + ([m.dataChecksum] + tail));
    assert b[6..] == data + ([m.dataChecksum] + tail);
    assert b[6..6 + |data|] == data;
  }

  // ---------- the reply ----------

  /** buildResponseMessageTemplate: addresses and LUNs swapped, sequence number and command kept. */
  function Template(request: Message, netfn: byte, code: byte): Message
    requires netfn < 64
  {
    Message(
      request.source,
      request.sourceLun % 4 + 4 * netfn as int,
      0,
      request.target,
      request.sourceLun / 4 * 4 + request.targetLun % 4,
      request.command,
      code,
      [],
      0)
  }

  /** appendIPMIMessageHeader. An error of the command handler arrives as None. */
  function ReplyTo(request: Message, netfn: byte, served: Option<Bytes>): Bytes
    requires netfn < 63
  {
    var code := if served.Some? then CODE_OK else CODE_COULD_NOT_EXECUTE;
    var data := if served.Some? then served.value else [];
    Print(Summed(Template(request, netfn + 1, code).(data := data)))
  }

  method AppendMessageHeader(request: Message, netfn: byte, served: Option<Bytes>) returns (r: Bytes)
    requires netfn < 63
    ensures r == ReplyTo(request, netfn, served)
  {
    var code := if served.Some? then CODE_OK else CODE_COULD_NOT_EXECUTE;
    var response := Template(request, netfn + 1, code);
    response := response.(data := if served.Some? then served.value else []);
    r := Serialize(response);
  }

  // ---------- served commands ----------

  /** The command handlers that only map request bytes to reply bytes; None is an error. */
  function AuthCapabilities(data: Bytes): Option<Bytes> {
    if |data| < 2 then None else Some([1, 0x87, 0x06, 0x02, 0, 0, 0, 0])
  }

  function SetPrivilege(data: Bytes): Option<Bytes> {
    if |data| < 1 then None else Some([data[0]])
  }

  /** The id that a Close Session request names. */
  function CloseTarget(data: Bytes): Option<u32> {
    if |data| < 4 then None else Some(FromLE32(data[..4]))
  }

  function ChassisStatus(m: MachineState): Option<Bytes> {
    if !m.Obeys() then None else Some([if IsOn(m.status) then 1 else 0, 0, 0, 0])
  }

  /** The effect of one message: reply bytes unless the network function is not served, the machine
      afterwards, and the session id that it closes. */
  datatype Served = Served(reply: Option<Bytes>, machine: MachineState, close: Option<u32>)

  function ServeApp(m: Message): (Option<Bytes>, Option<u32>) {
    if m.command == CMD_GET_CHANNEL_AUTH_CAPABILITIES then (AuthCapabilities(m.data), None)
    else if m.command == CMD_SET_SESSION_PRIVILEGE then (SetPrivilege(m.data), None)
    else if m.command == CMD_CLOSE_SESSION then
      (if CloseTarget(m.data).Some? then Some([]) else None, CloseTarget(m.data))
    else (None, None)
  }

  function ServeChassis(machine: MachineState, m: Message): (Option<Bytes>, MachineState) {
    if m.command == CMD_GET_CHASSIS_STATUS then (ChassisStatus(machine), machine.Reacted(machine.status))
    else if m.command == CMD_CHASSIS_CONTROL && |m.data| >= 1 then
      var e := Control(machine, m.data[0]);
      (if e.verdict.Granted? then Some([]) else None, e.machine)
    else (None, machine)
  }

  function Serve(machine: MachineState, m: Message): Served {
    if NetFn(m) == NETFN_APP then
      var (data, close) := ServeApp(m);
      Served(Some(ReplyTo(m, NETFN_APP, data)), machine, close)
    else if NetFn(m) == NETFN_CHASSIS then
      var (data, machine') := ServeChassis(machine, m);
      Served(Some(ReplyTo(m, NETFN_CHASSIS, data)), machine', None)
    else Served(None, machine, None)
  }

  /** handleIPMIChassis. */
  method HandleChassis(machine: Machine, m: Message) returns (r: Option<Bytes>)
    modifies machine
    ensures (r, machine.state) == ServeChassis(old(machine.state), m)
  {
    if m.command == CMD_GET_CHASSIS_STATUS {
      var p := machine.GetPowerStatus();
      r := if p.None? then None else Some([if IsOn(p.value) then 1 else 0, 0, 0, 0]);
    } else if m.command == CMD_CHASSIS_CONTROL && |m.data| >= 1 {
      var ok := ChassisControl(machine, m.data[0]);
      r := if ok then Some([]) else None;
    } else {
      r := None;
    }
  }

  // ---------- what every reply is ----------

  /** The data a reply carries besides the completion code. */
  function ServedData(machine: MachineState, m: Message): Option<Bytes> {
    if NetFn(m) == NETFN_APP then ServeApp(m).0 else ServeChassis(machine, m).0
  }

  /** Every reply is 8 to 16 bytes. It is 16 exactly for a Get Channel Authentication Capabilities
      that is served, and at most 12 otherwise. */
  lemma ReplyLength(machine: MachineState, m: Message)
    requires Serve(machine, m).reply.Some?
    ensures var n := |Serve(machine, m).reply.value|;
            && 8 <= n <= 16
            && (n > 12 <==> n == 16)
            && (n == 16 <==> NetFn(m) == NETFN_APP
                             && m.command == CMD_GET_CHANNEL_AUTH_CAPABILITIES && |m.data| >= 2)
  {
    ReplyParts(machine, m);
  }

  /** The reply is the printed form of a response with checksums. */
  lemma ReplyParts(machine: MachineState, m: Message)
    requires Serve(machine, m).reply.Some?
    ensures var data := ServedData(machine, m);
            var code := if data.Some? then CODE_OK else CODE_COULD_NOT_EXECUTE;
            var t := Template(m, NetFn(m) + 1, code).(data := if data.Some? then data.value else []);
            && Serve(machine, m).reply.value == Print(Summed(t))
            && IsResponse(t.targetLun)
            && |Print(Summed(t))| == 8 + |t.data|
  {
    var data := ServedData(machine, m);
    var code := if data.Some? then CODE_OK else CODE_COULD_NOT_EXECUTE;
    var t := Template(m, NetFn(m) + 1, code).(data := if data.Some? then data.value else []);
    assert t.targetLun / 4 == NetFn(m) + 1;
    ChecksumsAddUp(t);
  }

  /** For every request and every machine, both checksums of the reply add up. */
  lemma ReplyChecksums(machine: MachineState, m: Message)
    requires Serve(machine, m).reply.Some?
    ensures Sum(Serve(machine, m).reply.value[..3]) % 0x100 == 0
    ensures Sum(Serve(machine, m).reply.value[3..]) % 0x100 == 0
  {
    ReplyParts(machine, m);
    var data := ServedData(machine, m);
    var code := if data.Some? then CODE_OK else CODE_COULD_NOT_EXECUTE;
    ChecksumsAddUp(Template(m, NetFn(m) + 1, code).(data := if data.Some? then data.value else []));
  }

  /** What a requester finds in a parsed reply. */
  predicate Answers(reply: Message, request: Message, served: Option<Bytes>) {
    && reply.target == request.source && reply.source == request.target
    && NetFn(reply) == NetFn(request) + 1
    && reply.targetLun % 4 == request.sourceLun % 4
    && reply.sourceLun % 4 == request.targetLun % 4
    && reply.sourceLun / 4 == request.sourceLun / 4
    && reply.command == request.command
    && reply.data == (if served.Some? then [CODE_OK] + served.value else [CODE_COULD_NOT_EXECUTE])
  }

  lemma BitFields(low: nat, high: nat)
    requires low < 4
    ensures (low + 4 * high) % 4 == low && (low + 4 * high) / 4 == high
    ensures (high * 4 + low) % 4 == low && (high * 4 + low) / 4 == high
  {
  }

  /** Parsing any reply gives back the swapped addresses and LUNs, the sequence number, the command,
      the network function with the response bit, and the completion code before the data. */
  lemma ReplyRoundTrip(machine: MachineState, m: Message, tail: Bytes)
    requires Serve(machine, m).reply.Some?
    ensures var r := Serve(machine, m).reply.value;
            && Parse(r + tail, |r|).Some?
            && Answers(Parse(r + tail, |r|).value, m, ServedData(machine, m))
  {
    ReplyParts(machine, m);
    var data := ServedData(machine, m);
    var code := if data.Some? then CODE_OK else CODE_COULD_NOT_EXECUTE;
    var t := Template(m, NetFn(m) + 1, code).(data := if data.Some? then data.value else []);
    hide Serve, ServedData, Print, Parse, Sum, Checksum;
    ParseOfPrint(Summed(t), tail);
    BitFields(m.sourceLun % 4, NetFn(m) + 1);
    BitFields(m.targetLun % 4, m.sourceLun / 4);
  }

  /** The data a requester reads in the parsed reply of each served command: the granted privilege level;
      the capabilities of channel 1 (IPMI v2.0, MD5, MD2 and no authentication; null and named users;
      v2.0 connections); the power bit; or the bare completion code. */
  lemma CommandAnswers(machine: MachineState, m: Message)
    requires Serve(machine, m).reply.Some?
    ensures var r := Serve(machine, m).reply.value;
            && Parse(r, |r|).Some?
            && var data := Parse(r, |r|).value.data;
               if NetFn(m) == NETFN_APP then
                 && (m.command == CMD_SET_SESSION_PRIVILEGE && |m.data| >= 1 ==> data == [CODE_OK, m.data[0]])
                 && (m.command == CMD_GET_CHANNEL_AUTH_CAPABILITIES && |m.data| >= 2 ==>
                       data == [CODE_OK, 1, 0x80 + 0x04 + 0x02 + 0x01, 0x04 + 0x02, 0x02, 0, 0, 0, 0])
                 && (m.command == CMD_CLOSE_SESSION && |m.data| >= 4 ==> data == [CODE_OK])
               else
                 && (m.command == CMD_GET_CHASSIS_STATUS && machine.Obeys() ==>
                       data == [CODE_OK, if IsOn(machine.status) then 1 else 0, 0, 0, 0])
                 && (m.command == CMD_CHASSIS_CONTROL && |m.data| >= 1 ==>
                       data == [if Control(machine, m.data[0]).verdict.Granted? then CODE_OK
                                else CODE_COULD_NOT_EXECUTE])
  {
    hide Parse, ReplyTo, Control;
    ReplyRoundTrip(machine, m, []);
    var r := Serve(machine, m).reply.value;
    assert r + [] == r;
  }

  // ---------- what the commands mean together ----------

  /** On a machine that answers every call: after an accepted power command the chassis status reports
      power on, or off for a power-down; a rejected one leaves the status report as it was. */
  lemma ControlThenStatus(m: MachineState, op: byte)
    requires m.script == [] && WishOfControl(op).Some?
    ensures var e := Control(m, op);
            && ChassisStatus(e.machine).Some?
            && (e.verdict.Granted? ==>
                  ChassisStatus(e.machine).value[0] == (if WishOfControl(op).value.WishDown? then 0 else 1))
            && (!e.verdict.Granted? ==> ChassisStatus(e.machine) == ChassisStatus(m))
  {
    WishOutcome(m, WishOfControl(op).value);
    OrdersSpelledOut(m);
  }

  /** A Close Session request that carries an id, whatever follows it, names exactly that id. */
  lemma CloseNames(id: u32, rest: Bytes)
    ensures CloseTarget(LE32(id) + rest) == Some(id)
  {
  }
}
