/** The machine behind the BMC and its two power front ends: IPMI chassis commands and Redfish
    Reset actions. */
module Power {
  import opened Options
  import opened Wire

  datatype PowerStatus = On | PoweringOn | Off | PoweringOff | Unknown

  /** How the machine reacts to the next call made on it: as asked, or with an error, in which case
      its power status may be anything afterwards. */
  datatype Reaction = Works | Fails(now: PowerStatus)

  datatype Order = TurnOn | TurnOff

  /** One PowerOn or PowerOff call, with the status the machine had when it was made. */
  datatype Call = Call(order: Order, when: PowerStatus)

  /** The machine as a value. `script` is how it will react to the coming calls; once it is used
      up every call works. */
  datatype MachineState = MachineState(status: PowerStatus, script: seq<Reaction>, calls: seq<Call>) {

    predicate Obeys() {
      script == [] || script[0].Works?
    }

    /** The state after one call that leaves `status` behind when it works. */
    function Reacted(status': PowerStatus): MachineState {
      MachineState(
        if Obeys() then status' else script[0].now,
        if script == [] then [] else script[1..],
        calls)
    }

    /** The state after an order: the order is recorded whether or not it works. */
    function Ordered(order: Order): MachineState {
      Reacted(if order.TurnOn? then On else Off).(calls := calls + [Call(order, status)])
    }
  }

  predicate IsOn(p: PowerStatus) {
    p == On || p == PoweringOn
  }

  predicate IsOff(p: PowerStatus) {
    p == Off || p == PoweringOff
  }

  class Machine {
    var state: MachineState

    constructor (s: MachineState)
      ensures state == s
    {
      state := s;
    }

    method GetPowerStatus() returns (r: Option<PowerStatus>)
      modifies this
      ensures state == old(state).Reacted(old(state).status)
      ensures r == if old(state).Obeys() then Some(old(state).status) else None
    {
      r := if state.Obeys() then Some(state.status) else None;
      state := state.Reacted(state.status);
    }

    method PowerOn() returns (ok: bool)
      modifies this
      ensures state == old(state).Ordered(TurnOn) && ok == old(state).Obeys()
    {
      ok := state.Obeys();
      state := state.Ordered(TurnOn);
    }

    method PowerOff() returns (ok: bool)
      modifies this
      ensures state == old(state).Ordered(TurnOff) && ok == old(state).Obeys()
    {
      ok := state.Obeys();
      state := state.Ordered(TurnOff);
    }
  }

  // ---------- what the front ends ask for, independently of how they are coded ----------

  /** A power change as a front end wants it: refused when the machine already is where it leads,
      otherwise carried out order by order until one fails. */
  datatype Wish = WishUp | WishDown | WishRestart

  datatype Verdict = Granted | Refused | Broken

  datatype Effect = Effect(machine: MachineState, verdict: Verdict)

  function Orders(w: Wish): seq<Order> {
    match w
    case WishUp => [TurnOn]
    case WishDown => [TurnOff]
    case WishRestart => [TurnOff, TurnOn]
  }

  predicate Pointless(w: Wish, p: PowerStatus) {
    if w.WishUp? then IsOn(p) else IsOff(p)
  }

  function CarryOut(m: MachineState, orders: seq<Order>): Effect
    decreases |orders|
  {
    if orders == [] then Effect(m, Granted)
    else if !m.Obeys() then Effect(m.Ordered(orders[0]), Broken)
    else CarryOut(m.Ordered(orders[0]), orders[1..])
  }

  function Fulfil(m: MachineState, w: Wish): Effect {
    var asked := m.Reacted(m.status);
    if !m.Obeys() then Effect(asked, Broken)
    else if Pointless(w, m.status) then Effect(asked, Refused)
    else CarryOut(asked, Orders(w))
  }

  /** The orders of every wish, unrolled from the state after the status query. */
  lemma OrdersSpelledOut(m: MachineState)
    ensures var a := m.Reacted(m.status);
            var off := a.Ordered(TurnOff);
            && CarryOut(a, Orders(WishUp)) == Effect(a.Ordered(TurnOn), if a.Obeys() then Granted else Broken)
            && CarryOut(a, Orders(WishDown)) == Effect(off, if a.Obeys() then Granted else Broken)
            && CarryOut(a, Orders(WishRestart)) ==
               if !a.Obeys() then Effect(off, Broken)
               else Effect(off.Ordered(TurnOn), if off.Obeys() then Granted else Broken)
  {
  }

  // ---------- IPMI chassis control ----------

  const CONTROL_DOWN: byte := 0
  const CONTROL_UP: byte := 1
  const CONTROL_CYCLE: byte := 2
  const CONTROL_HARD_RESET: byte := 3

  /** The wish behind a control byte; pulse, soft shutdown and all other values do nothing. */
  function WishOfControl(op: byte): Option<Wish> {
    if op == CONTROL_DOWN then Some(WishDown)
    else if op == CONTROL_UP then Some(WishUp)
    else if op == CONTROL_CYCLE || op == CONTROL_HARD_RESET then Some(WishRestart)
    else None
  }

  function Control(m: MachineState, op: byte): Effect {
    match WishOfControl(op)
    case None => Effect(m, Granted)
    case Some(w) => Fulfil(m, w)
  }

  /** handleIPMIChassisControl on the control byte: ok is the absence of an error. */
  method ChassisControl(machine: Machine, op: byte) returns (ok: bool)
    modifies machine
    ensures machine.state == Control(old(machine.state), op).machine
    ensures ok == Control(old(machine.state), op).verdict.Granted?
  {
    OrdersSpelledOut(machine.state);
    if op == CONTROL_DOWN {
      var p := machine.GetPowerStatus();
      if p.None? || IsOff(p.value) {
        return false;
      }
      ok := machine.PowerOff();
    } else if op == CONTROL_UP {
      var p := machine.GetPowerStatus();
      if p.None? || IsOn(p.value) {
        return false;
      }
      ok := machine.PowerOn();
    } else if op == CONTROL_CYCLE {
      var p := machine.GetPowerStatus();
      if p.None? || IsOff(p.value) {
        return false;
      }
      ok := machine.PowerOff();
      if ok {
        ok := machine.PowerOn();
      }
    } else if op == CONTROL_HARD_RESET {
      var p := machine.GetPowerStatus();
      if p.None? || IsOff(p.value) {
        return false;
      }
      ok := machine.PowerOff();
      if ok {
        ok := machine.PowerOn();
      }
    } else {
      ok := true;
    }
  }

  // ---------- Redfish Reset ----------

  datatype ResetType = ResetOn | ForceOff | ForceRestart | GracefulShutdown | PushPowerButton | Nmi | Unnamed

  /** A Reset request body: one that does not bind as JSON, or one naming a reset type. */
  datatype ResetRequest = Unbindable | Reset(kind: ResetType)

  datatype Http = NoContent204 | BadRequest400 | Conflict409 | InternalError500

  function HttpOf(v: Verdict): Http {
    match v
    case Granted => NoContent204
    case Refused => Conflict409
    case Broken => InternalError500
  }

  function WishOfReset(kind: ResetType): Option<Wish> {
    match kind
    case ResetOn => Some(WishUp)
    case ForceOff => Some(WishDown)
    case GracefulShutdown => Some(WishDown)
    case ForceRestart => Some(WishRestart)
    case _ => None
  }

  datatype HttpEffect = HttpEffect(machine: MachineState, status: Http)

  function SystemReset(m: MachineState, r: ResetRequest): HttpEffect {
    if r.Unbindable? then HttpEffect(m, BadRequest400)
    else
      match WishOfReset(r.kind)
      case None => HttpEffect(m, NoContent204)
      case Some(w) => var e := Fulfil(m, w); HttpEffect(e.machine, HttpOf(e.verdict))
  }

  function ChassisReset(m: MachineState, r: ResetRequest): HttpEffect {
    if r.Unbindable? || (r.kind != ResetOn && r.kind != ForceOff) then HttpEffect(m, BadRequest400)
    else SystemReset(m, r)
  }

  /** handleComputerSystemActionsReset. */
  method ComputerSystemReset(machine: Machine, r: ResetRequest) returns (status: Http)
    modifies machine
    ensures HttpEffect(machine.state, status) == SystemReset(old(machine.state), r)
  {
    OrdersSpelledOut(machine.state);
    if r.Unbindable? {
      return BadRequest400;
    }
    match r.kind {
      case ResetOn =>
        var p := machine.GetPowerStatus();
        if p.None? {
          return InternalError500;
        }
        if IsOn(p.value) {
          return Conflict409;
        }
        var ok := machine.PowerOn();
        if !ok {
          return InternalError500;
        }
      case ForceOff =>
        var p := machine.GetPowerStatus();
        if p.None? {
          return InternalError500;
        }
        if IsOff(p.value) {
          return Conflict409;
        }
        var ok := machine.PowerOff();
        if !ok {
          return InternalError500;
        }
      case GracefulShutdown =>
        var p := machine.GetPowerStatus();
        if p.None? {
          return InternalError500;
        }
        if IsOff(p.value) {
          return Conflict409;
        }
        var ok := machine.PowerOff();
        if !ok {
          return InternalError500;
        }
      case ForceRestart =>
        var p := machine.GetPowerStatus();
        if p.None? {
          return InternalError500;
        }
        if IsOff(p.value) {
          return Conflict409;
        }
        var ok := machine.PowerOff();
        if !ok {
          return InternalError500;
        }
        ok := machine.PowerOn();
        if !ok {
          return InternalError500;
        }
      case _ =>
    }
    return NoContent204;
  }

  /** handleChassisActionsReset. */
  method ChassisActionsReset(machine: Machine, r: ResetRequest) returns (status: Http)
    modifies machine
    ensures HttpEffect(machine.state, status) == ChassisReset(old(machine.state), r)
  {
    OrdersSpelledOut(machine.state);
    if r.Unbindable? || (r.kind != ResetOn && r.kind != ForceOff) {
      return BadRequest400;
    }
    var p := machine.GetPowerStatus();
    if p.None? {
      return InternalError500;
    }
    if r.kind == ResetOn {
      if IsOn(p.value) {
        return Conflict409;
      }
      var ok := machine.PowerOn();
      if !ok {
        return InternalError500;
      }
    } else {
      if IsOff(p.value) {
        return Conflict409;
      }
      var ok := machine.PowerOff();
      if !ok {
        return InternalError500;
      }
    }
    return NoContent204;
  }

  // ---------- the commands by their codes ----------

  /** Chassis control by its control byte, on every machine: 0 powers down, 1 powers up, 2 and 3 power down
      and then up, and any other byte is accepted and does nothing. The four first query the status; they
      are refused when it cannot be had, or when the machine is already there, and then give no order. */
  lemma ControlBytes(m: MachineState, op: byte)
    ensures var e := Control(m, op);
            var asked := m.Reacted(m.status);
            var off := asked.Ordered(TurnOff);
            if op > 3 then e == Effect(m, Granted)
            else if !m.Obeys() then e == Effect(asked, Broken)
            else if op == 1 then
              if m.status == On || m.status == PoweringOn then e == Effect(asked, Refused)
              else e == Effect(asked.Ordered(TurnOn), if asked.Obeys() then Granted else Broken)
            else if m.status == Off || m.status == PoweringOff then e == Effect(asked, Refused)
            else if op == 0 || !asked.Obeys() then e == Effect(off, if asked.Obeys() then Granted else Broken)
            else e == Effect(off.Ordered(TurnOn), if off.Obeys() then Granted else Broken)
  {
    OrdersSpelledOut(m);
  }

  /** The same on a machine that answers every call, with the orders it received and where it ends. */
  lemma ControlOutcomes(m: MachineState, op: byte)
    requires m.script == []
    ensures var after := Control(m, op).machine;
            var ok := Control(m, op).verdict.Granted?;
            var down := Call(TurnOff, m.status);
            var isOn := m.status == On || m.status == PoweringOn;
            var isOff := m.status == Off || m.status == PoweringOff;
            && after.script == []
            && (op == 0 && !isOff ==> ok && after.status == Off && after.calls == m.calls + [down])
            && (op == 1 && !isOn ==> ok && after.status == On && after.calls == m.calls + [Call(TurnOn, m.status)])
            && ((op == 2 || op == 3) && !isOff ==>
                  ok && after.status == On && after.calls == m.calls + [down, Call(TurnOn, Off)])
            && (op <= 3 && (if op == 1 then isOn else isOff) ==> !ok && after == m)
            && (op > 3 ==> ok && after == m)
  {
    OrdersSpelledOut(m);
    assert m.calls + [Call(TurnOff, m.status)] + [Call(TurnOn, Off)] ==
           m.calls + [Call(TurnOff, m.status), Call(TurnOn, Off)];
  }

  /** The reset type behind the string of a request body. */
  function ResetNamed(s: string): ResetType {
    if s == "On" then ResetOn
    else if s == "ForceOff" then ForceOff
    else if s == "ForceRestart" then ForceRestart
    else if s == "GracefulShutdown" then GracefulShutdown
    else if s == "PushPowerButton" then PushPowerButton
    else if s == "Nmi" then Nmi
    else Unnamed
  }

  /** The system Reset action by the string in its body, against chassis control by its byte: the same
      effect on the machine, and 204, 409 or 500 for granted, refused and broken. A string without a
      control byte, whatever it is, is answered 204 and does nothing. */
  lemma ResetStrings(m: MachineState, s: string)
    ensures var r := SystemReset(m, Reset(ResetNamed(s)));
            var op := if s == "ForceOff" || s == "GracefulShutdown" then 0 else if s == "On" then 1
                      else if s == "ForceRestart" then 2 else 4;
            var e := Control(m, op);
            && r.machine == e.machine
            && (r.status == NoContent204 <==> e.verdict == Granted)
            && (r.status == Conflict409 <==> e.verdict == Refused)
            && (r.status == InternalError500 <==> e.verdict == Broken)
            && ChassisReset(m, Reset(ResetNamed(s))) ==
               if s == "On" || s == "ForceOff" then r else HttpEffect(m, BadRequest400)
    ensures SystemReset(m, Unbindable) == ChassisReset(m, Unbindable) == HttpEffect(m, BadRequest400)
  {
    ControlBytes(m, 4);
    hide Fulfil;
  }

  // ---------- what holds across the front ends ----------

  /** Corresponding commands, whichever front end they come through, leave the machine in the same
      state with the same calls made on it, and are accepted or rejected alike. */
  lemma FrontEndsAgree(m: MachineState, op: byte, kind: ResetType)
    requires WishOfControl(op) == WishOfReset(kind)
    ensures var i := Control(m, op);
            var s := SystemReset(m, Reset(kind));
            var c := ChassisReset(m, Reset(kind));
            && i.machine == s.machine
            && (i.verdict.Granted? <==> s.status == NoContent204)
            && (kind == ResetOn || kind == ForceOff ==> c == s)
            && (kind != ResetOn && kind != ForceOff ==> c == HttpEffect(m, BadRequest400))
  {
  }

  /** On a machine that answers every call, a wish is granted exactly when it is not pointless. Then
      the machine ends up on, or off for a power-down, having received exactly the orders of the wish;
      otherwise nothing changed. */
  lemma WishOutcome(m: MachineState, w: Wish)
    requires m.script == []
    ensures var e := Fulfil(m, w);
            && (e.verdict.Granted? <==> !Pointless(w, m.status))
            && (e.verdict.Granted? ==>
                  && e.machine.status == (if w.WishDown? then Off else On)
                  && |e.machine.calls| == |m.calls| + |Orders(w)|
                  && forall i :: 0 <= i < |Orders(w)| ==> e.machine.calls[|m.calls| + i].order == Orders(w)[i])
            && (!e.verdict.Granted? ==> e == Effect(m, Refused))
  {
    OrdersSpelledOut(m);
  }

  /** A request on either front end, or the machine changing state by itself. */
  datatype Request =
    | Chassis(op: byte)
    | System(reset: ResetRequest)
    | RedfishChassis(reset: ResetRequest)
    | Drift(status: PowerStatus)

  function Served(m: MachineState, r: Request): MachineState {
    match r
    case Chassis(op) => Control(m, op).machine
    case System(reset) => SystemReset(m, reset).machine
    case RedfishChassis(reset) => ChassisReset(m, reset).machine
    case Drift(status) => m.(status := status)
  }

  function ServedAll(m: MachineState, rs: seq<Request>): MachineState
    decreases |rs|
  {
    if rs == [] then m else ServedAll(Served(m, rs[0]), rs[1..])
  }

  /** No order was redundant when it was given: PowerOn never reached a machine that was on or
      powering on, PowerOff never one that was off or powering off. */
  predicate NoRedundantCall(calls: seq<Call>) {
    forall k :: 0 <= k < |calls| ==>
      !(if calls[k].order.TurnOn? then IsOn(calls[k].when) else IsOff(calls[k].when))
  }

  /** Orders are never redundant when the first is not and each later one follows an opposite one. */
  lemma {:induction false} CarryOutIsNeeded(m: MachineState, orders: seq<Order>)
    requires NoRedundantCall(m.calls)
    requires orders != [] ==> NoRedundantCall([Call(orders[0], m.status)])
    requires forall i :: 0 < i < |orders| ==> orders[i] != orders[i - 1]
    ensures NoRedundantCall(CarryOut(m, orders).machine.calls)
    ensures m.calls <= CarryOut(m, orders).machine.calls
    decreases |orders|
  {
    if orders != [] {
      var m' := m.Ordered(orders[0]);
      assert NoRedundantCall([Call(orders[0], m.status)]) ==> [Call(orders[0], m.status)][0].order == orders[0];
      assert NoRedundantCall(m'.calls);
      if m.Obeys() {
        CarryOutIsNeeded(m', orders[1..]);
      }
    }
  }

  lemma ServedIsNeeded(m: MachineState, r: Request)
    requires NoRedundantCall(m.calls)
    ensures NoRedundantCall(Served(m, r).calls)
    ensures m.calls <= Served(m, r).calls
  {
    forall w: Wish
      ensures NoRedundantCall(Fulfil(m, w).machine.calls) && m.calls <= Fulfil(m, w).machine.calls
    {
      if m.Obeys() && !Pointless(w, m.status) {
        CarryOutIsNeeded(m.Reacted(m.status), Orders(w));
      }
    }
  }

  /** Over any serialised mix of requests on both front ends, with the machine failing calls and
      changing state by itself at will, no redundant power order is ever given. */
  lemma {:induction false} NoRedundantOrders(m: MachineState, rs: seq<Request>)
    requires NoRedundantCall(m.calls)
    ensures NoRedundantCall(ServedAll(m, rs).calls)
    ensures m.calls <= ServedAll(m, rs).calls
    decreases |rs|
  {
    if rs != [] {
      ServedIsNeeded(m, rs[0]);
      NoRedundantOrders(Served(m, rs[0]), rs[1..]);
    }
  }
}
