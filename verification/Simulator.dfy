/** The software charger (cmd/cpconsole/main.go): it accumulates energy in one register and reports it
    rounded in MeterValues but truncated in StartTransaction and StopTransaction. */
module Simulator {
  import opened Wrappers

  /** int(meter): the register is never negative, so truncation is the floor. */
  function Truncated(meterWh: real): real { meterWh.Floor as real }

  /** The text "%.0f": to nearest, halves to even. */
  function Rounded(meterWh: real): real {
    var down := meterWh.Floor;
    var rest := meterWh - down as real;
    if rest < 0.5 || (rest == 0.5 && down % 2 == 0) then down as real else down as real + 1.0
  }

  datatype Charger = Charger(status: string, plugged: bool, idTag: string, transaction: int, meterWh: real,
      powerKW: real, unavailableAfterStop: bool)

  /** How the central system answers the calls of one StartTransaction attempt. */
  datatype StartNet = StartNet(authorized: bool, preparingOK: bool, started: Option<int>, chargingOK: bool)

  predicate ValidTag(idTag: string) { idTag != "" && |idTag| <= 20 }

  predicate MayStart(s: Charger, idTag: string) {
    ValidTag(idTag) && s.transaction == 0 && s.status != "Faulted" && s.status != "Unavailable"
  }

  /** Whether the StartTransaction call is made at all. */
  predicate AsksStart(s: Charger, idTag: string, remote: bool, net: StartNet) {
    MayStart(s, idTag) && (remote || net.authorized) && (s.status == "Available" ==> net.preparingOK)
  }

  function AfterStartAttempt(s: Charger, idTag: string, remote: bool, net: StartNet): Charger {
    if !MayStart(s, idTag) || (!remote && !net.authorized) then s
    else
      var plugged := if s.status == "Available" then s.(plugged := true, status := if net.preparingOK then "Preparing"
          else s.status) else s;
      if !AsksStart(s, idTag, remote, net) || net.started.None? || net.started.value <= 0 then plugged
      else plugged.(transaction := net.started.value, idTag := idTag, status := if net.chargingOK then "Charging"
          else plugged.status)
  }

  function AfterTick(s: Charger, hours: real, powerKW: real): Charger {
    if s.transaction == 0 || hours < 0.0 || powerKW < 0.0 then s
    else s.(meterWh := s.meterWh + powerKW * 1000.0 * hours, powerKW := powerKW)
  }

  function AfterStopAttempt(s: Charger, answered: bool, statusOK: bool): Charger {
    if s.transaction == 0 || !answered then s
    else s.(transaction := 0, idTag := "", powerKW := 0.0,
            status := if !statusOK then s.status else if s.unavailableAfterStop then "Unavailable" else "Finishing")
  }

  /** The simulator object; the methods return the reading they send, if they get to send one. */
  class Simulator {
    var status: string
    var plugged: bool
    var idTag: string
    var transaction: int
    var meterWh: real
    var powerKW: real
    var unavailableAfterStop: bool

    function View(): Charger
      reads this
    {
      Charger(status, plugged, idTag, transaction, meterWh, powerKW, unavailableAfterStop)
    }

    constructor (meterStartWh: real)
      ensures View() == Charger("Unavailable", false, "", 0, meterStartWh, 0.0, false)
    {
      status, plugged, idTag, transaction := "Unavailable", false, "", 0;
      meterWh, powerKW, unavailableAfterStop := meterStartWh, 0.0, false;
    }

    method StartTransaction(tag: string, remote: bool, net: StartNet) returns (sent: Option<real>, ok: bool)
      modifies this
      ensures View() == AfterStartAttempt(old(View()), tag, remote, net)
      ensures sent == if AsksStart(old(View()), tag, remote, net) then Some(Truncated(old(meterWh))) else None
      ensures ok ==> net.started.Some? && transaction == net.started.value > 0 && status == "Charging"
    {
      sent, ok := None, false;
      if tag == "" || |tag| > 20 {
        return;
      }
      if transaction != 0 {
        return;
      }
      if status == "Faulted" || status == "Unavailable" {
        return;
      }
      if !remote && !net.authorized {
        return;
      }
      if status == "Available" {
        plugged := true;
        if !net.preparingOK {
          return;
        }
        status := "Preparing";
      }
      sent := Some(Truncated(meterWh));
      if net.started.None? || net.started.value <= 0 {
        return;
      }
      transaction, idTag := net.started.value, tag;
      if !net.chargingOK {
        return;
      }
      status := "Charging";
      ok := true;
    }

    method SendMeter(hours: real, power: real) returns (sent: Option<real>)
      modifies this
      ensures View() == AfterTick(old(View()), hours, power)
      ensures sent == if old(transaction) != 0 && hours >= 0.0 && power >= 0.0 then Some(Rounded(meterWh)) else None
    {
      if transaction == 0 {
        return None;
      }
      if hours < 0.0 || power < 0.0 {
        return None;
      }
      var delta := power * 1000.0 * hours;
      meterWh := meterWh + delta;
      powerKW := power;
      sent := Some(Rounded(meterWh));
    }

    method StopTransaction(answered: bool, statusOK: bool) returns (sent: Option<real>)
      modifies this
      ensures View() == AfterStopAttempt(old(View()), answered, statusOK)
      ensures sent == if old(transaction) != 0 then Some(Truncated(meterWh)) else None
    {
      if transaction == 0 {
        return None;
      }
      sent := Some(Truncated(meterWh));
      if !answered {
        return;
      }
      transaction, idTag, powerKW := 0, "", 0.0;
      if !statusOK {
        return;
      }
      status := if unavailableAfterStop then "Unavailable" else "Finishing";
    }
  }
}
