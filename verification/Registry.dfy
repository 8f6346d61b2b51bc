/** The live registry (internal/state/registry.go): what the central system last heard of each connector. */
module Registry {
  import opened Wrappers
  import opened Meter

  datatype ConnectorState = ConnectorState(
    status: string, lastMeter: Option<real>, lastConsumptionKWh: real, errorCode: string, transactionID: Option<int>)

  datatype ChargerState = ChargerState(
    online: bool, hasError: bool, status: string, connectors: map<int, ConnectorState>)

  type Chargers = map<string, ChargerState>

  const BLANK := ConnectorState("", None, 0.0, "", None)

  function Ensured(r: Chargers, c: string): ChargerState {
    if c in r then r[c] else ChargerState(true, false, "Inactive", map[])
  }

  function ConnectorOf(r: Chargers, c: string, connector: int): ConnectorState {
    if c in r && connector in r[c].connectors then r[c].connectors[connector] else BLANK
  }

  function TransactionOn(r: Chargers, c: string, connector: int): Option<int> {
    ConnectorOf(r, c, connector).transactionID
  }

  function NoError(conn: ConnectorState): ConnectorState {
    if conn.errorCode == "" then conn.(errorCode := "NoError") else conn
  }

  function KnownStatus(conn: ConnectorState): ConnectorState {
    if conn.status == "" then conn.(status := "Unknown") else conn
  }

  /** The consumption booked between two successive readings of a connector. */
  function StepConsumption(conn: ConnectorState, meterWh: real): ConnectorState {
    if conn.lastMeter.Some? then conn.(lastConsumptionKWh := DeltaWh(conn.lastMeter.value, meterWh) / 1000.0) else conn
  }

  function Touched(r: Chargers, c: string): Chargers { r[c := Ensured(r, c).(online := true)] }

  function Offline(r: Chargers, c: string): Chargers {
    if c in r then r[c := r[c].(online := false)] else r
  }

  function WithConnector(r: Chargers, c: string, cp: ChargerState, connector: int, conn: ConnectorState): Chargers {
    r[c := cp.(online := true, connectors := cp.connectors[connector := conn])]
  }

  function AfterStatus(r: Chargers, c: string, connector: int, status: string, errorCode: string): Chargers {
    var conn := NoError(KnownStatus(ConnectorOf(r, c, connector)));
    var conn := if status != "" then conn.(status := status) else conn;
    var conn := if errorCode != "" then conn.(errorCode := errorCode) else conn;
    WithConnector(r, c, Ensured(r, c).(hasError := conn.errorCode != "NoError"), connector, conn)
  }

  function AfterStart(r: Chargers, c: string, connector: int, id: int, meterStart: real): Chargers {
    var conn := NoError(ConnectorOf(r, c, connector));
    WithConnector(r, c, Ensured(r, c).(status := "Active"), connector,
                  conn.(status := "Charging", lastMeter := Some(meterStart), transactionID := Some(id)))
  }

  function AfterMeter(r: Chargers, c: string, connector: int, id: Option<int>, meterWh: real): Chargers {
    var conn := StepConsumption(NoError(KnownStatus(ConnectorOf(r, c, connector))), meterWh);
    WithConnector(r, c, Ensured(r, c), connector,
                  conn.(lastMeter := Some(meterWh), transactionID := if id.Some? then id else conn.transactionID))
  }

  function AfterStop(r: Chargers, c: string, connector: int, meterStop: real): Chargers {
    var conn := StepConsumption(NoError(ConnectorOf(r, c, connector)), meterStop);
    WithConnector(r, c, Ensured(r, c).(status := "Inactive"), connector,
                  conn.(status := "Available", lastMeter := Some(meterStop), transactionID := None))
  }

  /** The Apply* methods replace the charger states in a map, under one lock. */
  class Registry {
    var chargers: Chargers

    constructor ()
      ensures chargers == map[]
    {
      chargers := map[];
    }

    method EnsureLocked(c: string) returns (cp: ChargerState)
      modifies this
      ensures cp == Ensured(old(chargers), c)
      ensures chargers == old(chargers)[c := cp]
    {
      if c !in chargers {
        chargers := chargers[c := ChargerState(true, false, "Inactive", map[])];
      }
      cp := chargers[c];
    }

    method Touch(c: string)
      modifies this
      ensures chargers == Touched(old(chargers), c)
    {
      var cp := EnsureLocked(c);
      chargers := chargers[c := cp.(online := true)];
    }

    method MarkOffline(c: string)
      modifies this
      ensures chargers == Offline(old(chargers), c)
    {
      if c in chargers {
        chargers := chargers[c := chargers[c].(online := false)];
      }
    }

    method ApplyStatusNotification(c: string, connector: int, status: string, errorCode: string)
      modifies this
      ensures chargers == AfterStatus(old(chargers), c, connector, status, errorCode)
    {
      var cp := EnsureLocked(c);
      cp := cp.(online := true);
      var conn := if connector in cp.connectors then cp.connectors[connector] else BLANK;
      if conn.status == "" {
        conn := conn.(status := "Unknown");
      }
      if conn.errorCode == "" {
        conn := conn.(errorCode := "NoError");
      }
      if status != "" {
        conn := conn.(status := status);
      }
      if errorCode != "" {
        conn := conn.(errorCode := errorCode);
      }
      cp := cp.(hasError := conn.errorCode != "" && conn.errorCode != "NoError");
      chargers := chargers[c := cp.(connectors := cp.connectors[connector := conn])];
    }

    method ApplyStartTransaction(c: string, connector: int, id: int, meterStart: real)
      modifies this
      ensures chargers == AfterStart(old(chargers), c, connector, id, meterStart)
    {
      var cp := EnsureLocked(c);
      cp := cp.(online := true, status := "Active");
      var conn := if connector in cp.connectors then cp.connectors[connector] else BLANK;
      if conn.errorCode == "" {
        conn := conn.(errorCode := "NoError");
      }
      conn := conn.(status := "Charging", lastMeter := Some(meterStart), transactionID := Some(id));
      chargers := chargers[c := cp.(connectors := cp.connectors[connector := conn])];
    }

    method ApplyMeterValue(c: string, connector: int, id: Option<int>, meterWh: real)
      modifies this
      ensures chargers == AfterMeter(old(chargers), c, connector, id, meterWh)
    {
      var cp := EnsureLocked(c);
      cp := cp.(online := true);
      var conn := if connector in cp.connectors then cp.connectors[connector] else BLANK;
      if conn.status == "" {
        conn := conn.(status := "Unknown");
      }
      if conn.errorCode == "" {
        conn := conn.(errorCode := "NoError");
      }
      if conn.lastMeter.Some? {
        conn := conn.(lastConsumptionKWh := DeltaWh(conn.lastMeter.value, meterWh) / 1000.0);
      }
      conn := conn.(lastMeter := Some(meterWh));
      if id.Some? {
        conn := conn.(transactionID := id);
      }
      chargers := chargers[c := cp.(connectors := cp.connectors[connector := conn])];
    }

    method ApplyStopTransaction(c: string, connector: int, meterStop: real)
      modifies this
      ensures chargers == AfterStop(old(chargers), c, connector, meterStop)
    {
      var cp := EnsureLocked(c);
      cp := cp.(online := true, status := "Inactive");
      var conn := if connector in cp.connectors then cp.connectors[connector] else BLANK;
      if conn.errorCode == "" {
        conn := conn.(errorCode := "NoError");
      }
      if conn.lastMeter.Some? {
        conn := conn.(lastConsumptionKWh := DeltaWh(conn.lastMeter.value, meterStop) / 1000.0);
      }
      conn := conn.(status := "Available", lastMeter := Some(meterStop), transactionID := None);
      chargers := chargers[c := cp.(connectors := cp.connectors[connector := conn])];
    }

    method TransactionIDForConnector(c: string, connector: int) returns (id: Option<int>)
      ensures id == TransactionOn(chargers, c, connector)
    {
      if c !in chargers {
        return None;
      }
      if connector !in chargers[c].connectors || chargers[c].connectors[connector].transactionID.None? {
        return None;
      }
      id := chargers[c].connectors[connector].transactionID;
    }
  }

  // ---------------------------------------------------------------- per-step consumption

  /** The consumptions the registry shows over a run of meter values of one connector, added up. */
  function ShownKWh(conn: ConnectorState, readings: seq<real>): real
    decreases |readings|
  {
    if readings == [] then 0.0
    else
      var step := StepConsumption(conn, readings[0]);
      (if conn.lastMeter.Some? then step.lastConsumptionKWh else 0.0)
      + ShownKWh(step.(lastMeter := Some(readings[0])), readings[1..])
  }

  lemma {:induction false} ShownIsSumOfSteps(conn: ConnectorState, readings: seq<real>)
    requires conn.lastMeter.Some?
    ensures ShownKWh(conn, readings) * 1000.0 == SumOfSteps([conn.lastMeter.value] + readings)
    decreases |readings|
  {
    if readings == [] {
    } else {
      var step := StepConsumption(conn, readings[0]).(lastMeter := Some(readings[0]));
      ShownIsSumOfSteps(step, readings[1..]);
      assert [readings[0]] + readings[1..] == readings;
      SumOfStepsFront(conn.lastMeter.value, readings);
    }
  }

  lemma {:induction false} SumOfStepsFront(first: real, readings: seq<real>)
    requires readings != []
    ensures SumOfSteps([first] + readings) == DeltaWh(first, readings[0]) + SumOfSteps(readings)
    decreases |readings|
  {
    var all := [first] + readings;
    assert all[..|all| - 1] == [first] + readings[..|readings| - 1];
    if |readings| > 1 {
      SumOfStepsFront(first, readings[..|readings| - 1]);
    } else {
      assert SumOfSteps([first]) == 0.0;
      assert all[..1] == [first];
    }
  }

  /** Over a session whose register readings come less than a turn apart, the registry's per-step
      consumptions add up to the energy that flowed, however often the register wrapped. */
  lemma RegistryTelescopes(conn: ConnectorState, energy: seq<real>)
    requires energy != [] && Plausible(energy) && conn.lastMeter == Some(Reading(energy[0]))
    ensures ShownKWh(conn, Readings(energy)[1..]) * 1000.0 == energy[|energy| - 1] - energy[0]
  {
    ShownIsSumOfSteps(conn, Readings(energy)[1..]);
    assert [Readings(energy)[0]] + Readings(energy)[1..] == Readings(energy);
    StepsTelescope(energy);
  }
}
