/** Concurrent closes of one Postgres row (internal/store/postgres.go): StopTransaction and
    ForceCloseTransaction read the row, then update it only if stop_time is still NULL; UpdateLiveMeter reads
    and then updates unconditionally. Each SQL statement is one step. */
module PostgresStops {
  import opened Wrappers
  import opened Rows

  datatype Kind = StopCall | ForceCall | LiveCall

  datatype Phase =
    | Begin
    | HaveRead(tx: Transaction)
    | Lost                         // the conditional update hit no row; re-read
    | Done(result: Transaction)

  datatype Caller = Caller(kind: Kind, meterWh: real, phase: Phase)

  /** Ghost: whose update closed the row, and with what. */
  datatype Win = Win(caller: nat, meterWh: real, stopTime: int)

  datatype State = State(row: Transaction, callers: map<nat, Caller>, winner: Option<Win>)

  /** `clock`: the caller's own clock, read before its update. */
  datatype Event = Enter(id: nat, kind: Kind, meterWh: real) | Proceed(id: nat, clock: int)

  /** The stop fields a caller computes from the version it read. */
  function Filled(base: Transaction, tx: Transaction, meterWh: real): Transaction {
    base.(meterStop := Some(meterWh), totalConsumption := Some(Consumption(tx, meterWh)))
  }

  function WithCaller(s: State, id: nat, phase: Phase): State
    requires id in s.callers
  {
    s.(callers := s.callers[id := s.callers[id].(phase := phase)])
  }

  function Next(s: State, e: Event): State {
    match e
    case Enter(id, kind, m) => if id in s.callers then s else s.(callers := s.callers[id := Caller(kind, m, Begin)])
    case Proceed(id, clock) =>
      if id !in s.callers then s
      else
        var me := s.callers[id];
        match me.phase
        case Begin =>
          if me.kind.StopCall? && !s.row.Open() then WithCaller(s, id, Done(s.row))
              else WithCaller(s, id, HaveRead(s.row))
        case HaveRead(tx) =>
          var own := Filled(tx, tx, me.meterWh);
          if me.kind.LiveCall? then WithCaller(s, id, Done(own)).(row := Filled(s.row, tx, me.meterWh))
          else
            var mine := own.(stopTime := Some(clock));
            if s.row.Open() then
              WithCaller(s, id, Done(mine)).(row := Filled(s.row, tx, me.meterWh).(stopTime := Some(clock)),
                                             winner := Some(Win(id, me.meterWh, clock)))
            else WithCaller(s, id, if me.kind.StopCall? then Lost else Done(mine))
        case Lost => WithCaller(s, id, Done(s.row))
        case Done(_) => s
  }

  /** A live-meter update that reaches the row after it was closed. */
  predicate LateLive(s: State, e: Event) {
    e.Proceed? && e.id in s.callers && s.callers[e.id].kind.LiveCall? && s.callers[e.id].phase.HaveRead?
        && !s.row.Open()
  }

  predicate SameStop(a: Transaction, b: Transaction) {
    a.stopTime == b.stopTime && a.meterStop == b.meterStop && a.totalConsumption == b.totalConsumption
  }

  // ---------------------------------------------------------------- one winner

  ghost predicate CallersOK(s: State) {
    forall id :: id in s.callers ==>
      var me := s.callers[id];
      && (me.phase.HaveRead? ==> SameIdentity(me.phase.tx, s.row))
      && (me.phase.Lost? ==> !s.row.Open())
      && (me.phase.Done? && me.kind.StopCall? ==> me.phase.result.stopTime == s.row.stopTime && !s.row.Open())
  }

  /** The row is closed exactly when some caller won, and carries that caller's stop time. */
  ghost predicate OneWinner(s: State) {
    && CallersOK(s)
    && (s.winner.None? <==> s.row.Open())
    && (s.winner.Some? ==> s.row.stopTime == Some(s.winner.value.stopTime))
  }

  lemma StepKeepsCallers(s: State, e: Event)
    requires OneWinner(s)
    ensures CallersOK(Next(s, e))
  {}

  lemma StepKeepsWinner(s: State, e: Event)
    requires OneWinner(s)
    ensures OneWinner(Next(s, e))
    ensures s.winner.Some? ==> Next(s, e).winner == s.winner
    ensures SameIdentity(s.row, Next(s, e).row)
  {
    StepKeepsCallers(s, e);
  }

  // ---------------------------------------------------------------- what the callers return

  /** The row still shows what the winner wrote, and every finished StopTransaction returned just that. */
  ghost predicate WinningStop(s: State) {
    && (s.winner.Some? ==> s.row.meterStop == Some(s.winner.value.meterWh)
                           && s.row.totalConsumption == Some(Consumption(s.row, s.winner.value.meterWh)))
    && (forall id :: id in s.callers && s.callers[id].kind.StopCall? && s.callers[id].phase.Done? ==>
          SameStop(s.callers[id].phase.result, s.row))
  }

  lemma StepKeepsWinningStop(s: State, e: Event)
    requires OneWinner(s) && WinningStop(s) && !LateLive(s, e)
    ensures WinningStop(Next(s, e))
  {
    StepKeepsWinner(s, e);
  }

  function Run(s: State, es: seq<Event>): State {
    if es == [] then s else Next(Run(s, es[..|es| - 1]), es[|es| - 1])
  }

  predicate NoLateLive(s: State, es: seq<Event>) {
    forall i :: 0 <= i < |es| ==> !LateLive(Run(s, es[..i]), es[i])
  }

  function Opened(row: Transaction): State { State(row, map[], None) }

  /** Over every interleaving of any number of stops, forced closes and meter updates, exactly one call
      closes the row, its stop time stays, and every finished StopTransaction returned that stop time. */
  lemma {:induction false} ExactlyOneCloses(row: Transaction, es: seq<Event>)
    requires row.Open()
    ensures var s := Run(Opened(row), es);
            && OneWinner(s) && SameIdentity(row, s.row)
            && (forall i :: 0 <= i <= |es| && Run(Opened(row), es[..i]).winner.Some? ==>
                  s.winner == Run(Opened(row), es[..i]).winner)
  {
    if es != [] {
      var init := es[..|es| - 1];
      ExactlyOneCloses(row, init);
      StepKeepsWinner(Run(Opened(row), init), es[|es| - 1]);
      forall i | 0 <= i <= |es| && Run(Opened(row), es[..i]).winner.Some?
        ensures Run(Opened(row), es).winner == Run(Opened(row), es[..i]).winner
      {
        if i < |es| { assert es[..i] == init[..i]; } else { assert es[..i] == es; }
      }
    }
  }

  /** ... and if no meter update comes late, also the winning meter reading and consumption. */
  lemma {:induction false} StopsReturnTheWinner(row: Transaction, es: seq<Event>)
    requires row.Open() && NoLateLive(Opened(row), es)
    ensures WinningStop(Run(Opened(row), es))
  {
    if es != [] {
      var n := |es| - 1;
      var init := es[..n];
      assert forall i :: 0 <= i < n ==> init[..i] == es[..i];
      StopsReturnTheWinner(row, init);
      ExactlyOneCloses(row, init);
      assert !LateLive(Run(Opened(row), es[..n]), es[n]);
      StepKeepsWinningStop(Run(Opened(row), init), es[n]);
    }
  }

  /** A late meter update changes what the row shows, unless it repeats the reading. */
  lemma LateLiveBreaksIff(s: State, e: Event)
    requires OneWinner(s) && WinningStop(s) && LateLive(s, e)
    ensures Next(s, e).row.stopTime == s.row.stopTime
    ensures Next(s, e).row.meterStop == s.row.meterStop <==> s.callers[e.id].meterWh == s.winner.value.meterWh
  {}

  /** What a forced close answers is what the row holds exactly when its update found the row open, or it
      happened to bring the same values. */
  lemma ForceCloseAnswersTheRowIff(s: State, id: nat, clock: int)
    requires OneWinner(s) && WinningStop(s)
    requires id in s.callers && s.callers[id].kind.ForceCall? && s.callers[id].phase.HaveRead?
    ensures var s' := Next(s, Proceed(id, clock));
            && id in s'.callers && s'.callers[id].phase.Done?
            && (SameStop(s'.callers[id].phase.result, s'.row) <==>
                    s.row.Open() || (s.winner.value.stopTime == clock
                    && s.winner.value.meterWh == s.callers[id].meterWh))
  {
    var tx := s.callers[id].phase.tx;
    assert SameIdentity(tx, s.row);
  }

  /** ForceCloseTransaction does not check whether its update hit the row: a beaten call returns its own
      stop time, not the row's. */
  lemma ForceCloseReturnsItsOwnValues(row: Transaction)
    requires row.Open()
    ensures var begun := Next(Next(Opened(row), Enter(1, StopCall, 10.0)), Enter(2, ForceCall, 20.0));
            var read := Next(Next(begun, Proceed(1, 0)), Proceed(2, 0));
            var s := Next(Next(read, Proceed(1, 5)), Proceed(2, 9));
            && s.row.stopTime == Some(5) && s.row.meterStop == Some(10.0)
            && 2 in s.callers && s.callers[2].phase.Done?
            && s.callers[2].phase.result.stopTime == Some(9)
            && s.callers[2].phase.result.meterStop == Some(20.0)
  {}
}
