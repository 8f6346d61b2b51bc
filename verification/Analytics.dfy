/** Charger analytics (internal/store/analytics_memory.go): per-charger totals over a time window, added up
    over chargers. Maps are ranged over in any order. Times are seconds. */
module Analytics {
  import opened Wrappers
  import opened Rows

  // ---------------------------------------------------------------- finite sums

  /** The sum of a map's values. */
  ghost function Total(w: map<int, real>): real {
    if w.Keys == {} then 0.0
    else
      SomeKey(w.Keys);
      var k: int :| k in w.Keys;
      w[k] + Total(w - {k})
  }

  lemma {:induction false} TotalRemove(w: map<int, real>, k: int)
    requires k in w
    ensures Total(w) == w[k] + Total(w - {k})
    decreases |w|
  {
    SomeKey(w.Keys);
    var p: int :| p in w.Keys && Total(w) == w[p] + Total(w - {p});
    if p != k {
      TotalRemove(w - {p}, k);
      TotalRemove(w - {k}, p);
      assert w - {p} - {k} == w - {k} - {p};
    }
  }

  lemma TotalAdd(w: map<int, real>, k: int, v: real)
    requires k !in w
    ensures Total(w[k := v]) == Total(w) + v
  {
    TotalRemove(w[k := v], k);
    assert w[k := v] - {k} == w;
  }

  lemma {:induction false} TotalUnion(a: map<int, real>, b: map<int, real>)
    requires forall x :: x in a ==> x !in b
    ensures Total(a + b) == Total(a) + Total(b)
    decreases |b|
  {
    if b.Keys == {} {
      assert a + b == a;
    } else {
      SomeKey(b.Keys);
      var k: int :| k in b.Keys;
      TotalUnion(a, b - {k});
      TotalRemove(b, k);
      TotalRemove(a + b, k);
      UnionLess(a, b, k);
    }
  }

  lemma UnionLess(a: map<int, real>, b: map<int, real>, k: int)
    requires k !in a
    ensures (a + b) - {k} == a + (b - {k})
  {}

  // ---------------------------------------------------------------- what is counted

  datatype Input = Input(chargerID: string, start: Option<int>, end: Option<int>)

  /** When a transaction ended, for the default window: its start if it is still open. */
  function EndOf(tx: Transaction): int { if tx.stopTime.Some? then tx.stopTime.value else tx.startTime }

  /** A transaction counts if it starts inside the window. A missing bound is filled in from the charger's
      own transactions: the earliest start excludes nobody, the latest end excludes a transaction only if
      every end, its own included, lies before its start. */
  ghost predicate Counts(rows: Rows, tx: Transaction, input: Input) {
    && (input.start.Some? ==> input.start.value <= tx.startTime)
    && (if input.end.Some? then tx.startTime <= input.end.value
        else exists id :: id in rows && rows[id].chargerID == tx.chargerID && tx.startTime <= EndOf(rows[id]))
  }

  ghost function CountedOf(rows: Rows, input: Input, chargers: set<string>): set<int> {
    set id | id in rows && rows[id].chargerID in chargers && Counts(rows, rows[id], input)
  }

  datatype Measure = Energy | Occupancy

  function Amount(m: Measure, tx: Transaction): real {
    match m
    case Energy => if tx.totalConsumption.Some? then tx.totalConsumption.value else 0.0
    case Occupancy => if tx.stopTime.Some? then (tx.stopTime.value - tx.startTime) as real else 0.0
  }

  function Amounts(rows: Rows, ids: set<int>, m: Measure): map<int, real> {
    map id | id in ids && id in rows :: Amount(m, rows[id])
  }

  function Hour(t: int): int { t / 3600 % 24 }

  function InHour(rows: Rows, ids: set<int>, h: int): set<int> {
    set id | id in ids && id in rows && Hour(rows[id].startTime) == h
  }

  function Sum(s: seq<int>): int { if s == [] then 0 else Sum(s[..|s| - 1]) + s[|s| - 1] }

  lemma {:induction false} SumUpdate(s: seq<int>, i: nat)
    requires i < |s|
    ensures Sum(s[i := s[i] + 1]) == Sum(s) + 1
  {
    var t := s[i := s[i] + 1];
    if i < |s| - 1 {
      SumUpdate(s[..|s| - 1], i);
      assert t[..|s| - 1] == s[..|s| - 1][i := s[i] + 1];
    } else {
      assert t[..|s| - 1] == s[..|s| - 1];
    }
  }

  // ---------------------------------------------------------------- one charger

  datatype Figures = Figures(count: int, kWh: real, occupiedSeconds: real, peak: seq<int>)

  /** The figures of a set of transactions: its size, its sums, and its starts per hour of the day. */
  ghost predicate FiguresOf(f: Figures, rows: Rows, ids: set<int>) {
    && f.count == |ids|
    && f.kWh == Total(Amounts(rows, ids, Energy))
    && f.occupiedSeconds == Total(Amounts(rows, ids, Occupancy))
    && |f.peak| == 24 && Sum(f.peak) == f.count
    && forall h :: 0 <= h < 24 ==> f.peak[h] == |InHour(rows, ids, h)|
  }

  /** The loop body: one more transaction is counted. */
  function Added(f: Figures, tx: Transaction): Figures
    requires |f.peak| == 24
  {
    var h := Hour(tx.startTime);
    Figures(f.count + 1, f.kWh + Amount(Energy, tx), f.occupiedSeconds + Amount(Occupancy, tx),
        f.peak[h := f.peak[h] + 1])
  }

  lemma AmountsAdd(rows: Rows, ids: set<int>, id: int, m: Measure)
    requires id in rows && id !in ids
    ensures Total(Amounts(rows, ids + {id}, m)) == Total(Amounts(rows, ids, m)) + Amount(m, rows[id])
  {
    TotalAdd(Amounts(rows, ids, m), id, Amount(m, rows[id]));
    assert Amounts(rows, ids + {id}, m) == Amounts(rows, ids, m)[id := Amount(m, rows[id])];
  }

  lemma HourAdd(rows: Rows, ids: set<int>, id: int, h: int)
    requires id in rows && id !in ids
    ensures |InHour(rows, ids + {id}, h)| == |InHour(rows, ids, h)| + if h == Hour(rows[id].startTime) then 1 else 0
  {
    assert InHour(rows, ids + {id}, h) == InHour(rows, ids, h) + if h == Hour(rows[id].startTime) then {id} else {};
  }

  lemma PeakAdd(f: Figures, rows: Rows, ids: set<int>, id: int)
    requires FiguresOf(f, rows, ids) && id in rows && id !in ids
    ensures var f' := Added(f, rows[id]);
            |f'.peak| == 24 && Sum(f'.peak) == f'.count && forall h :: 0 <= h < 24 ==>
                f'.peak[h] == |InHour(rows, ids + {id}, h)|
  {
    SumUpdate(f.peak, Hour(rows[id].startTime));
    var f' := Added(f, rows[id]);
    forall h | 0 <= h < 24 ensures f'.peak[h] == |InHour(rows, ids + {id}, h)| { HourAdd(rows, ids, id, h); }
  }

  lemma OneMore(f: Figures, rows: Rows, ids: set<int>, id: int)
    requires FiguresOf(f, rows, ids) && id in rows && id !in ids
    ensures FiguresOf(Added(f, rows[id]), rows, ids + {id})
  {
    PeakAdd(f, rows, ids, id);
    AmountsAdd(rows, ids, id, Energy);
    AmountsAdd(rows, ids, id, Occupancy);
  }

  lemma NoneYet(rows: Rows)
    ensures FiguresOf(Figures(0, 0.0, 0.0, seq(24, _ => 0)), rows, {})
  {
    assert forall m :: Amounts(rows, {}, m).Keys == {};
    ZeroSum(24);
    assert forall h :: InHour(rows, {}, h) == {};
  }

  lemma {:induction false} ZeroSum(n: nat)
    ensures Sum(seq(n, _ => 0)) == 0
  {
    if n > 0 {
      assert seq(n, _ => 0)[..n - 1] == seq(n - 1, _ => 0);
      ZeroSum(n - 1);
    }
  }

  /** The window the first loop settles on. */
  method Window(charger: string, input: Input, rows: Rows, now: int) returns (start: int, end: int)
    ensures forall id :: id in rows && rows[id].chargerID == charger ==>
              (start <= rows[id].startTime <= end <==> Counts(rows, rows[id], input))
  {
    var minTime, maxTime := None, None;
    if input.start.None? || input.end.None? {
      var todo := rows.Keys;
      ghost var latest: int := 0;
      while todo != {}
        invariant todo <= rows.Keys
        invariant forall id :: id in rows && id !in todo && rows[id].chargerID == charger ==>
                    minTime.Some? && maxTime.Some? && minTime.value <= rows[id].startTime
                        && EndOf(rows[id]) <= maxTime.value
        invariant maxTime.Some? ==>
                    latest in rows && rows[latest].chargerID == charger
                    && EndOf(rows[latest]) == maxTime.value
      {
        SomeKey(todo);
        var id: int :| id in todo;
        todo := todo - {id};
        var tx := rows[id];
        if tx.chargerID != charger {
          continue;
        }
        if minTime.None? || tx.startTime < minTime.value {
          minTime := Some(tx.startTime);
        }
        if maxTime.None? || EndOf(tx) > maxTime.value {
          maxTime := Some(EndOf(tx));
          latest := id;
        }
      }
      forall id | id in rows && rows[id].chargerID == charger && maxTime.Some? && rows[id].startTime <= maxTime.value
        ensures exists x :: x in rows && rows[x].chargerID == rows[id].chargerID
                  && rows[id].startTime <= EndOf(rows[x]) {
        assert latest in rows;
      }
    }
    start := if input.start.Some? then input.start.value else if minTime.Some? then minTime.value else now;
    end := if input.end.Some? then input.end.value else if maxTime.Some? then maxTime.value else now;
  }

  /** computeMemoryAnalytics: the figures are those of exactly the transactions that count. */
  method ComputeMemoryAnalytics(charger: string, input: Input, rows: Rows, now: int) returns (f: Figures)
    ensures FiguresOf(f, rows, CountedOf(rows, input, {charger}))
  {
    var start, end := Window(charger, input, rows, now);
    f := CountWithin(charger, start, end, rows, CountedOf(rows, input, {charger}));
  }

  lemma CountNext(f: Figures, rows: Rows, counted: set<int>, todo: set<int>, id: int)
    requires FiguresOf(f, rows, counted - todo) && id in todo && id in rows
    ensures FiguresOf(if id in counted then Added(f, rows[id]) else f, rows, counted - (todo - {id}))
  {
    if id in counted {
      OneMore(f, rows, counted - todo, id);
      assert counted - (todo - {id}) == counted - todo + {id};
    } else {
      assert counted - (todo - {id}) == counted - todo;
    }
  }

  method CountWithin(charger: string, start: int, end: int, rows: Rows, ghost counted: set<int>) returns (f: Figures)
    requires counted <= rows.Keys
    requires forall id :: id in rows ==> (id in counted <==>
               rows[id].chargerID == charger
               && start <= rows[id].startTime <= end)
    ensures FiguresOf(f, rows, counted)
  {
    f := Figures(0, 0.0, 0.0, seq(24, _ => 0));
    NoneYet(rows);
    var todo := rows.Keys;
    assert counted - todo == {};
    while todo != {}
      invariant todo <= rows.Keys
      invariant FiguresOf(f, rows, counted - todo)
    {
      SomeKey(todo);
      var id: int :| id in todo;
      CountNext(f, rows, counted, todo, id);
      if rows[id].chargerID == charger && !(rows[id].startTime < start) && !(rows[id].startTime > end) {
        f := Added(f, rows[id]);
      }
      todo := todo - {id};
    }
    assert counted - todo == counted;
  }

  // ---------------------------------------------------------------- all chargers

  predicate Everyone(chargerID: string) { chargerID == "" || chargerID == "all" || chargerID == "cumulative" }

  function ChargersOf(rows: Rows): set<string> { set id | id in rows :: rows[id].chargerID }

  /** Which chargers a request is about: everyone with a transaction, or the named one. */
  function Requested(rows: Rows, input: Input): set<string> {
    if Everyone(input.chargerID) then ChargersOf(rows) else {input.chargerID}
  }

  lemma OneMoreCharger(rows: Rows, input: Input, done: set<string>, c: string, m: Measure)
    requires c !in done
    ensures CountedOf(rows, input, done) !! CountedOf(rows, input, {c})
    ensures CountedOf(rows, input, done + {c}) == CountedOf(rows, input, done) + CountedOf(rows, input, {c})
    ensures Total(Amounts(rows, CountedOf(rows, input, done + {c}), m))
         == Total(Amounts(rows, CountedOf(rows, input, done), m)) + Total(Amounts(rows, CountedOf(rows, input, {c}), m))
  {
    var a, b := CountedOf(rows, input, done), CountedOf(rows, input, {c});
    TotalUnion(Amounts(rows, a, m), Amounts(rows, b, m));
    assert Amounts(rows, a + b, m) == Amounts(rows, a, m) + Amounts(rows, b, m);
  }

  datatype Totals = Totals(count: int, kWh: real, occupiedSeconds: real)

  /** The totals over a set of chargers. */
  ghost predicate TotalsOf(t: Totals, rows: Rows, input: Input, chargers: set<string>) {
    && t.count == |CountedOf(rows, input, chargers)|
    && t.kWh == Total(Amounts(rows, CountedOf(rows, input, chargers), Energy))
    && t.occupiedSeconds == Total(Amounts(rows, CountedOf(rows, input, chargers), Occupancy))
  }

  lemma TotalsNext(t: Totals, f: Figures, rows: Rows, input: Input, chargers: set<string>, todo: set<string>, c: string)
    requires TotalsOf(t, rows, input, chargers - todo) && c in todo && c in chargers
    requires FiguresOf(f, rows, CountedOf(rows, input, {c}))
    ensures TotalsOf(Totals(t.count + f.count, t.kWh + f.kWh, t.occupiedSeconds + f.occupiedSeconds), rows, input,
              chargers - (todo - {c}))
  {
    TotalsAdd(t, f, rows, input, chargers - todo, c);
    assert chargers - (todo - {c}) == chargers - todo + {c};
  }

  lemma TotalsAdd(t: Totals, f: Figures, rows: Rows, input: Input, done: set<string>, c: string)
    requires TotalsOf(t, rows, input, done) && c !in done && FiguresOf(f, rows, CountedOf(rows, input, {c}))
    ensures TotalsOf(Totals(t.count + f.count, t.kWh + f.kWh, t.occupiedSeconds + f.occupiedSeconds), rows, input,
              done + {c})
  {
    OneMoreCharger(rows, input, done, c, Energy);
    OneMoreCharger(rows, input, done, c, Occupancy);
  }

  lemma NoTotals(rows: Rows, input: Input)
    ensures TotalsOf(Totals(0, 0.0, 0.0), rows, input, {})
  {
    assert forall m :: Amounts(rows, CountedOf(rows, input, {}), m).Keys == {};
  }

  /** ChargerAnalytics: the totals are the count and the sums over all counted transactions of the
      requested chargers, in whatever order chargers and rows come; "cumulative" asks for the totals alone. */
  method ChargerAnalytics(input: Input, rows: Rows, now: int)
                          returns (totals: Totals, perCharger: Option<map<string, Figures>>)
    ensures TotalsOf(totals, rows, input, Requested(rows, input))
    ensures perCharger.None? <==> input.chargerID == "cumulative"
    ensures perCharger.Some? ==> perCharger.value.Keys == Requested(rows, input)
    ensures perCharger.Some? ==>
              forall c :: c in perCharger.value ==> FiguresOf(perCharger.value[c], rows, CountedOf(rows, input, {c}))
  {
    var each;
    totals, each := AddUp(Requested(rows, input), input, rows, now);
    perCharger := Some(each);
    if input.chargerID == "cumulative" {
      perCharger := None;
    }
  }

  method AddUp(chargers: set<string>, input: Input, rows: Rows, now: int)
               returns (totals: Totals, perCharger: map<string, Figures>)
    ensures TotalsOf(totals, rows, input, chargers)
    ensures perCharger.Keys == chargers
    ensures forall c :: c in perCharger ==> FiguresOf(perCharger[c], rows, CountedOf(rows, input, {c}))
  {
    var todo := chargers;
    totals, perCharger := Totals(0, 0.0, 0.0), map[];
    NoTotals(rows, input);
    while todo != {}
      invariant todo <= chargers && perCharger.Keys == chargers - todo
      invariant TotalsOf(totals, rows, input, chargers - todo)
      invariant forall c :: c in perCharger ==> FiguresOf(perCharger[c], rows, CountedOf(rows, input, {c}))
      decreases todo
    {
      SomeCharger(todo);
      var c: string :| c in todo;
      var f := ComputeMemoryAnalytics(c, input, rows, now);
      TotalsNext(totals, f, rows, input, chargers, todo, c);
      todo := todo - {c};
      perCharger := perCharger[c := f];
      totals := Totals(totals.count + f.count, totals.kWh + f.kWh, totals.occupiedSeconds + f.occupiedSeconds);
    }
    assert chargers - todo == chargers;
  }

  lemma SomeCharger(s: set<string>)
    requires s != {}
    ensures exists c :: c in s
  {
    if forall c :: c !in s { EmptyIf(s); }
  }

  /** Without a window, and with stop times not before start times, "all" counts every transaction once. */
  lemma EveryTransactionCountsOnce(t: Table, now: int, input: Input)
    requires TableInv(t, now) && Everyone(input.chargerID) && input.start.None? && input.end.None?
    ensures CountedOf(t.rows, input, Requested(t.rows, input)) == t.rows.Keys
  {
    forall id | id in t.rows ensures id in CountedOf(t.rows, input, Requested(t.rows, input)) {
      assert RowOK(id, t.rows[id], t.nextRowID, now);
      assert t.rows[id].startTime <= EndOf(t.rows[id]);
    }
  }
}
