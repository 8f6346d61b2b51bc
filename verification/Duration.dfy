/** FormatDuration (internal/store/analytics_memory.go): seconds as "y years, d days, h hours, ..." with zero
    parts left out, and a decoder that undoes it. */
module Duration {
  import opened Decimal

  datatype Unit = Years | Days | Hours | Minutes | Seconds

  function InSeconds(n: int, u: Unit): int {
    match u
    case Years => n * 31536000
    case Days => n * 86400
    case Hours => n * 3600
    case Minutes => n * 60
    case Seconds => n
  }

  function Name(u: Unit): string {
    match u
    case Years => "years"
    case Days => "days"
    case Hours => "hours"
    case Minutes => "minutes"
    case Seconds => "seconds"
  }

  datatype Part = Part(value: int, unit: Unit)

  /** math.Round: to nearest, halves away from zero. */
  function Round(x: real): int {
    if x >= 0.0 then (x + 0.5).Floor else -((-x + 0.5).Floor)
  }

  function Clamped(x: real): nat {
    if Round(x) < 0 then 0 else Round(x)
  }

  /** The mixed-radix digits of a number of seconds. */
  function Breakdown(seconds: nat): seq<Part> {
    [ Part(seconds / 31536000, Years),
      Part(seconds % 31536000 / 86400, Days),
      Part(seconds % 31536000 % 86400 / 3600, Hours),
      Part(seconds % 31536000 % 86400 % 3600 / 60, Minutes),
      Part(seconds % 31536000 % 86400 % 3600 % 60, Seconds) ]
  }

  function Item(p: Part): string
    requires p.value >= 0
  {
    Itoa(p.value) + " " + Name(p.unit)
  }

  /** The loop's output after these parts. */
  function Written(parts: seq<Part>): string {
    if parts == [] then ""
    else
      var before := Written(parts[..|parts| - 1]);
      var p := parts[|parts| - 1];
      if p.value <= 0 then before else (if before != "" then before + ", " else before) + Item(p)
  }

  function Formatted(x: real): string {
    var out := Written(Breakdown(Clamped(x)));
    if out == "" then "0 seconds" else out
  }

  method FormatDuration(secondsFloat: real) returns (out: string)
    ensures out == Formatted(secondsFloat)
    ensures Decode(out) == Clamped(secondsFloat)
  {
    var seconds := Round(secondsFloat);
    if seconds < 0 {
      seconds := 0;
    }
    var years := seconds / 31536000;
    seconds := seconds % 31536000;
    var days := seconds / 86400;
    seconds := seconds % 86400;
    var hours := seconds / 3600;
    seconds := seconds % 3600;
    var minutes := seconds / 60;
    seconds := seconds % 60;
    var parts := [Part(years, Years), Part(days, Days), Part(hours, Hours), Part(minutes, Minutes),
        Part(seconds, Seconds)];
    assert parts == Breakdown(Clamped(secondsFloat));
    out := "";
    for i := 0 to |parts|
      invariant out == Written(parts[..i])
    {
      assert parts[..i + 1][..i] == parts[..i];
      if parts[i].value <= 0 {
        continue;
      }
      if out != "" {
        out := out + ", ";
      }
      out := out + Itoa(parts[i].value) + " " + Name(parts[i].unit);
    }
    assert parts[..|parts|] == parts;
    if out == "" {
      out := "0 seconds";
    }
    FormatReadsBack(secondsFloat);
  }

  // ---------------------------------------------------------------- reading it back

  /** The unit a name's first letter stands for. */
  function UnitOf(c: char): Unit {
    if c == 'y' then Years else if c == 'd' then Days else if c == 'h' then Hours else if c == 'm' then Minutes
        else Seconds
  }

  /** Reads number, unit, separator, and so on. */
  function Decode(text: string): nat
    decreases |text|
  {
    var n := Leading(text);
    if n == 0 || |text| < n + 2 then 0
    else
      var unit := UnitOf(text[n + 1]);
      InSeconds(Value(text[..n]), unit) + Decode(From(text, n + 1 + |Name(unit)| + 2))
  }

  /** What is left of a text from a position on, if anything. */
  function From(text: string, i: nat): string
    ensures i > 0 && text != "" ==> |From(text, i)| < |text|
  {
    if i <= |text| then text[i..] else ""
  }

  /** The items of the positive parts, separated. */
  function Listed(parts: seq<Part>): string
    requires forall i :: 0 <= i < |parts| ==> parts[i].value >= 0
  {
    if parts == [] then ""
    else if |parts| == 1 then Item(parts[0])
    else Item(parts[0]) + ", " + Listed(parts[1..])
  }

  function Weight(parts: seq<Part>): int {
    if parts == [] then 0 else InSeconds(parts[0].value, parts[0].unit) + Weight(parts[1..])
  }

  function Positive(parts: seq<Part>): seq<Part>
    ensures forall i :: 0 <= i < |Positive(parts)| ==> Positive(parts)[i].value > 0
  {
    if parts == [] then [] else Positive(parts[..|parts| - 1]) + if parts[|parts| - 1].value > 0
        then [parts[|parts| - 1]] else []
  }

  /** The pieces Decode cuts a text into. */
  lemma Cut(digits: string, name: string, tail: string)
    requires digits != "" && name != "" && AllDigits(digits)
    ensures var text := digits + (" " + (name + tail)); var n := |digits|;
            && Leading(text) == n && |text| == n + 1 + |name| + |tail|
            && text[..n] == digits && text[n + 1] == name[0]
            && From(text, n + 1 + |name| + 2) == From(tail, 2)
  {
    var text := digits + (" " + (name + tail));
    LeadingIs(digits, " " + (name + tail));
    assert text[|digits| + 1..] == name + tail;
    assert text[|digits| + 1] == (name + tail)[0];
    assert text[|digits| + 1 + |name|..] == tail;
  }

  lemma NameTellsUnit(u: Unit)
    ensures Name(u) != "" && UnitOf(Name(u)[0]) == u
  {
    match u
    case Years => assert Name(u)[0] == 'y';
    case Days => assert Name(u)[0] == 'd';
    case Hours => assert Name(u)[0] == 'h';
    case Minutes => assert Name(u)[0] == 'm';
    case Seconds => assert Name(u)[0] == 's';
  }

  lemma DecodeStep(text: string, n: nat, unit: Unit, rest: string)
    requires n > 0 && Leading(text) == n && n + 2 <= |text| && UnitOf(text[n + 1]) == unit
    requires rest == From(text, n + 1 + |Name(unit)| + 2)
    ensures Decode(text) == InSeconds(Value(text[..n]), unit) + Decode(rest)
  {}

  lemma Regroup(a: string, b: string, c: string, d: string)
    ensures a + b + c + d == a + (b + (c + d))
  {
  }

  lemma DecodeItem(p: Part, tail: string)
    requires p.value >= 0
    requires tail == "" || |tail| >= 2
    ensures Decode(Item(p) + tail) == InSeconds(p.value, p.unit) + Decode(From(tail, 2))
  {
    var digits, name := Itoa(p.value), Name(p.unit);
    ItoaReadsBack(p.value);
    NameTellsUnit(p.unit);
    Cut(digits, name, tail);
    Regroup(digits, " ", name, tail);
    DecodeStep(digits + (" " + (name + tail)), |digits|, p.unit, From(tail, 2));
  }

  lemma {:induction false} DecodeListed(parts: seq<Part>)
    requires parts != [] && forall i :: 0 <= i < |parts| ==> parts[i].value >= 0
    ensures Decode(Listed(parts)) == Weight(parts)
  {
    if |parts| == 1 {
      DecodeItem(parts[0], "");
      assert Item(parts[0]) + "" == Item(parts[0]);
      assert Weight(parts[1..]) == 0;
    } else {
      var tail := ", " + Listed(parts[1..]);
      DecodeListed(parts[1..]);
      DecodeItem(parts[0], tail);
      assert tail[2..] == Listed(parts[1..]);
      assert Listed(parts) == Item(parts[0]) + tail;
    }
  }

  lemma {:induction false} ListedSnoc(parts: seq<Part>, p: Part)
    requires p.value >= 0 && forall i :: 0 <= i < |parts| ==> parts[i].value >= 0
    ensures Listed(parts + [p]) == if parts == [] then Item(p) else Listed(parts) + ", " + Item(p)
  {
    if parts == [] {
      assert parts + [p] == [p];
    } else {
      ListedSnoc(parts[1..], p);
      assert (parts + [p])[1..] == parts[1..] + [p];
      if |parts| == 1 {
        assert Listed(parts[1..] + [p]) == Item(p);
      } else {
        assert Listed(parts + [p]) == Item(parts[0]) + ", " + (Listed(parts[1..]) + ", " + Item(p));
      }
    }
  }

  lemma ItemIsNotEmpty(p: Part)
    ensures p.value >= 0 ==> Item(p) != ""
  {
    if p.value >= 0 { assert |Item(p)| >= |Itoa(p.value)| + 1; }
  }

  lemma {:induction false} WrittenIsListed(parts: seq<Part>)
    ensures Written(parts) == Listed(Positive(parts))
    ensures Written(parts) == "" <==> Positive(parts) == []
  {
    if parts != [] {
      var init, p := parts[..|parts| - 1], parts[|parts| - 1];
      WrittenIsListed(init);
      ItemIsNotEmpty(p);
      if p.value > 0 {
        ListedSnoc(Positive(init), p);
        assert Positive(parts) == Positive(init) + [p];
      } else {
        assert Positive(parts) == Positive(init);
      }
    }
  }

  lemma {:induction false} WeightSnoc(parts: seq<Part>, p: Part)
    ensures Weight(parts + [p]) == Weight(parts) + Weight([p])
  {
    if parts == [] {
      assert parts + [p] == [p];
    } else {
      assert (parts + [p])[1..] == parts[1..] + [p];
      WeightSnoc(parts[1..], p);
    }
  }

  lemma NothingWeighsNothing(p: Part)
    requires p.value == 0
    ensures Weight([p]) == 0
  {
    assert Weight([p]) == InSeconds(p.value, p.unit) + Weight([]);
  }

  lemma PositiveSnoc(parts: seq<Part>)
    requires parts != []
    ensures var init, p := parts[..|parts| - 1], parts[|parts| - 1];
            && init + [p] == parts
            && Positive(parts) == if p.value > 0 then Positive(init) + [p] else Positive(init)
  {
  }

  /** Parts that are left out weigh nothing. */
  lemma {:induction false} PositiveWeighsTheSame(parts: seq<Part>)
    requires forall i :: 0 <= i < |parts| ==> parts[i].value >= 0
    ensures Weight(Positive(parts)) == Weight(parts)
  {
    if parts != [] {
      var init, p := parts[..|parts| - 1], parts[|parts| - 1];
      PositiveWeighsTheSame(init);
      PositiveSnoc(parts);
      WeightSnoc(init, p);
      if p.value > 0 { WeightSnoc(Positive(init), p); } else { NothingWeighsNothing(p); }
    }
  }

  /** The breakdown weighs what it breaks down, with every lower unit inside its radix. */
  lemma BreakdownIsExact(seconds: nat)
    ensures var p := Breakdown(seconds);
            && Weight(p) == seconds
            && (forall i :: 0 <= i < |p| ==> p[i].value >= 0)
            && p[1].value < 365 && p[2].value < 24 && p[3].value < 60 && p[4].value < 60
  {
    var p := Breakdown(seconds);
    assert p == [p[0]] + p[1..] && p[1..][1..] == p[2..] && p[2..][1..] == p[3..] && p[3..][1..] == p[4..]
             && p[4..][1..] == [];
    assert Weight(p[4..]) == p[4].value;
    assert Weight(p[3..]) == p[3].value * 60 + Weight(p[4..]);
    assert Weight(p[2..]) == p[2].value * 3600 + Weight(p[3..]);
    assert Weight(p[1..]) == p[1].value * 86400 + Weight(p[2..]);
    assert Weight(p) == p[0].value * 31536000 + Weight(p[1..]);
  }

  lemma ZeroSeconds()
    ensures Decode("0 seconds") == 0
  {
    var p := Part(0, Seconds);
    assert Digit(0) == '0' + 0 as char;
    assert Digit(0) == '0';
    assert Itoa(0) == "0";
    DecodeItem(p, "");
    assert Item(p) + "" == "0" + " " + "seconds" == "0 seconds";
  }

  /** What is printed weighs what the parts weigh. */
  lemma WrittenReadsBack(parts: seq<Part>)
    requires forall i :: 0 <= i < |parts| ==> parts[i].value >= 0
    ensures (if Written(parts) == "" then 0 else Decode(Written(parts))) == Weight(parts)
  {
    WrittenIsListed(parts);
    PositiveWeighsTheSame(parts);
    if Positive(parts) != [] { DecodeListed(Positive(parts)); }
  }

  /** FormatDuration can be undone: its text reads back as the rounded, non-negative seconds. */
  lemma FormatReadsBack(x: real)
    ensures Decode(Formatted(x)) == Clamped(x)
  {
    var parts := Breakdown(Clamped(x));
    BreakdownIsExact(Clamped(x));
    WrittenReadsBack(parts);
    ZeroSeconds();
  }

  /** Two durations print alike exactly when their clamped rounded seconds agree. */
  lemma PrintAlikeIff(x: real, y: real)
    ensures Formatted(x) == Formatted(y) <==> Clamped(x) == Clamped(y)
  {
    FormatReadsBack(x);
    FormatReadsBack(y);
  }
}
