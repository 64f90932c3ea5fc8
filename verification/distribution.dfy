/** The line list of the distribution page and its handlers: toggle a
    line, adjust its power, add, rename and remove lines, and the search
    for a fresh line id.

    Every handler replaces the list by a new one computed from the
    previous list; numbers are exact reals here. */
module Distribution {

  import opened Text
  import Lists
  import FreshIds

  datatype LineStatus = Online | Offline | Maintenance | Fault

  datatype Line = Line(
    lineId: string,
    lineName: string,
    isActive: bool,
    currentPower: real,
    maxPower: real,
    voltage: real,
    current: real,
    status: LineStatus,
    lastUpdate: string)

  const SupplyVoltage: real := 240.0
  const NewLineMaxPower: real := 200.0

  /** The current the page derives from a power setting. */
  function CurrentFor(power: real): real {
    power / 240.0 * 1000.0
  }

  /** A line whose current agrees with its power setting. */
  predicate Consistent(line: Line) {
    line.current == CurrentFor(line.currentPower)
  }

  /** The same line apart, possibly, from the named fields: used to say
      which fields a handler may touch. */
  predicate SameIdentity(a: Line, b: Line) {
    a.lineId == b.lineId && a.maxPower == b.maxPower
  }

  /** The ids, in list order. */
  function Ids(lines: seq<Line>): seq<string> {
    Lists.Map(lines, (x: Line) => x.lineId)
  }

  // ---------------------------------------------------------------------
  // Fresh ids

  /** The `n`-th candidate id, `L{n}00`. */
  function CandidateId(n: nat): string {
    "L" + NatToDecimal(n) + "00"
  }

  /** The counter a candidate id was made from. */
  function CounterOf(id: string): nat {
    if |id| >= 3 then ParseDecimal(id[1..|id| - 2]) else 0
  }

  /** Reading the counter back from a candidate gives the counter, so
      different counters give different candidates and the search visits
      a new id at every turn. */
  lemma CounterOfCandidate(n: nat)
    ensures CounterOf(CandidateId(n)) == n
  {
    var a := CandidateId(n);
    assert a[1..|a| - 2] == NatToDecimal(n);
  }

  /** Every candidate before the `n`-th is taken. */
  predicate AllTakenBefore(ids: seq<string>, n: nat) {
    forall k :: 1 <= k < n ==> CandidateId(k) in ids
  }

  /** `generateLineId`: tries `L100`, `L200`, ... and returns the first
      candidate no line has. */
  method GenerateLineId(lines: seq<Line>) returns (id: string)
    ensures id !in Ids(lines)
    ensures exists n: nat :: n >= 1 && id == CandidateId(n) && AllTakenBefore(Ids(lines), n)
  {
    forall k: nat ensures CounterOf(CandidateId(k)) == k {
      CounterOfCandidate(k);
    }
    var n := FreshIds.LeastFree(Ids(lines), CandidateId, CounterOf, 1);
    id := CandidateId(n);
  }

  // ---------------------------------------------------------------------
  // Handlers

  /** `handleToggleLine`: every line with this id becomes active or
      inactive. Switching off zeroes power, voltage and current and marks
      the line offline; switching on sets the supply voltage, derives the
      current from the kept power and marks the line online. Name, maximum
      and last-update text stay. Other lines are untouched. */
  function ToggleLine(lines: seq<Line>, id: string, active: bool): (r: seq<Line>)
    ensures |r| == |lines|
    ensures forall i :: 0 <= i < |lines| && lines[i].lineId != id ==> r[i] == lines[i]
    ensures forall i :: 0 <= i < |lines| && lines[i].lineId == id ==>
      && SameIdentity(r[i], lines[i])
      && r[i].lineName == lines[i].lineName
      && r[i].lastUpdate == lines[i].lastUpdate
      && r[i].isActive == active
      && (active ==> r[i].currentPower == lines[i].currentPower && r[i].voltage == SupplyVoltage
                     && r[i].current == CurrentFor(lines[i].currentPower) && r[i].status == Online)
      && (!active ==> r[i].currentPower == 0.0 && r[i].voltage == 0.0
                      && r[i].current == 0.0 && r[i].status == Offline)
  {
    Lists.MapWhere(lines, (l: Line) => l.lineId == id,
      (l: Line) => l.(isActive := active,
                      currentPower := if active then l.currentPower else 0.0,
                      voltage := if active then SupplyVoltage else 0.0,
                      current := if active then CurrentFor(l.currentPower) else 0.0,
                      status := if active then Online else Offline))
  }

  /** `handlePowerAdjust`: the power of every line with this id becomes
      `power` and its current follows; nothing else changes. */
  function PowerAdjust(lines: seq<Line>, id: string, power: real): (r: seq<Line>)
    ensures |r| == |lines|
    ensures forall i :: 0 <= i < |lines| && lines[i].lineId != id ==> r[i] == lines[i]
    ensures forall i :: 0 <= i < |lines| && lines[i].lineId == id ==>
      && r[i].currentPower == power
      && Consistent(r[i])
      && r[i].(currentPower := lines[i].currentPower, current := lines[i].current) == lines[i]
  {
    Lists.MapWhere(lines, (l: Line) => l.lineId == id,
      (l: Line) => l.(currentPower := power, current := CurrentFor(power)))
  }

  /** `handleEditLine`: every line with this id gets the new name and the
      last-update text "Just updated"; nothing else changes. */
  function EditLine(lines: seq<Line>, id: string, newName: string): (r: seq<Line>)
    ensures |r| == |lines|
    ensures forall i :: 0 <= i < |lines| && lines[i].lineId != id ==> r[i] == lines[i]
    ensures forall i :: 0 <= i < |lines| && lines[i].lineId == id ==>
      && r[i].lineName == newName
      && r[i].lastUpdate == "Just updated"
      && r[i].(lineName := lines[i].lineName, lastUpdate := lines[i].lastUpdate) == lines[i]
  {
    Lists.MapWhere(lines, (l: Line) => l.lineId == id,
      (l: Line) => l.(lineName := newName, lastUpdate := "Just updated"))
  }

  /** `handleRemoveLine`: every line with this id goes, the others stay in
      their order. */
  function RemoveLine(lines: seq<Line>, id: string): (r: seq<Line>)
    ensures forall l :: l in r <==> l in lines && l.lineId != id
    ensures forall l :: Lists.Occurrences(r, l) == if l.lineId != id then Lists.Occurrences(lines, l) else 0
    ensures id !in Ids(r)
    ensures Lists.IsSubsequence(r, lines)
  {
    Lists.Filter(lines, (l: Line) => l.lineId != id)
  }

  /** The line `handleAddLine` creates. */
  function NewLine(id: string, name: string): Line {
    Line(id, name, false, 0.0, NewLineMaxPower, 0.0, 0.0, Offline, "Just created")
  }

  /** `handleAddLine`: one line appended, with a fresh id, the given name,
      inactive, unpowered and offline, maximum power 200, last updated
      "Just created". */
  method AddLine(lines: seq<Line>, name: string) returns (r: seq<Line>)
    ensures |r| == |lines| + 1 && r[..|lines|] == lines
    ensures r[|lines|].lineId !in Ids(lines)
    ensures r[|lines|].lineName == name && !r[|lines|].isActive
    ensures r[|lines|].currentPower == 0.0 && r[|lines|].current == 0.0 && r[|lines|].voltage == 0.0
    ensures r[|lines|].maxPower == NewLineMaxPower && r[|lines|].status == Offline
    ensures r[|lines|].lastUpdate == "Just created"
    ensures exists n: nat :: n >= 1 && r[|lines|].lineId == CandidateId(n) && AllTakenBefore(Ids(lines), n)
  {
    var id := GenerateLineId(lines);
    r := lines + [NewLine(id, name)];
    assert r[..|lines|] == lines;
  }

  // ---------------------------------------------------------------------
  // Relations between the handlers

  /** Removing the line just added gives back the list from before. */
  lemma RemoveUndoesAdd(lines: seq<Line>, name: string, added: seq<Line>)
    requires |added| == |lines| + 1 && added[..|lines|] == lines
    requires added[|lines|].lineId !in Ids(lines)
    ensures RemoveLine(added, added[|lines|].lineId) == lines
  {
    var id := added[|lines|].lineId;
    var keep := (l: Line) => l.lineId != id;
    assert added == lines + [added[|lines|]];
    Lists.FilterAppend(lines, added[|lines|], keep);
    Lists.FilterKeepsAll(lines, keep);
  }

  /** Switching a line off and on again does not restore its power: it
      comes back online with power and current zero. */
  lemma OffThenOnLosesPower(lines: seq<Line>, id: string, i: nat)
    requires i < |lines| && lines[i].lineId == id
    ensures var r := ToggleLine(ToggleLine(lines, id, false), id, true);
      r[i].isActive && r[i].status == Online && r[i].voltage == SupplyVoltage
      && r[i].currentPower == 0.0 && r[i].current == 0.0
  {
  }

  /** Repeating a toggle with the same value changes nothing more. */
  lemma ToggleIdempotent(lines: seq<Line>, id: string, active: bool)
    ensures ToggleLine(ToggleLine(lines, id, active), id, active) == ToggleLine(lines, id, active)
  {
    var once := ToggleLine(lines, id, active);
    var twice := ToggleLine(once, id, active);
    assert forall i :: 0 <= i < |lines| ==> twice[i] == once[i];
  }

  /** Every handler keeps the current of every line in step with its power
      setting. */
  lemma HandlersKeepConsistent(lines: seq<Line>, id: string, active: bool, power: real, name: string)
    requires forall i :: 0 <= i < |lines| ==> Consistent(lines[i])
    ensures forall l :: l in ToggleLine(lines, id, active) ==> Consistent(l)
    ensures forall l :: l in PowerAdjust(lines, id, power) ==> Consistent(l)
    ensures forall l :: l in EditLine(lines, id, name) ==> Consistent(l)
    ensures forall l :: l in RemoveLine(lines, id) ==> Consistent(l)
    ensures Consistent(NewLine(id, name))
  {
    assert CurrentFor(0.0) == 0.0;
  }

  // ---------------------------------------------------------------------
  // The lines the page starts with

  /** The four lines the page starts with. Their currents are a tenth of
      what the handlers derive from the same power. */
  const SeedLines: seq<Line> := [
    Line("L001", "Main Building", true, 150.0, 200.0, 240.0, 62.5, Online, "2 minutes ago"),
    Line("L002", "Manufacturing", false, 0.0, 200.0, 0.0, 0.0, Offline, "1 hour ago"),
    Line("L003", "HVAC Systems", false, 0.0, 150.0, 0.0, 0.0, Offline, "5 minutes ago"),
    Line("L004", "Emergency Systems", true, 25.0, 100.0, 240.0, 10.4, Online, "30 seconds ago")]

  /** The active starting lines are out of step with the handlers' rule:
      `Main Building` shows 62.5 A for 150 kW, and setting its slider to
      the power it already has makes the current ten times larger. */
  lemma SeedCurrentsOutOfStep()
    ensures !Consistent(SeedLines[0]) && !Consistent(SeedLines[3])
    ensures Consistent(SeedLines[1]) && Consistent(SeedLines[2])
    ensures PowerAdjust(SeedLines, "L001", 150.0)[0].current == 10.0 * SeedLines[0].current
  {
  }
}
