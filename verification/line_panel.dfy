/** The line control panel: when a line's switch is usable, when its power
    slider is shown and what values it offers, and which page handler call
    each control makes. */
module LinePanel {

  import opened Distribution
  import Lists

  /** A call the panel makes on the page: `onToggleLine(id, checked)` or
      `onPowerAdjust(id, value[0])`. */
  datatype Command = Toggle(lineId: string, active: bool) | Adjust(lineId: string, power: real)

  /** The activity switch is disabled for a faulty line or one under
      maintenance. */
  predicate SwitchDisabled(line: Line) {
    line.status == Fault || line.status == Maintenance
  }

  /** The power slider is shown for an active line that is online. */
  predicate SliderShown(line: Line) {
    line.isActive && line.status == Online
  }

  /** A position of the slider: from 0 to the line's maximum, in steps of
      5. */
  predicate SliderValue(line: Line, v: real) {
    0.0 <= v <= line.maxPower && v == v.Floor as real && v.Floor % 5 == 0
  }

  /** What the switch reports when flipped to `checked`. */
  function OnSwitch(line: Line, checked: bool): (cmd: Command)
    ensures cmd.Toggle? && cmd.lineId == line.lineId && cmd.active == checked
  {
    Toggle(line.lineId, checked)
  }

  /** What the slider reports: the first of its values. */
  function OnSlide(line: Line, values: seq<real>): (cmd: Command)
    requires |values| >= 1
    ensures cmd.Adjust? && cmd.lineId == line.lineId && cmd.power == values[0]
  {
    Adjust(line.lineId, values[0])
  }

  /** The commands a row of the panel can issue: what its switch reports
      when the switch is enabled, what its slider reports for one of its
      positions when the slider is shown. */
  predicate CanIssue(line: Line, cmd: Command) {
    match cmd
    case Toggle(_, active) => cmd == OnSwitch(line, active) && !SwitchDisabled(line)
    case Adjust(_, power) => cmd == OnSlide(line, [power]) && SliderShown(line) && SliderValue(line, power)
  }

  /** The page handler the command reaches. */
  function Dispatch(lines: seq<Line>, cmd: Command): seq<Line> {
    match cmd
    case Toggle(id, active) => ToggleLine(lines, id, active)
    case Adjust(id, power) => PowerAdjust(lines, id, power)
  }

  /** With distinct ids, anything a row of the panel issues changes that
      row only; a switch sets its row's activity, a slider sets its row's
      power to a value between 0 and the row's maximum. */
  lemma CommandTargetsOwnRow(lines: seq<Line>, i: nat, cmd: Command)
    requires Lists.Distinct(Ids(lines)) && i < |lines|
    requires CanIssue(lines[i], cmd)
    ensures var r := Dispatch(lines, cmd);
      && |r| == |lines|
      && (forall j :: 0 <= j < |lines| && j != i ==> r[j] == lines[j])
      && (cmd.Toggle? ==> r[i].isActive == cmd.active)
      && (cmd.Adjust? ==> 0.0 <= r[i].currentPower <= r[i].maxPower)
  {
  }

  /** No control of the panel takes a line out of fault or maintenance:
      the switch of such a line is disabled and its slider hidden. */
  lemma PanelKeepsFaultsAndMaintenance(lines: seq<Line>, i: nat, cmd: Command)
    requires Lists.Distinct(Ids(lines)) && i < |lines|
    requires CanIssue(lines[i], cmd)
    ensures forall j :: 0 <= j < |lines| && SwitchDisabled(lines[j]) ==>
      Dispatch(lines, cmd)[j] == lines[j]
  {
    CommandTargetsOwnRow(lines, i, cmd);
  }

  /** Switching a line off hides its slider; switching it on shows it. */
  lemma SwitchControlsSlider(lines: seq<Line>, i: nat, checked: bool)
    requires i < |lines|
    ensures SliderShown(ToggleLine(lines, lines[i].lineId, checked)[i]) == checked
  {
  }

  /** Flipping the switch of a usable row sets that row's activity to the
      new position, shows its slider exactly when the position is on, and
      leaves every other row alone. */
  lemma SwitchFlipChangesOwnRow(lines: seq<Line>, i: nat, checked: bool)
    requires Lists.Distinct(Ids(lines)) && i < |lines|
    requires !SwitchDisabled(lines[i])
    ensures CanIssue(lines[i], OnSwitch(lines[i], checked))
    ensures var r := Dispatch(lines, OnSwitch(lines[i], checked));
      && |r| == |lines|
      && (forall j :: 0 <= j < |lines| && j != i ==> r[j] == lines[j])
      && r[i].isActive == checked
      && SliderShown(r[i]) == checked
  {
    CommandTargetsOwnRow(lines, i, OnSwitch(lines[i], checked));
  }

  /** Moving the slider of a shown row to one of its positions gives that
      row the first reported value as its power, with the current in step,
      and leaves every other row alone. */
  lemma SlideChangesOwnRow(lines: seq<Line>, i: nat, values: seq<real>)
    requires Lists.Distinct(Ids(lines)) && i < |lines|
    requires |values| >= 1 && SliderShown(lines[i]) && SliderValue(lines[i], values[0])
    ensures CanIssue(lines[i], OnSlide(lines[i], values))
    ensures var r := Dispatch(lines, OnSlide(lines[i], values));
      && |r| == |lines|
      && (forall j :: 0 <= j < |lines| && j != i ==> r[j] == lines[j])
      && r[i].currentPower == values[0]
      && Consistent(r[i])
  {
    CommandTargetsOwnRow(lines, i, OnSlide(lines[i], values));
  }
}
