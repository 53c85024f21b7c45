/** The section selector and the section-to-command mapping. */
module Steering {
  import opened Zones

  /** Occupancy percentage below which a zone counts as clear. */
  const PER_THRESH: real := 15.0

  /** Forward and turning speeds of the velocity command. */
  const LINEAR: real := 0.4
  const ANGULAR: real := 0.6

  /** Section numbers as the selector returns them. */
  const NO_SECTION: int := -1
  const LEFT: int := 0
  const CENTRE: int := 1
  const RIGHT: int := 2

  /** `p < PER_THRESH` on a float: false for NaN. */
  predicate Clear(p: Percent) {
    p.Pct? && p.value < PER_THRESH
  }

  /** `a < b` on floats: false when either is NaN. */
  predicate LessThan(a: Percent, b: Percent) {
    a.Pct? && b.Pct? && a.value < b.value
  }

  /** `a == b` on floats: false when either is NaN. */
  predicate EqualTo(a: Percent, b: Percent) {
    a.Pct? && b.Pct? && a.value == b.value
  }

  /** Picks a section from the five percentages (left, centre and right
      third, left and right half), by the source's priority-ordered chain. */
  function SelectSection(values: seq<Percent>): (section: int)
    requires |values| == 5
    ensures section == NO_SECTION || section == LEFT || section == CENTRE || section == RIGHT
    // the centre wins whenever it is clear, and only then
    ensures section == CENTRE <==> Clear(values[1])
    // no section exactly when the centre is blocked and the two thirds are
    // not both numbers with at least one of them clear
    ensures section == NO_SECTION <==>
              !Clear(values[1]) && !(values[0].Pct? && values[2].Pct? && (Clear(values[0]) || Clear(values[2])))
    // a side chosen is clear and no more occupied than the other side
    ensures section == LEFT ==> Clear(values[0]) && values[2].Pct? && values[0].value <= values[2].value
    ensures section == RIGHT ==> Clear(values[2]) && values[0].Pct? && values[2].value <= values[0].value
    // the strictly clearer side wins; a tie goes by the halves, right unless
    // the left half is strictly clearer
    ensures !Clear(values[1]) && Clear(values[0]) && LessThan(values[0], values[2]) ==> section == LEFT
    ensures !Clear(values[1]) && Clear(values[2]) && LessThan(values[2], values[0]) ==> section == RIGHT
    ensures !Clear(values[1]) && Clear(values[0]) && EqualTo(values[0], values[2]) ==>
              (section == LEFT <==> LessThan(values[3], values[4])) && section != NO_SECTION
  {
    if Clear(values[1]) then CENTRE
    else if LessThan(values[0], values[2]) && Clear(values[0]) then LEFT
    else if LessThan(values[2], values[0]) && Clear(values[2]) then RIGHT
    else if EqualTo(values[0], values[2]) && Clear(values[0]) then
      (if LessThan(values[3], values[4]) then LEFT else RIGHT)
    else NO_SECTION
  }

  /** The velocity command: forward speed and turn rate. */
  datatype Twist = Twist(linear: real, angular: real)

  /** The switch that turns a section into a command; anything but 0, 1 or 2
      stops the robot. */
  function Command(section: int): (cmd: Twist)
    ensures cmd.linear == LINEAR || cmd.linear == 0.0
    ensures cmd.linear == LINEAR <==> section == LEFT || section == CENTRE || section == RIGHT
    ensures cmd.angular < 0.0 <==> section == LEFT
    ensures cmd.angular > 0.0 <==> section == RIGHT
    ensures cmd.angular == -ANGULAR || cmd.angular == 0.0 || cmd.angular == ANGULAR
    ensures cmd.linear == 0.0 ==> cmd.angular == 0.0
  {
    match section
    case 0 => Twist(LINEAR, ANGULAR * -1.0)
    case 1 => Twist(LINEAR, 0.0)
    case 2 => Twist(LINEAR, ANGULAR)
    case _ => Twist(0.0, 0.0)
  }

  /** The section a command was made from, read back off the command. */
  function SectionOf(cmd: Twist): (section: int)
    ensures section == NO_SECTION || section == LEFT || section == CENTRE || section == RIGHT
  {
    if cmd.linear == 0.0 then NO_SECTION
    else if cmd.angular < 0.0 then LEFT
    else if cmd.angular > 0.0 then RIGHT
    else CENTRE
  }

  /** Distinct sections give distinct commands: the command carries the
      selector's decision without loss. */
  lemma CommandRoundTrip(section: int)
    requires section == NO_SECTION || section == LEFT || section == CENTRE || section == RIGHT
    ensures SectionOf(Command(section)) == section
  {
  }

  /** Selector and switch together: the robot drives forward exactly when a
      section is found, goes straight exactly when the centre third is clear,
      and turns only when the centre third is blocked. */
  lemma DecisionToCommand(values: seq<Percent>)
    requires |values| == 5
    ensures var cmd := Command(SelectSection(values));
            && (cmd.linear == 0.0 <==>
                  !Clear(values[1]) && !(values[0].Pct? && values[2].Pct? && (Clear(values[0]) || Clear(values[2]))))
            && (cmd.linear == LINEAR && cmd.angular == 0.0 <==> Clear(values[1]))
            && (cmd.angular != 0.0 ==> !Clear(values[1]))
  {
  }
}
