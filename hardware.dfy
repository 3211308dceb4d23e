/**
 * Constants of the hardware boundary and small numeric helpers shared by the
 * controller's components.
 *
 * The header that declares the door, motor and floor-button enumerations is
 * not part of this model. The controller uses their values as integers
 * (`direction >= 0`, `elev_dir + direction > 0`, `handle_door(id, 1)`,
 * `handle_door(id, -1)`, `handle_motor(id, 0)`), so they are modelled as the
 * integers -1, 0 and 1 below.
 */
module Hardware {

  /** Door actions and door states. */
  const DoorOpen: int := 1
  const DoorClose: int := -1
  const DoorStop: int := 0

  /** Motor actions; a cabin's travel direction uses the same values. */
  const MotorUp: int := 1
  const MotorDown: int := -1
  const MotorStop: int := 0

  /** The direction a hall caller asks to travel in. */
  const GoingUp: int := 1
  const GoingDown: int := -1

  /** Distance (in floor units) under which a cabin counts as being at a floor. */
  const DiffAtFloor: real := 1.0 / 20.0

  /** A door action, motor action or direction: one of -1, 0, 1. */
  predicate IsUnit(x: int) {
    -1 <= x <= 1
  }

  function Abs(x: int): (r: nat)
    ensures r == x || r == -x
  {
    if x < 0 then -x else x
  }

  function AbsReal(x: real): (r: real)
    ensures r >= 0.0
    ensures r == x || r == -x
  {
    if x < 0.0 then -x else x
  }
}
