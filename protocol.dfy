/**
 * The text command protocol the desk-side controller speaks to the robot's
 * firmware, one command per line. The model keeps each command as a value;
 * the decimal rendering of the gain values on the wire is not modelled.
 */
module Protocol {

  /** One outbound command line. */
  datatype Command =
    | BridgeOn             // "bridge on": power the motor half-bridges
    | BridgeOff            // "bridge off"
    | ResetPid             // "reset_pid": clear the controller's accumulators
    | SetKp(value: real)   // "kp <value>"
    | SetKi(value: real)   // "ki <value>"
    | SetKd(value: real)   // "kd <value>"
    | SetAlpha(value: real) // "alpha <value>": complementary-filter weight
}
