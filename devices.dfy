/**
 * What every adapter reports through the common device interface that the
 * training apps read.
 */
module Devices {

  /**
   * `watts()`: the power reported to consumers is the stored power while the
   * machine is moving, and nothing while the cadence is zero.
   */
  function ReportedPower(cadence: nat, watt: nat): nat
  {
    if cadence == 0 then 0 else watt
  }
}
