/**
 * The parts of the Bluetooth Low Energy stack (Qt's `QLowEnergyController`
 * and `QLowEnergyService`) that the adapters observe: the controller and
 * service states, the characteristic properties, and the Client
 * Characteristic Configuration descriptor values.
 */
module Ble {
  import opened CTypes

  /** `QLowEnergyController::ControllerState`. */
  datatype ControllerState =
    | UnconnectedState
    | ConnectingState
    | ConnectedState
    | DiscoveringState
    | DiscoveredState
    | ClosingState
    | AdvertisingState

  /** `QLowEnergyService::ServiceState`. */
  datatype ServiceState =
    | InvalidService
    | DiscoveryRequired
    | DiscoveringServices
    | ServiceDiscovered
    | LocalService

  /** The `QLowEnergyCharacteristic::PropertyTypes` flags the adapters test. */
  datatype Properties = Properties(read: bool, write: bool, notify: bool, indicate: bool)

  /**
   * Client Characteristic Configuration values (Bluetooth Core Specification
   * Vol 3 Part G, section 3.3.3.3): a little-endian 16-bit field whose bit 0
   * enables notifications and bit 1 enables indications.
   */
  const EnableNotification: Bytes := [0x01, 0x00]
  const EnableIndication: Bytes := [0x02, 0x00]

  /** The configuration bits a two-octet descriptor value sets. */
  function CccdBits(v: Bytes): nat
    requires |v| == 2
  {
    LE16(v[0], v[1])
  }

  lemma CccdValues()
    ensures CccdBits(EnableNotification) == 1
    ensures CccdBits(EnableIndication) == 2
  {
  }
}
