/**
 * The parts of the device, network and monitor modules the parser
 * drives, reduced to what the parser observes of them. Which devices,
 * connections and monitors those modules accept is their own business:
 * an `Env` supplies their decisions as functions, and a successful call
 * is recorded in a `World`.
 */
module Network {
  import opened Util
  import Scanner

  /** The nine device types, each named by a device keyword. */
  datatype DeviceKind = And | Nand | Or | Nor | Xor | DType | Clock | Switch | Siggen

  /** The device keyword naming each kind. */
  function KindId(k: DeviceKind): (id: nat)
    ensures id in Scanner.DeviceKeywordIds
  {
    match k
    case And => Scanner.AND
    case Nand => Scanner.NAND
    case Or => Scanner.OR
    case Nor => Scanner.NOR
    case Xor => Scanner.XOR
    case DType => Scanner.D_TYPE
    case Clock => Scanner.CLOCK
    case Switch => Scanner.SWITCH
    case Siggen => Scanner.SIGGEN
  }

  /** The kind a device keyword names, if the identifier is one. */
  function KindOf(id: nat): Option<DeviceKind>
  {
    if id == Scanner.AND then Some(And)
    else if id == Scanner.NAND then Some(Nand)
    else if id == Scanner.OR then Some(Or)
    else if id == Scanner.NOR then Some(Nor)
    else if id == Scanner.XOR then Some(Xor)
    else if id == Scanner.D_TYPE then Some(DType)
    else if id == Scanner.CLOCK then Some(Clock)
    else if id == Scanner.SWITCH then Some(Switch)
    else if id == Scanner.SIGGEN then Some(Siggen)
    else None
  }

  /**
   * Keyword identifiers and device kinds correspond one to one: exactly
   * the device keywords name a kind, and each kind is named by its own.
   */
  lemma KindRoundTrip(id: nat, k: DeviceKind)
    ensures KindOf(KindId(k)) == Some(k)
    ensures KindOf(id).Some? <==> id in Scanner.DeviceKeywordIds
    ensures KindOf(id) == Some(k) ==> KindId(k) == id
  {
  }

  /**
   * A device's property as `get_property` produces it: absent, a switch
   * level, a number, or a signal generator's digit pattern.
   */
  datatype Property = NoProperty | Level(high: bool) | Count(n: nat) | Pattern(digits: string)

  /** A device and, for inputs and D-type outputs, the pin identifier after the `.`. */
  datatype IoRef = IoRef(device: nat, port: Option<nat>)

  datatype Connection = Connection(input: IoRef, output: IoRef)

  /** The devices made so far, by name identifier. */
  type Devices = map<nat, DeviceKind>

  datatype World = World(devices: Devices, connections: seq<Connection>, monitors: set<IoRef>)

  /** The error codes `make_device` may return. */
  datatype DeviceError = InvalidQualifier | NoQualifier | BadDevice | QualifierPresent | DevicePresent

  /** The error codes `make_connection` may return. */
  datatype NetworkError = InputToInput | OutputToOutput | InputConnected | PortAbsent | DeviceAbsent

  /** The error codes `make_monitor` may return. */
  datatype MonitorError = NotOutput | MonitorPresent

  /**
   * The collaborators' decisions: each `make_*` call either fails with an
   * error code or succeeds (None), and `check_network` says whether every
   * input is connected.
   */
  datatype Env = Env(
    makeDevice: (World, nat, DeviceKind, Property) -> Option<DeviceError>,
    makeConnection: (World, IoRef, IoRef) -> Option<NetworkError>,
    makeMonitor: (World, IoRef) -> Option<MonitorError>,
    checkNetwork: (Devices, seq<Connection>) -> bool)
}
