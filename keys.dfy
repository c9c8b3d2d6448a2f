/** The attribute keys the reporter sets on its spans. */
module Keys {

  /** One constructor per key of the reporter's attribute hashes. */
  datatype Key =
    | ServiceName | PlatformName | PlatformRelease | Version | Hostname | Arch | Os | IpAddresses
    | Duration
    | ProfileName | ProfileTitle | ProfileVersion | ProfileAttributes
    | ControlName | ControlId | ControlDesc | ControlImpact
    | ResultStatus | ResultCodeDesc | ResultRunTime

  /** The key as the exported span carries it. */
  function Name(k: Key): string {
    match k
    case ServiceName => "service.name"
    case PlatformName => "platform.name"
    case PlatformRelease => "platform.release"
    case Version => "version"
    case Hostname => "hostname"
    case Arch => "arch"
    case Os => "os"
    case IpAddresses => "ip_addresses"
    case Duration => "duration"
    case ProfileName => "profile.name"
    case ProfileTitle => "profile.title"
    case ProfileVersion => "profile.version"
    case ProfileAttributes => "profile.attributes"
    case ControlName => "control.name"
    case ControlId => "control.id"
    case ControlDesc => "control.desc"
    case ControlImpact => "control.impact"
    case ResultStatus => "result.status"
    case ResultCodeDesc => "result.code_desc"
    case ResultRunTime => "result.run_time"
  }
}
