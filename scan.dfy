/** The scan report the reporter receives (as the JSON-automate reporter builds it) and the
    facts about the host that the reporter reads from its environment. */
module Scan {
  import opened Values
  import opened Tracer

  /** One evaluated check of a control. */
  datatype Result = Result(status: Value, codeDesc: Value, runTime: int)

  /** One compliance rule and its results. */
  datatype Control = Control(id: Value, name: Value, desc: Value, impact: int, results: seq<Result>)

  /** A profile: a named collection of controls. `attributesJson` is what `to_json` gives for
      the profile's free-form attribute hash. */
  datatype Profile = Profile(name: Value, title: Value, version: Value, attributesJson: string, controls: seq<Control>)

  datatype Platform = Platform(name: Value, release: Value)

  /** The report; `duration` is `statistics.duration`. */
  datatype ScanReport = ScanReport(platform: Platform, version: Value, profiles: seq<Profile>, duration: int)

  /** What the reporter reads from the process and the host: the OTEL_SERVICE_NAME variable,
      the host name, RbConfig's arch and host_os, and the addresses of the host's interfaces. */
  datatype Host = Host(serviceNameEnv: Option<string>, hostname: string, arch: string, os: string, addresses: seq<string>)
}
