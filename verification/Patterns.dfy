/** The learned log pattern and the tracked service, as both the in-memory
    catalog and the typed tables carry them. Times are integers; ZERO_TIME is
    Go's zero `time.Time`. */
module Patterns {
  import opened Stats

  const ZERO_TIME: int := 0

  datatype Pattern = Pattern(
    id: string, orgId: string, template: string, firstSeen: int, lastSeen: int, count: int,
    baselineFrequency: real, baselineVariance: real, baselineAvg: real,
    seasonal: seq<EWMA>, spikeBaselineMode: string,
    verdict: string, ruleName: string, source: string, service: string,
    tags: seq<string>, samples: seq<string>)

  datatype ServiceInfo = ServiceInfo(orgId: string, firstSeen: int, manual: bool)

  const KNOWN: string := "known"
  const UNKNOWN_SERVICE: string := "_unknown"

  /** An attribution that may overwrite a stored one: neither blank nor the sentinel. */
  predicate RealService(service: string)
  {
    service != "" && service != UNKNOWN_SERVICE
  }
}
