/** plugins/synthetics/constants.go: the three Terraform resource types and
    the two lookup tables the renderer reads. */
module Constants {

  const SimpleMonitorType := "newrelic_synthetics_monitor"
  const StepMonitorType := "newrelic_synthetics_monitor_step"
  const ScriptMonitorType := "newrelic_synthetics_script_monitor"

  /** Monitor period in minutes, as New Relic tags it, to the provider's
      period name. */
  const PeriodMap: map<string, string> := map[
    "1" := "EVERY_MINUTE",
    "5" := "EVERY_5_MINUTES",
    "10" := "EVERY_10_MINUTES",
    "15" := "EVERY_15_MINUTES",
    "30" := "EVERY_30_MINUTES",
    "60" := "EVERY_HOUR",
    "360" := "EVERY_6_HOURS",
    "720" := "EVERY_12_HOURS",
    "1440" := "EVERY_DAY"
  ]

  /** Public location name, as New Relic tags it, to the provider's region
      name. */
  const RegionMap: map<string, string> := map[
    "Montreal, Québec, CA" := "CA_CENTRAL_1",
    "Washington, DC, USA" := "US_EAST_1",
    "Columbus, OH, USA" := "US_EAST_2",
    "San Francisco, CA, USA" := "US_WEST_1",
    "Portland, OR, USA" := "US_WEST_2"
  ]

  /** Indexing a Go map: the stored value, or the zero value "" for a
      missing key. */
  function Lookup(m: map<string, string>, k: string): (r: string)
    ensures k in m ==> r == m[k]
    ensures k !in m ==> r == ""
  {
    if k in m then m[k] else ""
  }

  predicate Injective(m: map<string, string>) {
    forall a, b :: a in m && b in m && m[a] == m[b] ==> a == b
  }

  /** The nine periods, from one minute to one day. */
  lemma PeriodMapSize()
    ensures |PeriodMap| == 9
    ensures PeriodMap.Keys == {"1", "5", "10", "15", "30", "60", "360", "720", "1440"}
  {
  }

  lemma PeriodMapInjective()
    ensures Injective(PeriodMap)
  {
  }

  /** The renderer's default period is what a one-minute period tag maps to. */
  lemma DefaultPeriod()
    ensures Lookup(PeriodMap, "1") == "EVERY_MINUTE"
    ensures Lookup(PeriodMap, "5") == "EVERY_5_MINUTES"
  {
  }

  /** The five public locations. */
  lemma RegionMapSize()
    ensures |RegionMap| == 5
    ensures Lookup(RegionMap, "Washington, DC, USA") == "US_EAST_1"
  {
  }

  lemma RegionMapInjective()
    ensures Injective(RegionMap)
  {
  }

  /** A region name is not a location key, so looking one up gives "". */
  lemma UnmappedLocation()
    ensures Lookup(RegionMap, "US_EAST_1") == ""
    ensures Lookup(PeriodMap, "2") == ""
  {
  }

  lemma ResourceTypesDistinct()
    ensures SimpleMonitorType != StepMonitorType
    ensures SimpleMonitorType != ScriptMonitorType
    ensures StepMonitorType != ScriptMonitorType
  {
  }
}
