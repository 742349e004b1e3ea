/** plugins/synthetics/models.go: the shapes of the NerdGraph responses the
    exporter reads. The response envelopes (actor, account, ...) are
    flattened to their payloads. */
module Models {

  /** Go's int64, the type of a step's ordinal. */
  newtype int64 = x: int | -0x8000_0000_0000_0000 <= x < 0x8000_0000_0000_0000

  /** A key with its values. A nil Values slice (omitted in the JSON) is the
      empty sequence. */
  datatype MonitorTag = MonitorTag(key: string, values: seq<string>)

  /** A synthetic monitor entity. `goldenTags` is GoldenTags.Tags. */
  datatype MonitorEntity = MonitorEntity(
    guid: string,
    name: string,
    monitorType: string,
    monitoredUrl: string,
    goldenTags: seq<MonitorTag>,
    tags: seq<MonitorTag>)

  /** One step of a step monitor. */
  datatype MonitorStep = MonitorStep(ordinal: int64, stepType: string, values: seq<string>)
}
