/** plugins/synthetics/plugin.go: rendering one synthetic monitor entity into
    a Terraform resource block, dispatching on the monitor type, recording
    the import directives, and folding the errors of a batch into one. */
module Plugin {
  import opened Wrappers
  import opened GoStrings
  import Cty
  import opened HclWrite
  import opened Helpers
  import opened Hcl
  import opened Constants
  import opened Models

  /** What printFile returns for `terraform import`. */
  datatype ImportDirective = ImportDirective(resource: string, name: string, id: string)

  /** What the exporter reads but does not compute: the Unicode tables, the
      imputed tag keys, the NerdGraph step and script queries (by monitor
      GUID), and writing a file (by resource name, under the output
      directory). */
  datatype Env = Env(
    runes: RuneTable,
    imputedTags: seq<string>,
    fetchSteps: string -> Result<seq<MonitorStep>, string>,
    fetchScript: string -> Result<string, string>,
    writeFile: (string, File) -> Outcome<string>)

  // ---------------------------------------------------------------------
  // The settings renderCommon collects from the tags

  /** The region of each location value, in order; "" for an unknown one. */
  function Regions(vals: seq<string>): (r: seq<string>)
    ensures |r| == |vals|
    ensures forall k :: 0 <= k < |vals| ==> r[k] == Lookup(RegionMap, vals[k])
  {
    if |vals| == 0 then [] else Regions(vals[..|vals| - 1]) + [Lookup(RegionMap, vals[|vals| - 1])]
  }

  /** The regions of every publicLocation tag, in tag order. */
  function Locations(tags: seq<MonitorTag>): seq<string> {
    if |tags| == 0 then []
    else
      var last := tags[|tags| - 1];
      Locations(tags[..|tags| - 1]) + (if last.key == "publicLocation" then Regions(last.values) else [])
  }

  /** Every tag with this key has a value (the code reads Values[0]). */
  predicate ValuedWhere(tags: seq<MonitorTag>, key: string) {
    forall i :: 0 <= i < |tags| && tags[i].key == key ==> |tags[i].values| > 0
  }

  /** The first value of the last tag with this key: each such tag overwrites
      what an earlier one set. */
  function LastValue(tags: seq<MonitorTag>, key: string): Option<string>
    requires ValuedWhere(tags, key)
  {
    if |tags| == 0 then None
    else if tags[|tags| - 1].key == key then Some(tags[|tags| - 1].values[0])
    else LastValue(tags[..|tags| - 1], key)
  }

  /** strings.ToUpper, rune by rune. */
  function ToUpper(u: RuneTable, s: string): string {
    if |s| == 0 then "" else [u.toUpper(s[0])] + ToUpper(u, s[1..])
  }

  predicate CommonValued(tags: seq<MonitorTag>) {
    && ValuedWhere(tags, "period")
    && ValuedWhere(tags, "monitorStatus")
    && ValuedWhere(tags, "runtimeType")
    && ValuedWhere(tags, "runtimeTypeVersion")
  }

  function PeriodOf(tags: seq<MonitorTag>): string
    requires ValuedWhere(tags, "period")
  {
    match LastValue(tags, "period")
    case None => "EVERY_MINUTE"
    case Some(v) => Lookup(PeriodMap, v)
  }

  function StatusOf(u: RuneTable, tags: seq<MonitorTag>): string
    requires ValuedWhere(tags, "monitorStatus")
  {
    match LastValue(tags, "monitorStatus")
    case None => "ENABLED"
    case Some(v) => ToUpper(u, v)
  }

  /** runtimeType and runtimeTypeVersion: "" unless a tag sets them. */
  function ValueOrEmpty(tags: seq<MonitorTag>, key: string): string
    requires ValuedWhere(tags, key)
  {
    match LastValue(tags, key)
    case None => ""
    case Some(v) => v
  }

  /** The field IndexOfWithField reads ("Key"); every tag has one. */
  function KeyField(t: MonitorTag): Option<string> {
    Some(t.key)
  }

  /** A tag becomes a tag block when its key is not a golden tag's key, not
      an imputed tag, and it has values. */
  predicate Kept(env: Env, golden: seq<MonitorTag>, t: MonitorTag) {
    && (forall i :: 0 <= i < |golden| ==> golden[i].key != t.key)
    && t.key !in env.imputedTags
    && |t.values| > 0
  }

  function TagBlock(t: MonitorTag): Block {
    Block("tag", [], [Attribute("key", Value(Cty.StringVal(t.key))),
                      Attribute("value", Value(Cty.StringList(t.values)))])
  }

  /** The tag blocks of the kept tags, in tag order. */
  function TagBlocks(env: Env, golden: seq<MonitorTag>, tags: seq<MonitorTag>): seq<Block> {
    if |tags| == 0 then []
    else
      var last := tags[|tags| - 1];
      TagBlocks(env, golden, tags[..|tags| - 1]) + (if Kept(env, golden, last) then [TagBlock(last)] else [])
  }

  /** Blocks as body items, in order. */
  function Nesteds(blocks: seq<Block>): (r: seq<Item>)
    ensures |r| == |blocks|
    ensures forall k :: 0 <= k < |blocks| ==> r[k] == Nested(blocks[k])
  {
    if |blocks| == 0 then [] else Nesteds(blocks[..|blocks| - 1]) + [Nested(blocks[|blocks| - 1])]
  }

  lemma NestedsSnoc(blocks: seq<Block>, b: Block)
    ensures Nesteds(blocks + [b]) == Nesteds(blocks) + [Nested(b)]
  {
    assert (blocks + [b])[..|blocks|] == blocks;
  }

  function StringAttribute(name: string, v: string): Item {
    Attribute(name, Value(Cty.StringVal(v)))
  }

  /** An attribute present only when its value is set. */
  function OptionalAttribute(name: string, v: Option<string>): seq<Item> {
    match v
    case None => []
    case Some(s) => [StringAttribute(name, s)]
  }

  /** The body renderCommon writes, in order. */
  function CommonBody(name: string, locations: seq<string>, period: string, status: string,
                      runtimeType: string, runtimeTypeVersion: string, tagBlocks: seq<Block>): seq<Item>
  {
    [StringAttribute("name", name)]
    + (if |locations| > 0 then [Attribute("locations_public", Value(Cty.StringList(locations)))] else [])
    + [Blank] + [StringAttribute("period", period)] + [StringAttribute("status", status)]
    + (if runtimeType != "" then [StringAttribute("runtime_type", runtimeType)] else [])
    + (if runtimeTypeVersion != "" then [StringAttribute("runtime_type_version", runtimeTypeVersion)] else [])
    + [Blank] + Nesteds(tagBlocks) + [Blank]
  }

  function CommonItems(env: Env, m: MonitorEntity): seq<Item>
    requires CommonValued(m.tags)
  {
    CommonBody(m.name, Locations(m.tags), PeriodOf(m.tags), StatusOf(env.runes, m.tags),
               ValueOrEmpty(m.tags, "runtimeType"), ValueOrEmpty(m.tags, "runtimeTypeVersion"),
               TagBlocks(env, m.goldenTags, m.tags))
  }

  /** A file holding one resource block. */
  function ResourceFile(resourceType: string, resourceName: string, body: seq<Item>): File {
    File([Block("resource", [resourceType, resourceName], body)])
  }

  // ---------------------------------------------------------------------
  // One more tag: how each setting changes

  lemma LocationsSnoc(tags: seq<MonitorTag>, i: nat)
    requires i < |tags|
    ensures Locations(tags[..i + 1]) ==
      Locations(tags[..i]) + (if tags[i].key == "publicLocation" then Regions(tags[i].values) else [])
  {
    assert tags[..i + 1][..i] == tags[..i];
  }

  lemma LastValueSnoc(tags: seq<MonitorTag>, key: string, i: nat)
    requires i < |tags| && ValuedWhere(tags, key)
    ensures ValuedWhere(tags[..i], key) && ValuedWhere(tags[..i + 1], key)
    ensures LastValue(tags[..i + 1], key) ==
      if tags[i].key == key then Some(tags[i].values[0]) else LastValue(tags[..i], key)
  {
    assert tags[..i + 1][..i] == tags[..i];
  }

  lemma PeriodSnoc(tags: seq<MonitorTag>, i: nat)
    requires i < |tags| && ValuedWhere(tags, "period")
    ensures ValuedWhere(tags[..i], "period") && ValuedWhere(tags[..i + 1], "period")
    ensures PeriodOf(tags[..i + 1]) ==
      if tags[i].key == "period" then Lookup(PeriodMap, tags[i].values[0]) else PeriodOf(tags[..i])
  {
    LastValueSnoc(tags, "period", i);
  }

  lemma StatusSnoc(u: RuneTable, tags: seq<MonitorTag>, i: nat)
    requires i < |tags| && ValuedWhere(tags, "monitorStatus")
    ensures ValuedWhere(tags[..i], "monitorStatus") && ValuedWhere(tags[..i + 1], "monitorStatus")
    ensures StatusOf(u, tags[..i + 1]) ==
      if tags[i].key == "monitorStatus" then ToUpper(u, tags[i].values[0]) else StatusOf(u, tags[..i])
  {
    LastValueSnoc(tags, "monitorStatus", i);
  }

  lemma ValueOrEmptySnoc(tags: seq<MonitorTag>, key: string, i: nat)
    requires i < |tags| && ValuedWhere(tags, key)
    ensures ValuedWhere(tags[..i], key) && ValuedWhere(tags[..i + 1], key)
    ensures ValueOrEmpty(tags[..i + 1], key) ==
      if tags[i].key == key then tags[i].values[0] else ValueOrEmpty(tags[..i], key)
  {
    LastValueSnoc(tags, key, i);
  }

  lemma TagBlocksSnoc(env: Env, golden: seq<MonitorTag>, tags: seq<MonitorTag>, i: nat)
    requires i < |tags|
    ensures TagBlocks(env, golden, tags[..i + 1]) ==
      TagBlocks(env, golden, tags[..i]) + (if Kept(env, golden, tags[i]) then [TagBlock(tags[i])] else [])
  {
    assert tags[..i + 1][..i] == tags[..i];
  }

  // ---------------------------------------------------------------------
  // renderCommon

  /** The two searches of renderCommon decide Kept: the golden-tag search by
      key and the imputed-tag search. */
  lemma KeptByIndex(env: Env, golden: seq<MonitorTag>, tag: MonitorTag, g: int, k: int)
    requires g == -1 <==> forall i :: 0 <= i < |golden| ==> KeyField(golden[i]) != KeyField(tag)
    requires k == -1 <==> tag.key !in env.imputedTags
    requires -1 <= g && -1 <= k
    ensures (g < 0 && k < 0 && |tag.values| > 0) <==> Kept(env, golden, tag)
  {
    assert forall i :: 0 <= i < |golden| ==> (KeyField(golden[i]) != KeyField(tag) <==> golden[i].key != tag.key);
  }

  /** The inner loop over a publicLocation tag's values: each value's region
      is appended. */
  method AppendRegions(locations: seq<string>, values: seq<string>) returns (r: seq<string>)
    ensures r == locations + Regions(values)
  {
    r := locations;
    for j := 0 to |values|
      invariant r == locations + Regions(values[..j])
    {
      assert values[..j + 1][..j] == values[..j];
      r := r + [Lookup(RegionMap, values[j])];
    }
    assert values[..|values|] == values;
  }

  /** hclwrite.NewBlock("tag", nil) with the key and value attributes set. */
  method NewTagBlock(tag: MonitorTag) returns (b: Block)
    ensures b == TagBlock(tag)
  {
    var tagBody: seq<Item> := [];
    tagBody := SetAttribute(tagBody, "key", Value(Cty.StringVal(tag.key)));
    assert tagBody == [Attribute("key", Value(Cty.StringVal(tag.key)))];
    assert tagBody[0].name != "value" && tagBody[1..] == [];
    var valueList := ToCtyList(tag.values);
    assert SetAttribute(tagBody[1..], "value", Value(valueList)) == [Attribute("value", Value(valueList))];
    tagBody := SetAttribute(tagBody, "value", Value(valueList));
    b := Block("tag", [], tagBody);
  }

  /** The walk over the tags in renderCommon: the locations, the period,
      the status, the runtime type and version, and the tag blocks, each as
      the tags up to that point determine it. */
  method ScanTags(env: Env, monitor: MonitorEntity)
    returns (locations: seq<string>, period: string, status: string,
             runtimeType: string, runtimeTypeVersion: string, tagBlocks: seq<Block>)
    requires CommonValued(monitor.tags)
    ensures locations == Locations(monitor.tags)
    ensures period == PeriodOf(monitor.tags)
    ensures status == StatusOf(env.runes, monitor.tags)
    ensures runtimeType == ValueOrEmpty(monitor.tags, "runtimeType")
    ensures runtimeTypeVersion == ValueOrEmpty(monitor.tags, "runtimeTypeVersion")
    ensures tagBlocks == TagBlocks(env, monitor.goldenTags, monitor.tags)
  {
    var tags := monitor.tags;
    locations := [];
    period := "EVERY_MINUTE";
    status := "ENABLED";
    runtimeType := "";
    runtimeTypeVersion := "";
    tagBlocks := [];
    for i := 0 to |tags|
      invariant locations == Locations(tags[..i])
      invariant period == PeriodOf(tags[..i])
      invariant status == StatusOf(env.runes, tags[..i])
      invariant runtimeType == ValueOrEmpty(tags[..i], "runtimeType")
      invariant runtimeTypeVersion == ValueOrEmpty(tags[..i], "runtimeTypeVersion")
      invariant tagBlocks == TagBlocks(env, monitor.goldenTags, tags[..i])
    {
      var tag := tags[i];
      LocationsSnoc(tags, i);
      PeriodSnoc(tags, i);
      StatusSnoc(env.runes, tags, i);
      ValueOrEmptySnoc(tags, "runtimeType", i);
      ValueOrEmptySnoc(tags, "runtimeTypeVersion", i);
      TagBlocksSnoc(env, monitor.goldenTags, tags, i);
      if tag.key == "publicLocation" {
        locations := AppendRegions(locations, tag.values);
      }
      if tag.key == "period" {
        period := Lookup(PeriodMap, tag.values[0]);
      }
      if tag.key == "monitorStatus" {
        status := ToUpper(env.runes, tag.values[0]);
      }
      if tag.key == "runtimeType" {
        runtimeType := tag.values[0];
      }
      if tag.key == "runtimeTypeVersion" {
        runtimeTypeVersion := tag.values[0];
      }
      var golden := IndexOfWithField(tag, monitor.goldenTags, KeyField);
      var imputed := IndexOf(tag.key, env.imputedTags);
      KeptByIndex(env, monitor.goldenTags, tag, golden, imputed);
      if golden < 0 && imputed < 0 && |tag.values| > 0 {
        var tagBlock := NewTagBlock(tag);
        tagBlocks := tagBlocks + [tagBlock];
      }
    }
    assert tags[..|tags|] == tags;
  }

  /** The loop `for _, b := range tagBlocks { AppendBlock(b) }`. */
  method AppendBlocks(body: seq<Item>, blocks: seq<Block>) returns (r: seq<Item>)
    ensures r == body + Nesteds(blocks)
  {
    r := body;
    for k := 0 to |blocks|
      invariant r == body + Nesteds(blocks[..k])
    {
      assert blocks[..k + 1][..k] == blocks[..k];
      r := r + [Nested(blocks[k])];
    }
    assert blocks[..|blocks|] == blocks;
  }

  /** The part of renderCommon after the walk over the tags: the collected
      settings are set on the resource body, which so far holds the name,
      and the tag blocks are appended. */
  method WriteSettings(nameOnly: seq<Item>, name: string, locations: seq<string>, period: string, status: string,
                       runtimeType: string, runtimeTypeVersion: string, tagBlocks: seq<Block>)
    returns (body: seq<Item>)
    requires nameOnly == [StringAttribute("name", name)]
    ensures body == CommonBody(name, locations, period, status, runtimeType, runtimeTypeVersion, tagBlocks)
  {
    body := nameOnly;
    OneName(StringAttribute("name", name));
    // Every attribute below is new to the body, so each one is appended.
    ghost var names: set<string> := {"name"};
    ghost var prefix := nameOnly;
    if |locations| > 0 {
      SetAttributeFresh(body, names, "locations_public", Value(Cty.ListVal(Cty.StringVals(locations))));
      body := SetAttribute(body, "locations_public", Value(Cty.ListVal(Cty.StringVals(locations))));
      names := names + {"locations_public"};
    }
    prefix := prefix + (if |locations| > 0 then [Attribute("locations_public", Value(Cty.StringList(locations)))] else []);
    assert body == prefix;
    AppendItemNames(body, Blank);
    body := body + [Blank];
    SetAttributeFresh(body, names, "period", Value(Cty.StringVal(period)));
    body := SetAttribute(body, "period", Value(Cty.StringVal(period)));
    names := names + {"period"};
    SetAttributeFresh(body, names, "status", Value(Cty.StringVal(status)));
    body := SetAttribute(body, "status", Value(Cty.StringVal(status)));
    names := names + {"status"};
    prefix := prefix + [Blank] + [StringAttribute("period", period)] + [StringAttribute("status", status)];
    assert body == prefix;
    if runtimeType != "" {
      SetAttributeFresh(body, names, "runtime_type", Value(Cty.StringVal(runtimeType)));
      body := SetAttribute(body, "runtime_type", Value(Cty.StringVal(runtimeType)));
      names := names + {"runtime_type"};
    }
    prefix := prefix + (if runtimeType != "" then [StringAttribute("runtime_type", runtimeType)] else []);
    assert body == prefix;
    if runtimeTypeVersion != "" {
      SetAttributeFresh(body, names, "runtime_type_version", Value(Cty.StringVal(runtimeTypeVersion)));
      body := SetAttribute(body, "runtime_type_version", Value(Cty.StringVal(runtimeTypeVersion)));
    }
    prefix := prefix + (if runtimeTypeVersion != "" then [StringAttribute("runtime_type_version", runtimeTypeVersion)] else []);
    assert body == prefix;
    body := body + [Blank];
    body := AppendBlocks(body, tagBlocks);
    body := body + [Blank];
  }

  method RenderCommon(env: Env, resourceType: string, resourceName: string, monitor: MonitorEntity)
    returns (file: File)
    requires CommonValued(monitor.tags)
    ensures file == ResourceFile(resourceType, resourceName, CommonItems(env, monitor))
  {
    var body: seq<Item> := [];
    body := SetAttribute(body, "name", Value(Cty.StringVal(monitor.name)));
    var locations, period, status, runtimeType, runtimeTypeVersion, tagBlocks := ScanTags(env, monitor);
    body := WriteSettings(body, monitor.name, locations, period, status, runtimeType, runtimeTypeVersion, tagBlocks);
    file := File([Block("resource", [resourceType, resourceName], body)]);
  }
  // ---------------------------------------------------------------------
  // The three render variants and printFile

  /** printFile: the file is written under the resource name; on success the
      directive names the resource type, the resource name and the monitor's
      GUID, and a failed write is returned as the error. */
  function PrintFile(env: Env, file: File, monitorGuid: string, resourceType: string, resourceName: string)
    : (r: Result<ImportDirective, string>)
    ensures r.Success? <==> env.writeFile(resourceName, file).Pass?
    ensures r.Success? ==> r.value == ImportDirective(resourceType, resourceName, monitorGuid)
    ensures r.Failure? ==> r.error == env.writeFile(resourceName, file).error
  {
    match env.writeFile(resourceName, file)
    case Fail(e) => Failure(e)
    case Pass => Success(ImportDirective(resourceType, resourceName, monitorGuid))
  }

  /** After renderCommon the resource block is the file's only block, so
      FirstMatchingBlock finds it at index 0. */
  lemma ResourceBlockFound(resourceType: string, resourceName: string, body: seq<Item>)
    ensures FirstMatchingBlock(ResourceFile(resourceType, resourceName, body).blocks, "resource", [resourceType, resourceName]) == Some(0)
  {
  }

  /** Replacing the body of a file's only resource block. */
  lemma ReplaceBody(resourceType: string, resourceName: string, body: seq<Item>, newBody: seq<Item>)
    ensures var f := ResourceFile(resourceType, resourceName, body);
            File(f.blocks[0 := f.blocks[0].(body := newBody)]) == ResourceFile(resourceType, resourceName, newBody)
  {
  }

  /** An attribute set once per matching tag, each time replacing the last
      one: after one more tag the body ends with the newest value. */
  lemma SetAgain(base: seq<Item>, name: string, prev: Option<string>, v: string)
    requires name !in AttributeNames(base)
    ensures SetAttribute(base + OptionalAttribute(name, prev), name, Value(Cty.StringVal(v))) ==
            base + OptionalAttribute(name, Some(v))
  {
    match prev
    case None =>
      assert base + OptionalAttribute(name, prev) == base;
      SetAttributeAbsent(base, name, Value(Cty.StringVal(v)));
    case Some(p) =>
      SetAttributeLast(base, name, Value(Cty.StringVal(p)), Value(Cty.StringVal(v)));
  }

  lemma NestedsNames(blocks: seq<Block>)
    ensures AttributeNames(Nesteds(blocks)) == {}
  {
  }

  /** Every attribute of a common body is one of renderCommon's. */
  lemma CommonBodyNames(name: string, locations: seq<string>, period: string, status: string,
                        runtimeType: string, runtimeTypeVersion: string, tagBlocks: seq<Block>)
    ensures AttributeNames(CommonBody(name, locations, period, status, runtimeType, runtimeTypeVersion, tagBlocks)) <= CommonNames
  {
    var body := CommonBody(name, locations, period, status, runtimeType, runtimeTypeVersion, tagBlocks);
    forall n | n in AttributeNames(body) ensures n in CommonNames {
      var i :| 0 <= i < |body| && body[i].Attribute? && body[i].name == n;
    }
  }

  lemma CommonItemsNames(env: Env, m: MonitorEntity)
    requires CommonValued(m.tags)
    ensures AttributeNames(CommonItems(env, m)) <= CommonNames
  {
    CommonBodyNames(m.name, Locations(m.tags), PeriodOf(m.tags), StatusOf(env.runes, m.tags),
                    ValueOrEmpty(m.tags, "runtimeType"), ValueOrEmpty(m.tags, "runtimeTypeVersion"),
                    TagBlocks(env, m.goldenTags, m.tags));
  }

  const CommonNames: set<string> :=
    {"name", "locations_public", "period", "status", "runtime_type", "runtime_type_version"}

  // renderSimpleMonitor

  /** The fixed attributes the simple variant adds. */
  function SimpleFixed(m: MonitorEntity): seq<Item> {
    [StringAttribute("type", m.monitorType),
     Attribute("enable_screenshot_on_failure_and_script", Value(Cty.BoolVal(true))),
     Attribute("bypass_head_request", Value(Cty.BoolVal(true))),
     Attribute("verify_ssl", Value(Cty.BoolVal(true))),
     StringAttribute("uri", m.monitoredUrl)]
  }

  /** The simple monitor's resource body: the common body, the fixed
      attributes, and validation_text from the last responseValidationText
      tag, if any. */
  function SimpleItems(env: Env, m: MonitorEntity): seq<Item>
    requires CommonValued(m.tags) && ValuedWhere(m.tags, "responseValidationText")
  {
    CommonItems(env, m) + SimpleFixed(m)
    + OptionalAttribute("validation_text", LastValue(m.tags, "responseValidationText"))
  }

  function SimpleResult(env: Env, m: MonitorEntity): Result<ImportDirective, string>
    requires CommonValued(m.tags) && ValuedWhere(m.tags, "responseValidationText")
  {
    var name := SnakeCase(env.runes, m.name);
    PrintFile(env, ResourceFile(SimpleMonitorType, name, SimpleItems(env, m)), m.guid, SimpleMonitorType, name)
  }

  const SimpleNames: set<string> :=
    CommonNames + {"type", "enable_screenshot_on_failure_and_script", "bypass_head_request", "verify_ssl", "uri"}

  lemma SimpleNamesExclude()
    ensures "validation_text" !in SimpleNames
  {
  }

  /** Each fixed attribute of the simple variant is new when it is set. */
  lemma SimpleNamesFresh()
    ensures "type" !in CommonNames
    ensures "enable_screenshot_on_failure_and_script" !in CommonNames + {"type"}
    ensures "bypass_head_request" !in CommonNames + {"type"} + {"enable_screenshot_on_failure_and_script"}
    ensures "verify_ssl" !in CommonNames + {"type"} + {"enable_screenshot_on_failure_and_script"} + {"bypass_head_request"}
    ensures "uri" !in CommonNames + {"type"} + {"enable_screenshot_on_failure_and_script"} + {"bypass_head_request"} + {"verify_ssl"}
    ensures CommonNames + {"type"} + {"enable_screenshot_on_failure_and_script"} + {"bypass_head_request"} + {"verify_ssl"} + {"uri"} == SimpleNames
  {
  }

  /** The fixed attributes renderSimpleMonitor sets after renderCommon;
      none of them is already there, so each is appended. */
  method SetSimpleFixed(common: seq<Item>, monitor: MonitorEntity) returns (body: seq<Item>)
    requires AttributeNames(common) <= CommonNames
    ensures body == common + SimpleFixed(monitor)
    ensures AttributeNames(body) <= SimpleNames
  {
    ghost var fixed := SimpleFixed(monitor);
    body := common;
    ghost var names := CommonNames;
    SimpleNamesFresh();
    SetAttributeFresh(body, names, "type", Value(Cty.StringVal(monitor.monitorType)));
    body := SetAttribute(body, "type", Value(Cty.StringVal(monitor.monitorType)));
    names := names + {"type"};
    assert body == common + fixed[..1];
    SetAttributeFresh(body, names, "enable_screenshot_on_failure_and_script", Value(Cty.BoolVal(true)));
    body := SetAttribute(body, "enable_screenshot_on_failure_and_script", Value(Cty.BoolVal(true)));
    names := names + {"enable_screenshot_on_failure_and_script"};
    assert body == common + fixed[..2];
    SetAttributeFresh(body, names, "bypass_head_request", Value(Cty.BoolVal(true)));
    body := SetAttribute(body, "bypass_head_request", Value(Cty.BoolVal(true)));
    names := names + {"bypass_head_request"};
    assert body == common + fixed[..3];
    SetAttributeFresh(body, names, "verify_ssl", Value(Cty.BoolVal(true)));
    body := SetAttribute(body, "verify_ssl", Value(Cty.BoolVal(true)));
    names := names + {"verify_ssl"};
    assert body == common + fixed[..4];
    SetAttributeFresh(body, names, "uri", Value(Cty.StringVal(monitor.monitoredUrl)));
    body := SetAttribute(body, "uri", Value(Cty.StringVal(monitor.monitoredUrl)));
    names := names + {"uri"};
    assert body == common + fixed[..5];
    assert fixed[..5] == fixed;
  }

  /** An attribute set from every tag with a given key, each replacing the
      one before: the body gains the first value of the last such tag. */
  method SetLastValue(base: seq<Item>, ghost names: set<string>, tags: seq<MonitorTag>, key: string, name: string)
    returns (body: seq<Item>)
    requires AttributeNames(base) <= names && name !in names
    requires ValuedWhere(tags, key)
    ensures body == base + OptionalAttribute(name, LastValue(tags, key))
  {
    body := base;
    assert base + OptionalAttribute(name, LastValue(tags[..0], key)) == base;
    for i := 0 to |tags|
      invariant body == base + OptionalAttribute(name, LastValue(tags[..i], key))
    {
      LastValueSnoc(tags, key, i);
      if tags[i].key == key {
        SetAgain(base, name, LastValue(tags[..i], key), tags[i].values[0]);
        body := SetAttribute(body, name, Value(Cty.StringVal(tags[i].values[0])));
      }
    }
    assert tags[..|tags|] == tags;
  }

  lemma SimpleResultOf(env: Env, m: MonitorEntity, name: string, items: seq<Item>)
    requires CommonValued(m.tags) && ValuedWhere(m.tags, "responseValidationText")
    requires name == SnakeCase(env.runes, m.name) && items == SimpleItems(env, m)
    ensures SimpleResult(env, m) == PrintFile(env, ResourceFile(SimpleMonitorType, name, items), m.guid, SimpleMonitorType, name)
  {
  }

  /** renderSimpleMonitor: the common body with the simple variant's
      attributes, written and reported by printFile. */
  method RenderSimpleMonitor(env: Env, monitor: MonitorEntity) returns (r: Result<ImportDirective, string>)
    requires CommonValued(monitor.tags) && ValuedWhere(monitor.tags, "responseValidationText")
    ensures r == SimpleResult(env, monitor)
  {
    var tfResourceType := SimpleMonitorType;
    var tfResourceName := ToSnakeCase(env.runes, monitor.name);
    var file := RenderCommon(env, tfResourceType, tfResourceName, monitor);
    ResourceBlockFound(tfResourceType, tfResourceName, CommonItems(env, monitor));
    var index := FirstMatchingBlock(file.blocks, "resource", [tfResourceType, tfResourceName]).value;
    CommonItemsNames(env, monitor);
    var body := SetSimpleFixed(file.blocks[index].body, monitor);
    SimpleNamesExclude();
    body := SetLastValue(body, SimpleNames, monitor.tags, "responseValidationText", "validation_text");
    ReplaceBody(tfResourceType, tfResourceName, CommonItems(env, monitor), body);
    file := File(file.blocks[index := file.blocks[index].(body := body)]);
    ghost var items := SimpleItems(env, monitor);
    assert file == ResourceFile(tfResourceType, tfResourceName, items);
    r := PrintFile(env, file, monitor.guid, tfResourceType, tfResourceName);
    SimpleResultOf(env, monitor, tfResourceName, items);
  }

  // renderStepMonitor

  /** A step block: the ordinal, the step type and the values. */
  function StepBlock(step: MonitorStep): Block {
    Block("step", [], [Attribute("ordinal", Value(Cty.NumberVal(step.ordinal as int))),
                       StringAttribute("type", step.stepType),
                       Attribute("values", Value(Cty.StringList(step.values)))])
  }

  /** The step blocks, one per step, in the order NerdGraph returned them. */
  function StepBlocks(steps: seq<MonitorStep>): (r: seq<Block>)
    ensures |r| == |steps|
    ensures forall k :: 0 <= k < |steps| ==> r[k] == StepBlock(steps[k])
  {
    if |steps| == 0 then [] else StepBlocks(steps[..|steps| - 1]) + [StepBlock(steps[|steps| - 1])]
  }

  lemma StepBlocksSnoc(steps: seq<MonitorStep>, k: nat)
    requires k < |steps|
    ensures Nesteds(StepBlocks(steps[..k + 1])) == Nesteds(StepBlocks(steps[..k])) + [Nested(StepBlock(steps[k]))]
  {
    assert steps[..k + 1][..k] == steps[..k];
    NestedsSnoc(StepBlocks(steps[..k]), StepBlock(steps[k]));
  }

  /** The step monitor's resource body: the common body followed by the
      step blocks. */
  function StepItems(env: Env, m: MonitorEntity, steps: seq<MonitorStep>): seq<Item>
    requires CommonValued(m.tags)
  {
    CommonItems(env, m) + Nesteds(StepBlocks(steps))
  }

  /** A failed steps query is returned as the error and nothing is written. */
  function StepResult(env: Env, m: MonitorEntity): Result<ImportDirective, string>
    requires CommonValued(m.tags)
  {
    var name := SnakeCase(env.runes, m.name);
    match env.fetchSteps(m.guid)
    case Failure(e) => Failure(e)
    case Success(steps) =>
      PrintFile(env, ResourceFile(StepMonitorType, name, StepItems(env, m, steps)), m.guid, StepMonitorType, name)
  }

  lemma StepResultOf(env: Env, m: MonitorEntity, name: string, steps: seq<MonitorStep>, items: seq<Item>)
    requires CommonValued(m.tags)
    requires name == SnakeCase(env.runes, m.name) && env.fetchSteps(m.guid) == Success(steps)
    requires items == StepItems(env, m, steps)
    ensures StepResult(env, m) == PrintFile(env, ResourceFile(StepMonitorType, name, items), m.guid, StepMonitorType, name)
  {
  }

  /** AppendNewBlock("step", nil) followed by the three attributes. */
  method NewStepBlock(step: MonitorStep) returns (b: Block)
    ensures b == StepBlock(step)
  {
    var stepBody: seq<Item> := [];
    stepBody := SetAttribute(stepBody, "ordinal", Value(Cty.NumberVal(step.ordinal as int)));
    assert stepBody == [Attribute("ordinal", Value(Cty.NumberVal(step.ordinal as int)))];
    SetAttributeFresh(stepBody, {"ordinal"}, "type", Value(Cty.StringVal(step.stepType)));
    stepBody := SetAttribute(stepBody, "type", Value(Cty.StringVal(step.stepType)));
    var valueList := ToCtyList(step.values);
    SetAttributeFresh(stepBody, {"ordinal", "type"}, "values", Value(valueList));
    stepBody := SetAttribute(stepBody, "values", Value(valueList));
    b := Block("step", [], stepBody);
  }

  /** One turn of the step loop: appending step k's block extends the
      prefix of the step blocks by one. */
  lemma AppendStepsStep(body: seq<Item>, steps: seq<MonitorStep>, k: nat)
    requires k < |steps|
    ensures body + Nesteds(StepBlocks(steps[..k])) + [Nested(StepBlock(steps[k]))] ==
            body + Nesteds(StepBlocks(steps[..k + 1]))
  {
    StepBlocksSnoc(steps, k);
  }

  /** The loop over the steps, each appended as a new block. */
  method AppendSteps(body: seq<Item>, steps: seq<MonitorStep>) returns (r: seq<Item>)
    ensures r == body + Nesteds(StepBlocks(steps))
  {
    r := body;
    for k := 0 to |steps|
      invariant r == body + Nesteds(StepBlocks(steps[..k]))
    {
      var b := NewStepBlock(steps[k]);
      AppendStepsStep(body, steps, k);
      r := r + [Nested(b)];
    }
    assert steps[..|steps|] == steps;
  }

  /** renderStepMonitor: renderCommon, then the steps query; on success the
      step blocks are appended and the file is printed. */
  method RenderStepMonitor(env: Env, monitor: MonitorEntity) returns (r: Result<ImportDirective, string>)
    requires CommonValued(monitor.tags)
    ensures r == StepResult(env, monitor)
  {
    var tfResourceType := StepMonitorType;
    var tfResourceName := ToSnakeCase(env.runes, monitor.name);
    var file := RenderCommon(env, tfResourceType, tfResourceName, monitor);
    ResourceBlockFound(tfResourceType, tfResourceName, CommonItems(env, monitor));
    var index := FirstMatchingBlock(file.blocks, "resource", [tfResourceType, tfResourceName]).value;

    var response := env.fetchSteps(monitor.guid);
    if response.Failure? {
      return Failure(response.error);
    }
    var body := AppendSteps(file.blocks[index].body, response.value);
    ReplaceBody(tfResourceType, tfResourceName, CommonItems(env, monitor), body);
    file := File(file.blocks[index := file.blocks[index].(body := body)]);
    ghost var items := StepItems(env, monitor, response.value);
    assert file == ResourceFile(tfResourceType, tfResourceName, items);
    r := PrintFile(env, file, monitor.guid, tfResourceType, tfResourceName);
    StepResultOf(env, monitor, tfResourceName, response.value, items);
  }

  // renderScriptMonitor

  /** What the script variant needs of the tags: the common settings, and a
      value on every scriptLanguage tag once the script has been fetched. */
  predicate ScriptValued(env: Env, m: MonitorEntity) {
    CommonValued(m.tags) && (env.fetchScript(m.guid).Success? ==> ValuedWhere(m.tags, "scriptLanguage"))
  }

  /** The script monitor's resource body: the common body, script_language
      from the last scriptLanguage tag, if any, and the script as an
      indented heredoc with escaping. */
  function ScriptItems(env: Env, m: MonitorEntity, text: string): seq<Item>
    requires CommonValued(m.tags) && ValuedWhere(m.tags, "scriptLanguage")
  {
    CommonItems(env, m) + OptionalAttribute("script_language", LastValue(m.tags, "scriptLanguage"))
    + [Attribute("script", Raw(Heredoc(text, ScriptMarker, true)))]
  }

  const ScriptMarker := "-SCRIPT"

  /** A failed script query is returned as the error and nothing is written. */
  function ScriptResult(env: Env, m: MonitorEntity): Result<ImportDirective, string>
    requires ScriptValued(env, m)
  {
    var name := SnakeCase(env.runes, m.name);
    match env.fetchScript(m.guid)
    case Failure(e) => Failure(e)
    case Success(text) =>
      PrintFile(env, ResourceFile(ScriptMonitorType, name, ScriptItems(env, m, text)), m.guid, ScriptMonitorType, name)
  }

  lemma ScriptResultOf(env: Env, m: MonitorEntity, name: string, text: string, items: seq<Item>)
    requires ScriptValued(env, m)
    requires name == SnakeCase(env.runes, m.name) && env.fetchScript(m.guid) == Success(text)
    requires items == ScriptItems(env, m, text)
    ensures ScriptResult(env, m) == PrintFile(env, ResourceFile(ScriptMonitorType, name, items), m.guid, ScriptMonitorType, name)
  {
  }

  const ScriptNames: set<string> := CommonNames + {"script_language"}

  lemma ScriptNamesExclude()
    ensures "script_language" !in CommonNames
    ensures "script" !in ScriptNames
  {
  }

  /** renderScriptMonitor: renderCommon, then the script query; on success
      script_language and the script are set and the file is printed. */
  method RenderScriptMonitor(env: Env, monitor: MonitorEntity) returns (r: Result<ImportDirective, string>)
    requires ScriptValued(env, monitor)
    ensures r == ScriptResult(env, monitor)
  {
    var tfResourceType := ScriptMonitorType;
    var tfResourceName := ToSnakeCase(env.runes, monitor.name);
    var file := RenderCommon(env, tfResourceType, tfResourceName, monitor);
    ResourceBlockFound(tfResourceType, tfResourceName, CommonItems(env, monitor));
    var index := FirstMatchingBlock(file.blocks, "resource", [tfResourceType, tfResourceName]).value;

    var response := env.fetchScript(monitor.guid);
    if response.Failure? {
      return Failure(response.error);
    }
    CommonItemsNames(env, monitor);
    ScriptNamesExclude();
    var body := SetLastValue(file.blocks[index].body, CommonNames, monitor.tags, "scriptLanguage", "script_language");
    ghost var withLanguage := body;
    AttributeNamesConcat(CommonItems(env, monitor), OptionalAttribute("script_language", LastValue(monitor.tags, "scriptLanguage")));
    assert AttributeNames(body) <= ScriptNames;
    var script := CreateHeredoc(response.value, ScriptMarker, true);
    SetAttributeFresh(body, ScriptNames, "script", Raw(script));
    body := SetAttribute(body, "script", Raw(script));
    ReplaceBody(tfResourceType, tfResourceName, CommonItems(env, monitor), body);
    file := File(file.blocks[index := file.blocks[index].(body := body)]);
    ghost var items := ScriptItems(env, monitor, response.value);
    assert file == ResourceFile(tfResourceType, tfResourceName, items);
    r := PrintFile(env, file, monitor.guid, tfResourceType, tfResourceName);
    ScriptResultOf(env, monitor, tfResourceName, response.value, items);
  }
}
