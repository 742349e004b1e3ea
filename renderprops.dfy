/** What plugins/synthetics/plugin.go promises about the settings it reads
    from a monitor's tags and about the resource bodies it writes, stated
    over the specification functions of module Plugin. */
module RenderProperties {
  import opened Wrappers
  import opened GoStrings
  import Cty
  import opened HclWrite
  import opened Hcl
  import opened Constants
  import opened Models
  import opened Plugin

  // ---------------------------------------------------------------------
  // Locations: every value of every publicLocation tag, in order

  lemma {:induction false} LocationsConcat(a: seq<MonitorTag>, b: seq<MonitorTag>)
    ensures Locations(a + b) == Locations(a) + Locations(b)
    decreases |b|
  {
    if |b| == 0 {
      assert a + b == a;
    } else {
      assert (a + b)[..|a + b| - 1] == a + b[..|b| - 1];
      LocationsConcat(a, b[..|b| - 1]);
    }
  }

  lemma LocationsOne(t: MonitorTag)
    ensures Locations([t]) == if t.key == "publicLocation" then Regions(t.values) else []
  {
    assert [t][..0] == [];
  }

  /** No locations exactly when no publicLocation tag has a value. */
  lemma {:induction false} LocationsEmpty(tags: seq<MonitorTag>)
    ensures Locations(tags) == [] <==>
            forall i :: 0 <= i < |tags| && tags[i].key == "publicLocation" ==> |tags[i].values| == 0
    decreases |tags|
  {
    if |tags| > 0 {
      var init := tags[..|tags| - 1];
      LocationsEmpty(init);
      assert forall i :: 0 <= i < |init| ==> init[i] == tags[i];
    }
  }

  // ---------------------------------------------------------------------
  // Single-valued settings: the last tag with the key wins

  /** The first value of a tag with the key, when no later tag has it. */
  lemma {:induction false} LastValueAt(tags: seq<MonitorTag>, key: string, i: nat)
    requires ValuedWhere(tags, key)
    requires i < |tags| && tags[i].key == key
    requires forall j :: i < j < |tags| ==> tags[j].key != key
    ensures LastValue(tags, key) == Some(tags[i].values[0])
    decreases |tags|
  {
    if i < |tags| - 1 {
      var init := tags[..|tags| - 1];
      assert forall j :: 0 <= j < |init| ==> init[j] == tags[j];
      LastValueAt(init, key, i);
    }
  }

  /** Nothing is set exactly when no tag has the key. */
  lemma {:induction false} LastValueAbsent(tags: seq<MonitorTag>, key: string)
    requires ValuedWhere(tags, key)
    ensures LastValue(tags, key).None? <==> forall i :: 0 <= i < |tags| ==> tags[i].key != key
    decreases |tags|
  {
    if |tags| > 0 {
      var init := tags[..|tags| - 1];
      assert forall j :: 0 <= j < |init| ==> init[j] == tags[j];
      LastValueAbsent(init, key);
    }
  }

  /** A later tag with the key overwrites what an earlier one set. */
  lemma LastValueOverwrite(a: seq<MonitorTag>, t: MonitorTag, b: seq<MonitorTag>, key: string)
    requires ValuedWhere(a + [t] + b, key)
    requires t.key == key && |t.values| > 0
    requires forall j :: 0 <= j < |b| ==> b[j].key != key
    ensures LastValue(a + [t] + b, key) == Some(t.values[0])
  {
    var tags := a + [t] + b;
    assert tags[|a|] == t;
    forall j | |a| < j < |tags| ensures tags[j].key != key {
      assert tags[j] == b[j - |a| - 1];
    }
    LastValueAt(tags, key, |a|);
  }

  /** The period defaults to periodMap["1"] when no tag sets it. */
  lemma PeriodDefault(tags: seq<MonitorTag>)
    requires ValuedWhere(tags, "period")
    requires forall i :: 0 <= i < |tags| ==> tags[i].key != "period"
    ensures PeriodOf(tags) == Lookup(PeriodMap, "1") == "EVERY_MINUTE"
  {
    LastValueAbsent(tags, "period");
  }

  /** Otherwise it is the period the last period tag names. */
  lemma PeriodLast(tags: seq<MonitorTag>, i: nat)
    requires ValuedWhere(tags, "period")
    requires i < |tags| && tags[i].key == "period"
    requires forall j :: i < j < |tags| ==> tags[j].key != "period"
    ensures PeriodOf(tags) == Lookup(PeriodMap, tags[i].values[0])
  {
    LastValueAt(tags, "period", i);
  }

  lemma StatusDefault(u: Helpers.RuneTable, tags: seq<MonitorTag>)
    requires ValuedWhere(tags, "monitorStatus")
    requires forall i :: 0 <= i < |tags| ==> tags[i].key != "monitorStatus"
    ensures StatusOf(u, tags) == "ENABLED"
  {
    LastValueAbsent(tags, "monitorStatus");
  }

  lemma StatusLast(u: Helpers.RuneTable, tags: seq<MonitorTag>, i: nat)
    requires ValuedWhere(tags, "monitorStatus")
    requires i < |tags| && tags[i].key == "monitorStatus"
    requires forall j :: i < j < |tags| ==> tags[j].key != "monitorStatus"
    ensures StatusOf(u, tags) == ToUpper(u, tags[i].values[0])
  {
    LastValueAt(tags, "monitorStatus", i);
  }

  /** strings.ToUpper maps rune by rune. */
  lemma {:induction false} ToUpperRunes(u: Helpers.RuneTable, s: string)
    ensures |ToUpper(u, s)| == |s|
    ensures forall k :: 0 <= k < |s| ==> ToUpper(u, s)[k] == u.toUpper(s[k])
    decreases |s|
  {
    if |s| > 0 {
      ToUpperRunes(u, s[1..]);
    }
  }

  // ---------------------------------------------------------------------
  // Tag blocks: one per kept tag, in tag order

  lemma {:induction false} TagBlocksConcat(env: Env, golden: seq<MonitorTag>, a: seq<MonitorTag>, b: seq<MonitorTag>)
    ensures TagBlocks(env, golden, a + b) == TagBlocks(env, golden, a) + TagBlocks(env, golden, b)
    decreases |b|
  {
    if |b| == 0 {
      assert a + b == a;
    } else {
      assert (a + b)[..|a + b| - 1] == a + b[..|b| - 1];
      TagBlocksConcat(env, golden, a, b[..|b| - 1]);
    }
  }

  lemma TagBlocksOne(env: Env, golden: seq<MonitorTag>, t: MonitorTag)
    ensures TagBlocks(env, golden, [t]) == if Kept(env, golden, t) then [TagBlock(t)] else []
  {
    assert [t][..0] == [];
  }

  /** The block is the tag block of some kept tag. */
  predicate FromKept(env: Env, golden: seq<MonitorTag>, tags: seq<MonitorTag>, b: Block) {
    exists i :: 0 <= i < |tags| && Kept(env, golden, tags[i]) && b == TagBlock(tags[i])
  }

  /** Every tag block comes from a kept tag. */
  lemma {:induction false} TagBlocksSound(env: Env, golden: seq<MonitorTag>, tags: seq<MonitorTag>)
    ensures forall k :: 0 <= k < |TagBlocks(env, golden, tags)| ==> FromKept(env, golden, tags, TagBlocks(env, golden, tags)[k])
    decreases |tags|
  {
    if |tags| > 0 {
      var init := tags[..|tags| - 1];
      TagBlocksSound(env, golden, init);
      var blocks := TagBlocks(env, golden, tags);
      var prev := TagBlocks(env, golden, init);
      forall k | 0 <= k < |blocks| ensures FromKept(env, golden, tags, blocks[k]) {
        if k < |prev| {
          assert blocks[k] == prev[k];
          assert FromKept(env, golden, init, prev[k]);
          var i :| 0 <= i < |init| && Kept(env, golden, init[i]) && prev[k] == TagBlock(init[i]);
          assert tags[i] == init[i];
        } else {
          var last := |tags| - 1;
          assert Kept(env, golden, tags[last]) && blocks[k] == TagBlock(tags[last]);
        }
      }
    }
  }

  /** Every kept tag has its tag block. */
  lemma {:induction false} TagBlocksComplete(env: Env, golden: seq<MonitorTag>, tags: seq<MonitorTag>)
    ensures forall i :: 0 <= i < |tags| && Kept(env, golden, tags[i]) ==> TagBlock(tags[i]) in TagBlocks(env, golden, tags)
    decreases |tags|
  {
    if |tags| > 0 {
      var init := tags[..|tags| - 1];
      TagBlocksComplete(env, golden, init);
      forall i | 0 <= i < |tags| && Kept(env, golden, tags[i]) ensures TagBlock(tags[i]) in TagBlocks(env, golden, tags) {
        if i < |init| {
          assert tags[i] == init[i];
        }
      }
    }
  }

  // ---------------------------------------------------------------------
  // Reading the rendered attributes back

  /** A body of the form head + tail, where tail holds no attributes, reads
      as head. */
  lemma AttributeOfHead(head: seq<Item>, tail: seq<Item>, name: string)
    requires AttributeNames(tail) == {}
    ensures AttributeOf(head + tail, name) == AttributeOf(head, name)
  {
    AttributeOfConcat(head, tail, name);
  }

  /** The settings part of renderCommon's body. */
  function Settings(name: string, locations: seq<string>, period: string, status: string,
                    runtimeType: string, runtimeTypeVersion: string): seq<Item>
  {
    [StringAttribute("name", name)]
    + (if |locations| > 0 then [Attribute("locations_public", Value(Cty.StringList(locations)))] else [])
    + [Blank] + [StringAttribute("period", period)] + [StringAttribute("status", status)]
    + (if runtimeType != "" then [StringAttribute("runtime_type", runtimeType)] else [])
    + (if runtimeTypeVersion != "" then [StringAttribute("runtime_type_version", runtimeTypeVersion)] else [])
  }

  lemma CommonBodySplit(name: string, locations: seq<string>, period: string, status: string,
                        runtimeType: string, runtimeTypeVersion: string, tagBlocks: seq<Block>)
    ensures CommonBody(name, locations, period, status, runtimeType, runtimeTypeVersion, tagBlocks) ==
            Settings(name, locations, period, status, runtimeType, runtimeTypeVersion) + ([Blank] + Nesteds(tagBlocks) + [Blank])
    ensures AttributeNames([Blank] + Nesteds(tagBlocks) + [Blank]) == {}
  {
    NestedsNames(tagBlocks);
    AttributeNamesConcat([Blank], Nesteds(tagBlocks));
    AttributeNamesConcat([Blank] + Nesteds(tagBlocks), [Blank]);
    OneName(Blank);
  }

  /** Where each setting sits in the settings part, when it is there. */
  lemma SettingsHead(name: string, locations: seq<string>, period: string, status: string,
                     runtimeType: string, runtimeTypeVersion: string)
    ensures var s := Settings(name, locations, period, status, runtimeType, runtimeTypeVersion);
      && AttributeOf(s, "name") == Some(Value(Cty.StringVal(name)))
      && AttributeOf(s, "locations_public") ==
           (if |locations| > 0 then Some(Value(Cty.StringList(locations))) else None)
  {
    var s := Settings(name, locations, period, status, runtimeType, runtimeTypeVersion);
    AttributeOfAt(s, "name", 0);
    if |locations| > 0 {
      AttributeOfAt(s, "locations_public", 1);
    } else {
      AttributeOfAbsent(s, "locations_public");
    }
  }

  lemma SettingsMiddle(name: string, locations: seq<string>, period: string, status: string,
                       runtimeType: string, runtimeTypeVersion: string)
    ensures var s := Settings(name, locations, period, status, runtimeType, runtimeTypeVersion);
      && AttributeOf(s, "period") == Some(Value(Cty.StringVal(period)))
      && AttributeOf(s, "status") == Some(Value(Cty.StringVal(status)))
  {
    var s := Settings(name, locations, period, status, runtimeType, runtimeTypeVersion);
    var l := if |locations| > 0 then 1 else 0;
    AttributeOfAt(s, "period", 2 + l);
    AttributeOfAt(s, "status", 3 + l);
  }

  lemma SettingsRuntime(name: string, locations: seq<string>, period: string, status: string,
                        runtimeType: string, runtimeTypeVersion: string)
    ensures var s := Settings(name, locations, period, status, runtimeType, runtimeTypeVersion);
      && AttributeOf(s, "runtime_type") ==
           (if runtimeType != "" then Some(Value(Cty.StringVal(runtimeType))) else None)
      && AttributeOf(s, "runtime_type_version") ==
           (if runtimeTypeVersion != "" then Some(Value(Cty.StringVal(runtimeTypeVersion))) else None)
  {
    var s := Settings(name, locations, period, status, runtimeType, runtimeTypeVersion);
    var l := if |locations| > 0 then 1 else 0;
    var r := if runtimeType != "" then 1 else 0;
    if r == 1 {
      AttributeOfAt(s, "runtime_type", 4 + l);
    } else {
      AttributeOfAbsent(s, "runtime_type");
    }
    if runtimeTypeVersion != "" {
      AttributeOfAt(s, "runtime_type_version", 4 + l + r);
    } else {
      AttributeOfAbsent(s, "runtime_type_version");
    }
  }

  /** Each setting renderCommon writes reads back as its value: name,
      period and status always, locations_public only for a non-empty list,
      runtime_type and runtime_type_version only when non-empty. */
  lemma CommonBodyAttributes(name: string, locations: seq<string>, period: string, status: string,
                             runtimeType: string, runtimeTypeVersion: string, tagBlocks: seq<Block>)
    ensures var body := CommonBody(name, locations, period, status, runtimeType, runtimeTypeVersion, tagBlocks);
      && AttributeOf(body, "name") == Some(Value(Cty.StringVal(name)))
      && AttributeOf(body, "locations_public") ==
           (if |locations| > 0 then Some(Value(Cty.StringList(locations))) else None)
      && AttributeOf(body, "period") == Some(Value(Cty.StringVal(period)))
      && AttributeOf(body, "status") == Some(Value(Cty.StringVal(status)))
      && AttributeOf(body, "runtime_type") ==
           (if runtimeType != "" then Some(Value(Cty.StringVal(runtimeType))) else None)
      && AttributeOf(body, "runtime_type_version") ==
           (if runtimeTypeVersion != "" then Some(Value(Cty.StringVal(runtimeTypeVersion))) else None)
  {
    CommonBodySplit(name, locations, period, status, runtimeType, runtimeTypeVersion, tagBlocks);
    SettingsHead(name, locations, period, status, runtimeType, runtimeTypeVersion);
    SettingsMiddle(name, locations, period, status, runtimeType, runtimeTypeVersion);
    SettingsRuntime(name, locations, period, status, runtimeType, runtimeTypeVersion);
    var head := Settings(name, locations, period, status, runtimeType, runtimeTypeVersion);
    var tail := [Blank] + Nesteds(tagBlocks) + [Blank];
    AttributeOfHead(head, tail, "name");
    AttributeOfHead(head, tail, "locations_public");
    AttributeOfHead(head, tail, "period");
    AttributeOfHead(head, tail, "status");
    AttributeOfHead(head, tail, "runtime_type");
    AttributeOfHead(head, tail, "runtime_type_version");
  }

  /** The same, for a monitor: what renderCommon reads back is what the tags
      say, as the lemmas above characterise it. */
  lemma CommonItemsAttributes(env: Env, m: MonitorEntity)
    requires CommonValued(m.tags)
    ensures var body := CommonItems(env, m);
      && AttributeOf(body, "name") == Some(Value(Cty.StringVal(m.name)))
      && AttributeOf(body, "locations_public") ==
           (if |Locations(m.tags)| > 0 then Some(Value(Cty.StringList(Locations(m.tags)))) else None)
      && AttributeOf(body, "period") == Some(Value(Cty.StringVal(PeriodOf(m.tags))))
      && AttributeOf(body, "status") == Some(Value(Cty.StringVal(StatusOf(env.runes, m.tags))))
      && AttributeOf(body, "runtime_type") ==
           (if ValueOrEmpty(m.tags, "runtimeType") != "" then Some(Value(Cty.StringVal(ValueOrEmpty(m.tags, "runtimeType")))) else None)
      && AttributeOf(body, "runtime_type_version") ==
           (if ValueOrEmpty(m.tags, "runtimeTypeVersion") != "" then Some(Value(Cty.StringVal(ValueOrEmpty(m.tags, "runtimeTypeVersion")))) else None)
  {
    CommonBodyAttributes(m.name, Locations(m.tags), PeriodOf(m.tags), StatusOf(env.runes, m.tags),
                         ValueOrEmpty(m.tags, "runtimeType"), ValueOrEmpty(m.tags, "runtimeTypeVersion"),
                         TagBlocks(env, m.goldenTags, m.tags));
  }

  /** The body is the settings, a blank line, the tag blocks in order, and a
      closing blank line. */
  lemma CommonBodyBlocks(name: string, locations: seq<string>, period: string, status: string,
                         runtimeType: string, runtimeTypeVersion: string, tagBlocks: seq<Block>)
    ensures var body := CommonBody(name, locations, period, status, runtimeType, runtimeTypeVersion, tagBlocks);
            var n := |Settings(name, locations, period, status, runtimeType, runtimeTypeVersion)| + 1;
      && |body| == n + |tagBlocks| + 1
      && body[..n - 1] == Settings(name, locations, period, status, runtimeType, runtimeTypeVersion)
      && body[n - 1] == Blank
      && (forall k :: 0 <= k < |tagBlocks| ==> body[n + k] == Nested(tagBlocks[k]))
      && body[|body| - 1] == Blank
  {
    CommonBodySplit(name, locations, period, status, runtimeType, runtimeTypeVersion, tagBlocks);
    var tail := [Blank] + Nesteds(tagBlocks) + [Blank];
    assert forall k :: 0 <= k < |tagBlocks| ==> tail[1 + k] == Nested(tagBlocks[k]);
  }

  // ---------------------------------------------------------------------
  // The variants

  /** After the common body, an attribute outside renderCommon's names is
      read from what follows. */
  lemma AfterCommon(env: Env, m: MonitorEntity, rest: seq<Item>, name: string)
    requires CommonValued(m.tags)
    requires name !in CommonNames
    ensures AttributeOf(CommonItems(env, m) + rest, name) == AttributeOf(rest, name)
  {
    CommonItemsNames(env, m);
    AttributeOfConcat(CommonItems(env, m), rest, name);
  }

  lemma OutsideCommon()
    ensures "type" !in CommonNames && "uri" !in CommonNames && "verify_ssl" !in CommonNames
    ensures "validation_text" !in CommonNames
    ensures "enable_screenshot_on_failure_and_script" !in CommonNames && "bypass_head_request" !in CommonNames
  {
  }

  /** validation_text reads back as the first value of the last
      responseValidationText tag, and is absent without one. */
  lemma SimpleValidationText(env: Env, m: MonitorEntity)
    requires CommonValued(m.tags) && ValuedWhere(m.tags, "responseValidationText")
    ensures AttributeOf(SimpleItems(env, m), "validation_text") ==
            match LastValue(m.tags, "responseValidationText")
            case None => None
            case Some(v) => Some(Value(Cty.StringVal(v)))
  {
    var fixed := SimpleFixed(m);
    var rest := OptionalAttribute("validation_text", LastValue(m.tags, "responseValidationText"));
    assert SimpleItems(env, m) == CommonItems(env, m) + (fixed + rest);
    OutsideCommon();
    AfterCommon(env, m, fixed + rest, "validation_text");
    AttributeOfAbsent(fixed, "validation_text");
    AttributeOfConcat(fixed, rest, "validation_text");
    if rest != [] {
      AttributeOfAt(rest, "validation_text", 0);
    }
  }

  lemma FixedReads(m: MonitorEntity, rest: seq<Item>)
    ensures AttributeOf(SimpleFixed(m) + rest, "type") == Some(Value(Cty.StringVal(m.monitorType)))
    ensures AttributeOf(SimpleFixed(m) + rest, "verify_ssl") == Some(Value(Cty.BoolVal(true)))
    ensures AttributeOf(SimpleFixed(m) + rest, "uri") == Some(Value(Cty.StringVal(m.monitoredUrl)))
    ensures AttributeOf(SimpleFixed(m) + rest, "enable_screenshot_on_failure_and_script") == Some(Value(Cty.BoolVal(true)))
    ensures AttributeOf(SimpleFixed(m) + rest, "bypass_head_request") == Some(Value(Cty.BoolVal(true)))
  {
    AttributeOfAt(SimpleFixed(m) + rest, "type", 0);
    AttributeOfAt(SimpleFixed(m) + rest, "enable_screenshot_on_failure_and_script", 1);
    AttributeOfAt(SimpleFixed(m) + rest, "bypass_head_request", 2);
    AttributeOfAt(SimpleFixed(m) + rest, "verify_ssl", 3);
    AttributeOfAt(SimpleFixed(m) + rest, "uri", 4);
  }

  /** The simple variant's fixed attributes read back as set. */
  lemma SimpleFixedAttributes(env: Env, m: MonitorEntity)
    requires CommonValued(m.tags) && ValuedWhere(m.tags, "responseValidationText")
    ensures AttributeOf(SimpleItems(env, m), "type") == Some(Value(Cty.StringVal(m.monitorType)))
    ensures AttributeOf(SimpleItems(env, m), "uri") == Some(Value(Cty.StringVal(m.monitoredUrl)))
    ensures AttributeOf(SimpleItems(env, m), "verify_ssl") == Some(Value(Cty.BoolVal(true)))
    ensures AttributeOf(SimpleItems(env, m), "enable_screenshot_on_failure_and_script") == Some(Value(Cty.BoolVal(true)))
    ensures AttributeOf(SimpleItems(env, m), "bypass_head_request") == Some(Value(Cty.BoolVal(true)))
  {
    var after := SimpleFixed(m) + OptionalAttribute("validation_text", LastValue(m.tags, "responseValidationText"));
    assert SimpleItems(env, m) == CommonItems(env, m) + after;
    FixedReads(m, OptionalAttribute("validation_text", LastValue(m.tags, "responseValidationText")));
    OutsideCommon();
    AfterCommon(env, m, after, "type");
    AfterCommon(env, m, after, "uri");
    AfterCommon(env, m, after, "verify_ssl");
    AfterCommon(env, m, after, "enable_screenshot_on_failure_and_script");
    AfterCommon(env, m, after, "bypass_head_request");
  }

  /** The step blocks follow the common body, one per fetched step, in the
      fetched order. */
  lemma StepItemsLayout(env: Env, m: MonitorEntity, steps: seq<MonitorStep>)
    requires CommonValued(m.tags)
    ensures var items := StepItems(env, m, steps);
            var n := |CommonItems(env, m)|;
      && |items| == n + |steps|
      && items[..n] == CommonItems(env, m)
      && (forall k :: 0 <= k < |steps| ==> items[n + k] == Nested(StepBlock(steps[k])))
  {
  }

  /** A step block carries the step's ordinal, type and values. */
  lemma StepBlockAttributes(s: MonitorStep)
    ensures AttributeOf(StepBlock(s).body, "ordinal") == Some(Value(Cty.NumberVal(s.ordinal as int)))
    ensures AttributeOf(StepBlock(s).body, "type") == Some(Value(Cty.StringVal(s.stepType)))
    ensures AttributeOf(StepBlock(s).body, "values") == Some(Value(Cty.StringList(s.values)))
    ensures Cty.AsStrings(Cty.StringList(s.values)) == Some(s.values)
  {
    AttributeOfAt(StepBlock(s).body, "values", 2);
    Cty.AsStringsStringList(s.values);
  }

  /** A tag block carries the tag's key and its values as a list. */
  lemma TagBlockAttributes(t: MonitorTag)
    ensures TagBlock(t).kind == "tag" && TagBlock(t).labels == []
    ensures AttributeOf(TagBlock(t).body, "key") == Some(Value(Cty.StringVal(t.key)))
    ensures AttributeOf(TagBlock(t).body, "value") == Some(Value(Cty.StringList(t.values)))
    ensures Cty.AsStrings(Cty.StringList(t.values)) == Some(t.values)
  {
    AttributeOfAt(TagBlock(t).body, "value", 1);
    Cty.AsStringsStringList(t.values);
  }

  lemma ScriptMarkerIndented()
    ensures HasPrefix(ScriptMarker, "-")
  {
    assert ScriptMarker[..1] == "-";
  }

  /** The script attribute holds CreateHeredoc(text, "-SCRIPT", true), whose
      literal lines, read back as HCL template text, are the fetched script. */
  lemma ScriptAttribute(env: Env, m: MonitorEntity, text: string)
    requires CommonValued(m.tags) && ValuedWhere(m.tags, "scriptLanguage")
    ensures AttributeOf(ScriptItems(env, m, text), "script") == Some(Raw(Heredoc(text, ScriptMarker, true)))
    ensures Unescape(Join(Literals(Heredoc(text, ScriptMarker, true)), '\n')) == text
  {
    var base := CommonItems(env, m) + OptionalAttribute("script_language", LastValue(m.tags, "scriptLanguage"));
    var script := [Attribute("script", Raw(Heredoc(text, ScriptMarker, true)))];
    CommonItemsNames(env, m);
    AttributeNamesConcat(CommonItems(env, m), OptionalAttribute("script_language", LastValue(m.tags, "scriptLanguage")));
    ScriptNamesExclude();
    AttributeOfConcat(base, script, "script");
    ScriptMarkerIndented();
    HeredocRoundTrip(text, ScriptMarker);
  }

  /** script_language reads back as the first value of the last
      scriptLanguage tag, and is absent without one. */
  lemma ScriptLanguage(env: Env, m: MonitorEntity, text: string)
    requires CommonValued(m.tags) && ValuedWhere(m.tags, "scriptLanguage")
    ensures AttributeOf(ScriptItems(env, m, text), "script_language") ==
            match LastValue(m.tags, "scriptLanguage")
            case None => None
            case Some(v) => Some(Value(Cty.StringVal(v)))
  {
    var rest := OptionalAttribute("script_language", LastValue(m.tags, "scriptLanguage"));
    var script := [Attribute("script", Raw(Heredoc(text, ScriptMarker, true)))];
    assert ScriptItems(env, m, text) == CommonItems(env, m) + (rest + script);
    ScriptNamesExclude();
    AfterCommon(env, m, rest + script, "script_language");
    AttributeOfConcat(rest, script, "script_language");
    if rest != [] {
      AttributeOfAt(rest, "script_language", 0);
    } else {
      AttributeOfAbsent(script, "script_language");
    }
  }
}
