/** The exporter command of plugins/synthetics/plugin.go: choosing a render
    variant by monitor type, recording the import directives of the
    monitors that rendered, and folding the errors of a batch into one. */
module Exporter {
  import opened Wrappers
  import opened GoStrings
  import opened Helpers
  import opened Constants
  import opened Models
  import opened Plugin

  // ---------------------------------------------------------------------
  // Dispatch

  /** The three supported monitor types. */
  datatype Kind = Simple | Step | Script

  /** The switch in exportSingleMonitor; SIMPLE, SCRIPT_API and every other
      type are unsupported. */
  function KindOf(monitorType: string): (r: Option<Kind>)
    ensures r == Some(Simple) <==> monitorType == "BROWSER"
    ensures r == Some(Step) <==> monitorType == "STEP_MONITOR"
    ensures r == Some(Script) <==> monitorType == "SCRIPT_BROWSER"
    ensures r.None? <==> monitorType !in {"BROWSER", "STEP_MONITOR", "SCRIPT_BROWSER"}
  {
    if monitorType == "BROWSER" then Some(Simple)
    else if monitorType == "STEP_MONITOR" then Some(Step)
    else if monitorType == "SCRIPT_BROWSER" then Some(Script)
    else None
  }

  /** The Terraform resource type each variant writes. */
  function ResourceType(k: Kind): string {
    match k
    case Simple => SimpleMonitorType
    case Step => StepMonitorType
    case Script => ScriptMonitorType
  }

  /** The escapes of Go's %q verb for the runes that have a short form. */
  function QuoteRune(c: char): string {
    if c == '"' then "\\\""
    else if c == '\\' then "\\\\"
    else if c == '\n' then "\\n"
    else if c == '\r' then "\\r"
    else if c == '\t' then "\\t"
    else [c]
  }

  function QuoteBody(s: string): string {
    if |s| == 0 then "" else QuoteRune(s[0]) + QuoteBody(s[1..])
  }

  /** fmt's %q of a string: quoted, with escapes. */
  function Quote(s: string): string {
    "\"" + QuoteBody(s) + "\""
  }

  /** The error exportSingleMonitor returns for an unsupported type. */
  function Unsupported(monitorType: string): string {
    "unsupported error type " + Quote(monitorType)
  }

  /** What each variant reads of the tags, once it gets that far: the code
      indexes Values[0] of every tag it uses. */
  predicate Renderable(env: Env, m: MonitorEntity) {
    match KindOf(m.monitorType)
    case None => true
    case Some(Simple) => CommonValued(m.tags) && ValuedWhere(m.tags, "responseValidationText")
    case Some(Step) => CommonValued(m.tags)
    case Some(Script) => ScriptValued(env, m)
  }

  /** The outcome of exportSingleMonitor for one monitor. */
  function Render(env: Env, m: MonitorEntity): Result<ImportDirective, string>
    requires Renderable(env, m)
  {
    match KindOf(m.monitorType)
    case None => Failure(Unsupported(m.monitorType))
    case Some(Simple) => SimpleResult(env, m)
    case Some(Step) => StepResult(env, m)
    case Some(Script) => ScriptResult(env, m)
  }

  predicate AllRenderable(env: Env, ms: seq<MonitorEntity>) {
    forall i :: 0 <= i < |ms| ==> Renderable(env, ms[i])
  }

  /** The outcome of every monitor, in order. */
  function Outcomes(env: Env, ms: seq<MonitorEntity>): (rs: seq<Result<ImportDirective, string>>)
    requires AllRenderable(env, ms)
    ensures |rs| == |ms|
    ensures forall i :: 0 <= i < |ms| ==> rs[i] == Render(env, ms[i])
  {
    if |ms| == 0 then []
    else
      var init := ms[..|ms| - 1];
      assert forall i :: 0 <= i < |init| ==> init[i] == ms[i];
      Outcomes(env, init) + [Render(env, ms[|ms| - 1])]
  }

  /** The values of the successful outcomes, in order. */
  function Successes(rs: seq<Result<ImportDirective, string>>): seq<ImportDirective> {
    if |rs| == 0 then []
    else Successes(rs[..|rs| - 1]) + (if rs[|rs| - 1].Success? then [rs[|rs| - 1].value] else [])
  }

  /** The errors of the failed outcomes, in order. */
  function Failures(rs: seq<Result<ImportDirective, string>>): seq<string> {
    if |rs| == 0 then []
    else Failures(rs[..|rs| - 1]) + (if rs[|rs| - 1].Failure? then [rs[|rs| - 1].error] else [])
  }

  /** The directives of the monitors that rendered, in order. */
  function Directives(env: Env, ms: seq<MonitorEntity>): seq<ImportDirective>
    requires AllRenderable(env, ms)
  {
    Successes(Outcomes(env, ms))
  }

  /** The errors of the monitors that did not, in order. */
  function Errors(env: Env, ms: seq<MonitorEntity>): seq<string>
    requires AllRenderable(env, ms)
  {
    Failures(Outcomes(env, ms))
  }

  /** One more monitor: its directive or its error is added at the end. */
  lemma OutcomesSnoc(env: Env, ms: seq<MonitorEntity>, i: nat)
    requires AllRenderable(env, ms) && i < |ms|
    ensures AllRenderable(env, ms[..i]) && AllRenderable(env, ms[..i + 1])
    ensures var r := Render(env, ms[i]);
      && Directives(env, ms[..i + 1]) == Directives(env, ms[..i]) + (if r.Success? then [r.value] else [])
      && Errors(env, ms[..i + 1]) == Errors(env, ms[..i]) + (if r.Failure? then [r.error] else [])
  {
    assert ms[..i + 1][..i] == ms[..i];
    var rs := Outcomes(env, ms[..i + 1]);
    assert rs[..i] == Outcomes(env, ms[..i]);
  }

  /** One turn of the export loop: exporting monitor i extends the
      directives and the errors of the first i monitors by its outcome. */
  lemma ExportStep(env: Env, ms: seq<MonitorEntity>, i: nat, base: seq<ImportDirective>,
                   before: seq<ImportDirective>, after: seq<ImportDirective>,
                   errs: seq<string>, err: Option<string>)
    requires AllRenderable(env, ms) && i < |ms|
    requires AllRenderable(env, ms[..i])
    requires before == base + Directives(env, ms[..i]) && errs == Errors(env, ms[..i])
    requires Render(env, ms[i]).Success? ==> after == before + [Render(env, ms[i]).value] && err == None
    requires Render(env, ms[i]).Failure? ==> after == before && err == Some(Render(env, ms[i]).error)
    ensures AllRenderable(env, ms[..i + 1])
    ensures after == base + Directives(env, ms[..i + 1])
    ensures (if err.Some? then errs + [err.value] else errs) == Errors(env, ms[..i + 1])
  {
    OutcomesSnoc(env, ms, i);
    if err == None {
      assert before + [Render(env, ms[i]).value] ==
             base + (Directives(env, ms[..i]) + [Render(env, ms[i]).value]);
    }
  }

  /** The header line of the collected error (written as two literals so that
      a proof about its characters can look at each half). */
  const ErrorHeader := "the following errors " + "occurred exporting monitors"

  /** The collector's error: nil for no errors, otherwise the header and
      each message on a line of its own, in the order received. */
  function AggregateError(errs: seq<string>): Option<string> {
    if |errs| == 0 then None else Some(Join([ErrorHeader] + errs, '\n'))
  }

  // ---------------------------------------------------------------------
  // The command

  class SyntheticExporter {
    /** The tables, the tag keys and the queries the command reads. */
    const env: Env
    /** The import directives collected so far. */
    var importCommands: seq<ImportDirective>

    /** NewSyntheticExporterCommand: no directives yet. */
    constructor(env: Env)
      ensures this.env == env && importCommands == []
    {
      this.env := env;
      importCommands := [];
    }

    /** exportSingleMonitor: a successful render appends its directive;
        an unsupported type or a failed render leaves the directives as
        they were and is returned as the error. */
    method ExportSingleMonitor(monitor: MonitorEntity) returns (err: Option<string>)
      requires Renderable(env, monitor)
      modifies this
      ensures Render(env, monitor).Success? ==>
                importCommands == old(importCommands) + [Render(env, monitor).value] && err == None
      ensures Render(env, monitor).Failure? ==>
                importCommands == old(importCommands) && err == Some(Render(env, monitor).error)
    {
      var importCmd: Result<ImportDirective, string>;
      match monitor.monitorType {
        case "BROWSER" =>
          importCmd := RenderSimpleMonitor(env, monitor);
        case "STEP_MONITOR" =>
          importCmd := RenderStepMonitor(env, monitor);
        case "SCRIPT_BROWSER" =>
          importCmd := RenderScriptMonitor(env, monitor);
        case _ =>
          return Some(Unsupported(monitor.monitorType));
      }
      if importCmd.Failure? {
        return Some(importCmd.error);
      }
      importCommands := importCommands + [importCmd.value];
      err := None;
    }

    /** One turn of a worker (exportMonitor): it takes monitor i off the
        work queue, exports it, and sends a failure to the error channel,
        whose contents so far are `errors`. */
    method ExportMonitor(work: seq<MonitorEntity>, i: nat, ghost base: seq<ImportDirective>, errors: seq<string>)
      returns (sent: seq<string>)
      requires AllRenderable(env, work) && i < |work|
      requires AllRenderable(env, work[..i])
      requires importCommands == base + Directives(env, work[..i]) && errors == Errors(env, work[..i])
      modifies this
      ensures AllRenderable(env, work[..i + 1])
      ensures importCommands == base + Directives(env, work[..i + 1])
      ensures sent == Errors(env, work[..i + 1])
    {
      ghost var before := importCommands;
      var err := ExportSingleMonitor(work[i]);
      ExportStep(env, work, i, base, before, importCommands, errors, err);
      sent := errors;
      if err.Some? {
        sent := sent + [err.value];
      }
    }

    /** Export, with the work queue drained by one worker: every monitor is
        exported in turn, its error (if any) is sent to the collector, and
        the collected directives and error are returned. */
    method Export(monitors: seq<MonitorEntity>) returns (directives: seq<ImportDirective>, commandError: Option<string>)
      requires AllRenderable(env, monitors)
      modifies this
      ensures importCommands == old(importCommands) + Directives(env, monitors)
      ensures directives == importCommands
      ensures commandError == AggregateError(Errors(env, monitors))
    {
      var errs: seq<string> := [];
      for i := 0 to |monitors|
        invariant importCommands == old(importCommands) + Directives(env, monitors[..i])
        invariant errs == Errors(env, monitors[..i])
      {
        errs := ExportMonitor(monitors, i, old(importCommands), errs);
      }
      assert monitors[..|monitors|] == monitors;
      commandError := CollectErrors(errs);
      directives := importCommands;
    }
  }

  /** The collector goroutine: the first error starts the message with the
      header, and each error adds a line. */
  method CollectErrors(errs: seq<string>) returns (commandError: Option<string>)
    ensures commandError == AggregateError(errs)
  {
    commandError := None;
    for i := 0 to |errs|
      invariant commandError == AggregateError(errs[..i])
    {
      if commandError == None {
        commandError := Some(ErrorHeader);
      }
      JoinSnoc([ErrorHeader] + errs[..i], '\n', errs[i]);
      assert [ErrorHeader] + errs[..i + 1] == [ErrorHeader] + errs[..i] + [errs[i]];
      commandError := Some(commandError.value + "\n" + errs[i]);
    }
    assert errs[..|errs|] == errs;
  }

  // ---------------------------------------------------------------------
  // Properties of dispatch

  /** SIMPLE (ping) and SCRIPT_API monitors are not supported. */
  lemma UnsupportedTypes()
    ensures KindOf("SIMPLE").None? && KindOf("SCRIPT_API").None?
    ensures KindOf("browser").None?
  {
  }

  /** %q leaves a string of printable ASCII without quotes or backslashes
      as it is. */
  lemma {:induction false} QuotePlain(s: string)
    requires forall k :: 0 <= k < |s| ==> ' ' <= s[k] <= '~' && s[k] != '"' && s[k] != '\\'
    ensures QuoteBody(s) == s
    decreases |s|
  {
    if |s| > 0 {
      QuotePlain(s[1..]);
      assert [s[0]] + s[1..] == s;
    }
  }

  /** For a type name of printable ASCII without quotes or backslashes, which
      %q does not escape, the error quotes the name as it is. */
  lemma UnsupportedPlain(t: string)
    requires forall k :: 0 <= k < |t| ==> ' ' <= t[k] <= '~' && t[k] != '"' && t[k] != '\\'
    ensures Unsupported(t) == "unsupported error type \"" + t + "\""
  {
    QuotePlain(t);
  }

  lemma ResourceTypeInjective(a: Kind, b: Kind)
    ensures ResourceType(a) == ResourceType(b) <==> a == b
  {
    ResourceTypesDistinct();
  }

  /** A directive names the variant's resource type, the snake-cased monitor
      name and the monitor's GUID. */
  lemma RenderDirective(env: Env, m: MonitorEntity)
    requires Renderable(env, m)
    ensures Render(env, m).Success? ==>
              && KindOf(m.monitorType).Some?
              && Render(env, m).value == ImportDirective(ResourceType(KindOf(m.monitorType).value), SnakeCase(env.runes, m.name), m.guid)
  {
  }

  /** Which renders fail without writing: an unsupported type, and a step or
      script monitor whose query fails. */
  lemma RenderEarlyFailures(env: Env, m: MonitorEntity)
    requires Renderable(env, m)
    ensures KindOf(m.monitorType).None? ==> Render(env, m) == Failure(Unsupported(m.monitorType))
    ensures KindOf(m.monitorType) == Some(Step) && env.fetchSteps(m.guid).Failure? ==>
              Render(env, m) == Failure(env.fetchSteps(m.guid).error)
    ensures KindOf(m.monitorType) == Some(Script) && env.fetchScript(m.guid).Failure? ==>
              Render(env, m) == Failure(env.fetchScript(m.guid).error)
  {
  }

  // ---------------------------------------------------------------------
  // Properties of a batch

  /** Every outcome is a directive or an error, never both. */
  lemma {:induction false} Accounting(rs: seq<Result<ImportDirective, string>>)
    ensures |Successes(rs)| + |Failures(rs)| == |rs|
    decreases |rs|
  {
    if |rs| > 0 {
      Accounting(rs[..|rs| - 1]);
    }
  }

  /** No error exactly when every outcome is a success. */
  lemma {:induction false} FailuresEmpty(rs: seq<Result<ImportDirective, string>>)
    ensures Failures(rs) == [] <==> forall i :: 0 <= i < |rs| ==> rs[i].Success?
    decreases |rs|
  {
    if |rs| > 0 {
      var init := rs[..|rs| - 1];
      FailuresEmpty(init);
      assert forall i :: 0 <= i < |init| ==> init[i] == rs[i];
    }
  }

  /** When every outcome is a success, the values are theirs, in order. */
  lemma {:induction false} SuccessesAll(rs: seq<Result<ImportDirective, string>>)
    requires forall i :: 0 <= i < |rs| ==> rs[i].Success?
    ensures |Successes(rs)| == |rs|
    ensures forall i :: 0 <= i < |rs| ==> Successes(rs)[i] == rs[i].value
    decreases |rs|
  {
    if |rs| > 0 {
      var init := rs[..|rs| - 1];
      assert forall i :: 0 <= i < |init| ==> init[i] == rs[i];
      SuccessesAll(init);
    }
  }

  /** Every monitor of a batch yields a directive or an error. */
  lemma BatchAccounting(env: Env, ms: seq<MonitorEntity>)
    requires AllRenderable(env, ms)
    ensures |Directives(env, ms)| + |Errors(env, ms)| == |ms|
  {
    Accounting(Outcomes(env, ms));
  }

  /** The batch has no error exactly when every monitor renders. */
  lemma ErrorsEmpty(env: Env, ms: seq<MonitorEntity>)
    requires AllRenderable(env, ms)
    ensures Errors(env, ms) == [] <==> forall i :: 0 <= i < |ms| ==> Render(env, ms[i]).Success?
  {
    FailuresEmpty(Outcomes(env, ms));
  }

  /** When every monitor renders, the directives are theirs, one each, in
      order: every entity has a directive whose ID is its GUID. */
  lemma DirectivesAllRendered(env: Env, ms: seq<MonitorEntity>)
    requires AllRenderable(env, ms)
    requires forall i :: 0 <= i < |ms| ==> Render(env, ms[i]).Success?
    ensures |Directives(env, ms)| == |ms|
    ensures forall i :: 0 <= i < |ms| ==> Directives(env, ms)[i] == Render(env, ms[i]).value
    ensures forall i :: 0 <= i < |ms| ==> Directives(env, ms)[i].id == ms[i].guid
  {
    var rs := Outcomes(env, ms);
    SuccessesAll(rs);
    forall i | 0 <= i < |ms| ensures Directives(env, ms)[i].id == ms[i].guid {
      RenderDirective(env, ms[i]);
    }
  }

  // ---------------------------------------------------------------------
  // Properties of the error fold

  /** The aggregate error is nil exactly when no error was received. */
  lemma AggregateNone(errs: seq<string>)
    ensures AggregateError(errs).None? <==> errs == []
  {
  }

  /** The first error starts the message after the header; each later one
      adds a line. */
  lemma AggregateSteps(errs: seq<string>, e: string)
    ensures AggregateError([e]) == Some(ErrorHeader + "\n" + e)
    ensures errs != [] ==> AggregateError(errs + [e]) == Some(AggregateError(errs).value + "\n" + e)
  {
    var parts := [ErrorHeader] + [e];
    assert parts[0] == ErrorHeader && parts[1..] == [e];
    assert Join(parts, '\n') == ErrorHeader + ['\n'] + Join([e], '\n');
    if errs != [] {
      JoinSnoc([ErrorHeader] + errs, '\n', e);
      assert [ErrorHeader] + (errs + [e]) == [ErrorHeader] + errs + [e];
    }
  }

  /** Single-line messages can be read back from the aggregate, in the
      order they were received. */
  lemma AggregateLines(errs: seq<string>)
    requires errs != []
    requires forall k :: 0 <= k < |errs| ==> '\n' !in errs[k]
    ensures Split(AggregateError(errs).value, '\n') == [ErrorHeader] + errs
  {
    var parts := [ErrorHeader] + errs;
    assert '\n' !in ErrorHeader;
    forall k | 0 <= k < |parts| ensures '\n' !in parts[k] {
      if k > 0 { assert parts[k] == errs[k - 1]; }
    }
    SplitJoin(parts, '\n');
  }
}
