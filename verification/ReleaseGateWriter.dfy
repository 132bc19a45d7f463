/** `llmgw-release-gate.py`: the gate run that writes the report the ledger
    later reads. Network answers are given values. */
module ReleaseGateWriter {
  import opened Text
  import opened Evidence

  /** A JSON number as the script coerces it: absent or null counts as 0, text
      that is no number as -1. */
  datatype RawInt = Absent | Number(n: int) | Junk

  function Coerced(raw: RawInt): int {
    match raw
    case Absent => 0
    case Number(n) => n
    case Junk => -1
  }

  datatype Cell = Cell(app: string, kind: string, required: int)

  datatype GateArgs = GateArgs(
    base: string,
    key: string,
    expectCommit: string,
    shadowReleaseCommit: string,
    minTotal: int,
    minPerApp: int,
    appCallers: seq<string>,
    kinds: seq<Option<Cell>>,           // None for a malformed requirement
    appKinds: seq<Option<Cell>>,
    skipGlobal: bool,
    minCoverage: int,
    requireConfig: bool,
    requireRuntime: bool,
    allowPendingLedger: bool,
    consoleBase: string,
    token: string)

  datatype Login = Granted | Refused(why: string)

  datatype ConfigAnswer =
    | ConfigUnreadable(why: string)     // HTTP error, bad envelope, or no summary
    | ConfigSummary(status: string, mapRemaining: RawInt, activeReady: bool, activeMissing: RawInt,
        withoutUsable: RawInt, readiness: RawInt)

  datatype GateItem = GateItem(id: string, status: string, blocking: bool)

  datatype RuntimeData = RuntimeData(
    releaseCommit: string,
    ready: bool,
    items: seq<GateItem>,
    passed: RawInt,
    blocked: RawInt,
    waiting: RawInt,
    retained: RawInt)

  const NO_DATA := RuntimeData("", false, [], Absent, Absent, Absent, Absent)

  datatype RuntimeAnswer = RuntimeUnreadable(why: string) | RuntimeRead(data: RuntimeData)

  /** A counter that is no number ends the script here, where the config check
      reads it as -1. */
  predicate Countable(data: RuntimeData) {
    !data.passed.Junk? && !data.blocked.Junk? && !data.waiting.Junk? && !data.retained.Junk?
  }

  function CountersOf(data: RuntimeData): Counters {
    Counters(Coerced(data.passed), Coerced(data.blocked), Coerced(data.waiting), Coerced(data.retained))
  }

  datatype ShadowAnswer =
    | ShadowHttpError
    | ShadowCrash                       // a body the script cannot coerce
    | ShadowSummary(total: int, critical: int, httpFail: int, coverage: int)

  datatype World = World(
    healthFailures: seq<string>,
    protocolFailures: seq<string>,
    login: Login,
    config: ConfigAnswer,
    runtime: RuntimeAnswer,
    shadow: nat -> ShadowAnswer)

  datatype GateRun = Crashed | Written(report: Payload, exitCode: int)

  // -------------------------------------------------------- single checks

  /** `_config_authority_check`, with `required` set as `main` sets it. */
  function ConfigCheck(answer: ConfigAnswer): ConfigReport {
    match answer
    case ConfigUnreadable(why) => ConfigReport(true, false, "unknown", None, Some(false), None, None, None, [why])
    case ConfigSummary(status, map_, ready, missing, usable, readiness) =>
      var failures :=
        (if Lower(status) != "ready" then ["status"] else [])
        + (if Coerced(map_) != 0 then ["mapFallbackObjectsRemaining"] else [])
        + (if !ready then ["activeAppCallerMapFallbackReady"] else [])
        + (if Coerced(missing) != 0 then ["activeMissingGatewayPool"] else [])
        + (if Coerced(usable) != 0 then ["activeBoundPoolWithoutUsableMember"] else []);
      ConfigReport(true, failures == [], status, Some(Coerced(map_)), Some(ready), Some(Coerced(missing)),
        Some(Coerced(usable)), if readiness.Junk? then None else Some(Coerced(readiness)), failures)
  }

  function Remaining(items: seq<GateItem>): seq<string> {
    if items == [] then []
    else
      var n := |items| - 1;
      Remaining(items[..n]) + if Blocked(items[n]) then [items[n].id] else []
  }

  predicate Blocked(i: GateItem) {
    i.blocking && Lower(i.status) != "pass"
  }

  predicate RuntimeOk(data: RuntimeData, expected: string, allowPending: bool) {
    var remaining := Remaining(data.items);
    var pending := allowPending && remaining == PENDING_LEDGER;
    && (NormalizeCommit(expected) != "" ==> NormalizeCommit(data.releaseCommit) == NormalizeCommit(expected))
    && (data.ready || pending)
    && (remaining == [] || pending)
  }

  /** `_runtime_gates_result_from_data`. */
  function RuntimeCheck(data: RuntimeData, expected: string, allowPending: bool): RuntimeReport {
    var remaining := Remaining(data.items);
    var pending := if allowPending && remaining == PENDING_LEDGER then PENDING_LEDGER else [];
    RuntimeReport(true, RuntimeOk(data, expected, allowPending), data.ready, remaining, pending, pending != [],
      Some(CountersOf(data)))
  }

  predicate ShadowOk(c: Cell, a: ShadowAnswer, minCoverage: int) {
    && a.ShadowSummary?
    && a.total >= c.required
    && (minCoverage > 0 ==> a.coverage >= minCoverage)
    && a.critical == 0 && a.httpFail == 0
  }

  /** `_shadow_check`. */
  function ShadowResult(c: Cell, a: ShadowAnswer, minCoverage: int, commit: string): ShadowCheck {
    ShadowCheck(
      c.app + "/" + c.kind,
      NormalizeCommit(commit),
      if a.ShadowSummary? then a.critical else 0,
      if a.ShadowSummary? then a.httpFail else 0,
      ShadowOk(c, a, minCoverage))
  }

  // ------------------------------------------------------ the whole report

  function Parsed(cells: seq<Option<Cell>>): seq<Cell> {
    if cells == [] then []
    else
      var n := |cells| - 1;
      Parsed(cells[..n]) + if cells[n].Some? then [cells[n].value] else []
  }

  /** The shadow cells of a run, in the order they are asked for. */
  function Cells(g: GateArgs): seq<Cell> {
    (if g.skipGlobal then [] else [Cell("global", "", g.minTotal)])
    + seq(|g.appCallers|, i requires 0 <= i < |g.appCallers| => Cell(g.appCallers[i], "", g.minPerApp))
    + Parsed(g.kinds) + Parsed(g.appKinds)
  }

  function ReportCommit(g: GateArgs): string {
    NormalizeCommit(if g.shadowReleaseCommit != "" then g.shadowReleaseCommit else g.expectCommit)
  }

  function ShadowResults(g: GateArgs, w: World, cells: seq<Cell>): seq<ShadowCheck> {
    seq(|cells|, i requires 0 <= i < |cells| =>
      ShadowResult(cells[i], w.shadow(i), g.minCoverage, ReportCommit(g)))
  }

  predicate WellFormed(cells: seq<Option<Cell>>) {
    forall c | c in cells :: c.Some?
  }

  /** Are the console-side gates reachable: a base, and a token or a login. */
  predicate ConsoleReady(g: GateArgs, w: World) {
    NamesConsole(g.consoleBase) && (Strip(g.token) != "" || w.login.Granted?)
  }

  /** `_normalize_console_base` leaves something after stripping blanks and slashes. */
  predicate NamesConsole(raw: string) {
    exists c | c in Strip(raw) :: c != '/'
  }

  function InitialConfig(g: GateArgs): ConfigReport {
    NO_CONFIG.(required := g.requireConfig, status := "not-required")
  }

  function InitialRuntime(g: GateArgs): RuntimeReport {
    NO_RUNTIME.(required := g.requireRuntime)
  }

  function ConfigSection(g: GateArgs, w: World): ConfigReport {
    if !g.requireConfig then InitialConfig(g)
    else if ConsoleReady(g, w) then ConfigCheck(w.config)
    else InitialConfig(g).(failures := ["console"])
  }

  function RuntimeSection(g: GateArgs, w: World): RuntimeReport {
    if !g.requireRuntime || !ConsoleReady(g, w) then InitialRuntime(g)
    else match w.runtime
      case RuntimeUnreadable(_) => RuntimeCheck(NO_DATA, g.expectCommit, g.allowPendingLedger)
      case RuntimeRead(data) => RuntimeCheck(data, g.expectCommit, g.allowPendingLedger)
  }

  /** The runtime gates were asked for and answered with an unreadable count. */
  predicate RuntimeCrash(g: GateArgs, w: World) {
    g.requireRuntime && ConsoleReady(g, w) && w.runtime.RuntimeRead? && !Countable(w.runtime.data)
  }

  /** No check of the run recorded a failure. */
  predicate RunClean(g: GateArgs, w: World) {
    && w.healthFailures == [] && w.protocolFailures == []
    && (g.requireConfig || g.requireRuntime ==> ConsoleReady(g, w))
    && (g.requireConfig ==> ConfigCheck(w.config).failures == [])
    && (g.requireRuntime ==> w.runtime.RuntimeRead? && RuntimeOk(w.runtime.data, g.expectCommit, g.allowPendingLedger))
    && WellFormed(g.kinds) && WellFormed(g.appKinds)
    && forall i | 0 <= i < |Cells(g)| :: ShadowOk(Cells(g)[i], w.shadow(i), g.minCoverage)
  }

  function BareReport(g: GateArgs): Payload {
    EMPTY_PAYLOAD.(
      verdict := "fail",
      clean := false,
      expectedCommit := g.expectCommit,
      shadowReleaseCommit := ReportCommit(g),
      thresholds := Thresholds(g.skipGlobal, Some(g.minTotal), Some(g.minPerApp)),
      config := InitialConfig(g),
      runtime := InitialRuntime(g))
  }

  /** `main`: the report left on disk, or no report when the script dies on an
      answer it cannot coerce. */
  function GateRunOf(g: GateArgs, w: World): GateRun {
    if g.base == "" || g.key == "" then Written(BareReport(g), 2)
    else if RuntimeCrash(g, w) || exists i | 0 <= i < |Cells(g)| :: w.shadow(i).ShadowCrash? then Crashed
    else
      var clean := RunClean(g, w);
      Written(
        BareReport(g).(
          verdict := if clean then "pass" else "fail",
          clean := clean,
          config := ConfigSection(g, w),
          runtime := RuntimeSection(g, w),
          shadowChecks := ShadowResults(g, w, Cells(g))),
        if clean then 0 else 1)
  }

  // ------------------------------------------------------------ the script

  method RemainingGates(items: seq<GateItem>) returns (remaining: seq<string>)
    ensures remaining == Remaining(items)
  {
    remaining := [];
    for i := 0 to |items|
      invariant remaining == Remaining(items[..i])
    {
      assert items[..i + 1][..i] == items[..i];
      if items[i].blocking && Lower(items[i].status) != "pass" {
        remaining := remaining + [items[i].id];
      }
    }
    assert items[..|items|] == items;
  }

  /** None for a counter the script cannot coerce. */
  method RuntimeResult(data: RuntimeData, expected: string, allowPending: bool)
    returns (report: Option<RuntimeReport>, failures: seq<string>)
    ensures report == if Countable(data) then Some(RuntimeCheck(data, expected, allowPending)) else None
    ensures Countable(data) ==> (failures == [] <==> RuntimeOk(data, expected, allowPending))
  {
    var remaining := RemainingGates(data.items);
    if !Countable(data) { return None, []; }
    var allowedPending: seq<string> := [];
    if allowPending && remaining == PENDING_LEDGER { allowedPending := PENDING_LEDGER; }
    failures := [];
    if NormalizeCommit(expected) != "" && NormalizeCommit(data.releaseCommit) != NormalizeCommit(expected) {
      failures := failures + ["releaseCommit mismatch"];
    }
    if !data.ready && allowedPending == [] { failures := failures + ["not ready"]; }
    if remaining != [] && allowedPending == [] { failures := failures + ["blocking gates remain"]; }
    report := Some(RuntimeReport(true, failures == [], data.ready, remaining, allowedPending, allowedPending != [],
      Some(CountersOf(data))));
  }

  method RequirementCells(raw: seq<Option<Cell>>) returns (cells: seq<Cell>, failures: seq<string>)
    ensures cells == Parsed(raw)
    ensures failures == [] <==> WellFormed(raw)
  {
    cells, failures := [], [];
    for i := 0 to |raw|
      invariant cells == Parsed(raw[..i])
      invariant failures == [] <==> forall c | c in raw[..i] :: c.Some?
    {
      assert raw[..i + 1][..i] == raw[..i] && raw[..i + 1] == raw[..i] + [raw[i]];
      if raw[i].Some? { cells := cells + [raw[i].value]; } else { failures := failures + ["malformed"]; }
    }
    assert raw[..|raw|] == raw;
  }

  /** Ask for every cell in turn; stop at an answer that cannot be coerced. */
  method AskShadow(g: GateArgs, w: World, cells: seq<Cell>)
    returns (crashed: bool, checks: seq<ShadowCheck>, failures: seq<string>)
    ensures crashed <==> exists i | 0 <= i < |cells| :: w.shadow(i).ShadowCrash?
    ensures !crashed ==> checks == ShadowResults(g, w, cells)
    ensures !crashed ==>
      (failures == [] <==> forall i | 0 <= i < |cells| :: ShadowOk(cells[i], w.shadow(i), g.minCoverage))
  {
    hide NormalizeCommit;
    checks, failures := [], [];
    for i := 0 to |cells|
      invariant forall j | 0 <= j < i :: !w.shadow(j).ShadowCrash?
      invariant checks == ShadowResults(g, w, cells[..i])
      invariant failures == [] <==> forall j | 0 <= j < i :: ShadowOk(cells[j], w.shadow(j), g.minCoverage)
    {
      var answer := w.shadow(i);
      if answer.ShadowCrash? { return true, [], []; }
      var check := ShadowResult(cells[i], answer, g.minCoverage, ReportCommit(g));
      checks := checks + [check];
      if !check.ok { failures := failures + [check.name]; }
    }
    assert cells[..|cells|] == cells;
    crashed := false;
  }

  /** The console-side part of `main`. */
  method ConsoleGates(g: GateArgs, w: World)
    returns (crashed: bool, config: ConfigReport, runtime: RuntimeReport, failures: seq<string>)
    ensures crashed <==> RuntimeCrash(g, w)
    ensures !crashed ==> config == ConfigSection(g, w) && runtime == RuntimeSection(g, w)
    ensures !crashed ==> (failures == [] <==>
      && (g.requireConfig || g.requireRuntime ==> ConsoleReady(g, w))
      && (g.requireConfig ==> ConfigCheck(w.config).failures == [])
      && (g.requireRuntime ==>
           w.runtime.RuntimeRead? && RuntimeOk(w.runtime.data, g.expectCommit, g.allowPendingLedger)))
  {
    hide ConfigCheck;
    hide RuntimeOk;
    hide Strip;
    hide NamesConsole;
    crashed, config, runtime, failures := false, InitialConfig(g), InitialRuntime(g), [];
    if !g.requireConfig && !g.requireRuntime { return; }
    if !NamesConsole(g.consoleBase) || (Strip(g.token) == "" && w.login.Refused?) {
      failures := ["console"];
      if g.requireConfig { config := config.(failures := failures); }
      return;
    }
    if g.requireConfig {
      config := ConfigCheck(w.config);
      failures := failures + config.failures;
    }
    if g.requireRuntime {
      match w.runtime
      case RuntimeUnreadable(why) =>
        var bare, _ := RuntimeResult(NO_DATA, g.expectCommit, g.allowPendingLedger);
        runtime := bare.value;
        failures := failures + [why];
      case RuntimeRead(data) =>
        var read, found := RuntimeResult(data, g.expectCommit, g.allowPendingLedger);
        if read.None? { crashed := true; return; }
        runtime := read.value;
        failures := failures + found;
    }
  }

  /** The requested shadow cells, in order. */
  method GateCells(g: GateArgs) returns (cells: seq<Cell>, failures: seq<string>)
    ensures cells == Cells(g)
    ensures failures == [] <==> WellFormed(g.kinds) && WellFormed(g.appKinds)
  {
    hide WellFormed;
    hide Parsed;
    cells := if g.skipGlobal then [] else [Cell("global", "", g.minTotal)];
    ghost var first := cells;
    for i := 0 to |g.appCallers|
      invariant cells == first + seq(i, j requires 0 <= j < i => Cell(g.appCallers[j], "", g.minPerApp))
    {
      cells := cells + [Cell(g.appCallers[i], "", g.minPerApp)];
    }
    var kinds, badKinds := RequirementCells(g.kinds);
    var appKinds, badAppKinds := RequirementCells(g.appKinds);
    cells := cells + kinds + appKinds;
    failures := badKinds + badAppKinds;
  }

  /** `main` and `_finalize`. */
  method Run(g: GateArgs, w: World) returns (r: GateRun)
    ensures r == GateRunOf(g, w)
  {
    hide ConfigSection;
    hide RuntimeSection;
    hide ConfigCheck;
    hide RuntimeOk;
    hide ShadowOk;
    hide NormalizeCommit;
    hide ConsoleReady;
    hide Cells;
    hide ShadowResults;
    hide WellFormed;
    var report := BareReport(g);
    if g.base == "" || g.key == "" { return Written(report, 2); }
    var failures := w.healthFailures + w.protocolFailures;
    var died, config, runtime, console := ConsoleGates(g, w);
    if died { return Crashed; }
    failures := failures + console;
    var cells, malformed := GateCells(g);
    failures := failures + malformed;
    var crashed, checks, shadow := AskShadow(g, w, cells);
    if crashed { return Crashed; }
    failures := failures + shadow;
    var clean := failures == [];
    r := Written(
      report.(verdict := if clean then "pass" else "fail", clean := clean,
        config := config, runtime := runtime, shadowChecks := checks),
      if clean then 0 else 1);
  }
}
