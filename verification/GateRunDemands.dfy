/** What a gate run establishes: it exits 0 exactly when nothing was wrong with
    its arguments and with the answers it got, and its report repeats those
    answers. */
module GateRunDemands {
  import opened Text
  import opened Evidence
  import opened ReleaseGateWriter
  import opened GateContract

  // ---------------------------------------------------------- requested cells

  function GlobalCells(g: GateArgs): nat {
    if g.skipGlobal then 0 else 1
  }

  function Requests(g: GateArgs): nat {
    GlobalCells(g) + |g.appCallers| + |g.kinds| + |g.appKinds|
  }

  /** Request `i`: the global cell, then one per caller with the per-caller
      minimum, then the required kinds, then the required kinds of a caller. */
  function Request(g: GateArgs, i: nat): Option<Cell>
    requires i < Requests(g)
  {
    var apps := GlobalCells(g);
    var kinds := apps + |g.appCallers|;
    var appKinds := kinds + |g.kinds|;
    if i < apps then Some(Cell("global", "", g.minTotal))
    else if i < kinds then Some(Cell(g.appCallers[i - apps], "", g.minPerApp))
    else if i < appKinds then g.kinds[i - kinds]
    else g.appKinds[i - appKinds]
  }

  lemma {:induction false} ParsedAll(raw: seq<Option<Cell>>)
    requires WellFormed(raw)
    ensures |Parsed(raw)| == |raw| && forall i | 0 <= i < |raw| :: raw[i] == Some(Parsed(raw)[i])
  {
    if raw != [] {
      var n := |raw| - 1;
      assert raw == raw[..n] + [raw[n]];
      ParsedAll(raw[..n]);
    }
  }

  /** With every requirement well formed, the cells asked for are the requests. */
  lemma CellsAreRequests(g: GateArgs)
    requires WellFormed(g.kinds) && WellFormed(g.appKinds)
    ensures |Cells(g)| == Requests(g)
    ensures forall i | 0 <= i < Requests(g) :: Request(g, i) == Some(Cells(g)[i])
  {
    ParsedAll(g.kinds);
    ParsedAll(g.appKinds);
    hide Parsed;
    hide WellFormed;
  }

  // ------------------------------------------------------------------- flaws

  datatype RunFlaw =
    | NoBase | NoKey | HealthFailed | ProtocolFailed
    | NoConsole | NoLogin
    | ConfigSilent | AuthorityNotReady | FallbackLeft | CallersInactive | PoolMissing | PoolUnusable
    | RuntimeSilent | RuntimeUncounted | RuntimeOtherCommit | RuntimeUnready | RuntimeBlocked(i: nat)
    | KindMalformed(i: nat) | AppKindMalformed(i: nat)
    | CellUnanswered(i: nat) | CellTooFew(i: nat) | CellTooShort(i: nat) | CellCritical(i: nat) | CellHttpFailed(i: nat)

  /** A counter that was read and is not zero. */
  predicate NotZero(r: RawInt) {
    r.Junk? || (r.Number? && r.n != 0)
  }

  predicate Blocks(i: GateItem) {
    i.blocking && Lower(i.status) != "pass"
  }

  /** Waiting for its own ledger line is allowed, and exactly one gate blocks:
      that line. */
  predicate WaitsForOwnLine(g: GateArgs, items: seq<GateItem>) {
    && g.allowPendingLedger
    && exists k :: 0 <= k < |items| && Blocks(items[k]) && items[k].id == "full_http_rollout_ledger"
                   && forall j | 0 <= j < |items| && j != k :: !Blocks(items[j])
  }

  predicate ConfigWrong(w: World, x: RunFlaw) {
    if w.config.ConfigUnreadable? then x.ConfigSilent?
    else
      match x
      case AuthorityNotReady => Lower(w.config.status) != "ready"
      case FallbackLeft => NotZero(w.config.mapRemaining)
      case CallersInactive => !w.config.activeReady
      case PoolMissing => NotZero(w.config.activeMissing)
      case PoolUnusable => NotZero(w.config.withoutUsable)
      case _ => false
  }

  predicate RuntimeWrong(g: GateArgs, w: World, x: RunFlaw) {
    if w.runtime.RuntimeUnreadable? then x.RuntimeSilent?
    else
      RuntimeDataWrong(g, w.runtime.data, x)
  }

  predicate RuntimeDataWrong(g: GateArgs, d: RuntimeData, x: RunFlaw) {
    match x
    case RuntimeUncounted => d.passed.Junk? || d.blocked.Junk? || d.waiting.Junk? || d.retained.Junk?
    case RuntimeOtherCommit =>
      NormalizeCommit(g.expectCommit) != "" && NormalizeCommit(d.releaseCommit) != NormalizeCommit(g.expectCommit)
    case RuntimeUnready => !d.ready && !WaitsForOwnLine(g, d.items)
    case RuntimeBlocked(i) => i < |d.items| && Blocks(d.items[i]) && !WaitsForOwnLine(g, d.items)
    case _ => false
  }

  predicate CellWrong(g: GateArgs, c: Cell, a: ShadowAnswer, x: RunFlaw) {
    if !a.ShadowSummary? then x.CellUnanswered?
    else
      match x
      case CellTooFew(_) => a.total < c.required
      case CellTooShort(_) => 0 < g.minCoverage && a.coverage < g.minCoverage
      case CellCritical(_) => a.critical != 0
      case CellHttpFailed(_) => a.httpFail != 0
      case _ => false
  }

  /** The request a cell flaw is about. */
  function IndexOf(x: RunFlaw): Option<nat> {
    match x
    case CellUnanswered(i) => Some(i)
    case CellTooFew(i) => Some(i)
    case CellTooShort(i) => Some(i)
    case CellCritical(i) => Some(i)
    case CellHttpFailed(i) => Some(i)
    case _ => None
  }

  predicate RunFlawed(g: GateArgs, w: World, x: RunFlaw) {
    match x
    case NoBase => |g.base| == 0
    case NoKey => |g.key| == 0
    case HealthFailed => |w.healthFailures| > 0
    case ProtocolFailed => |w.protocolFailures| > 0
    case NoConsole => (g.requireConfig || g.requireRuntime) && forall c | c in Strip(g.consoleBase) :: c == '/'
    case NoLogin => (g.requireConfig || g.requireRuntime) && Strip(g.token) == "" && w.login.Refused?
    case KindMalformed(i) => i < |g.kinds| && g.kinds[i].None?
    case AppKindMalformed(i) => i < |g.appKinds| && g.appKinds[i].None?
    case _ =>
      var cell := IndexOf(x);
      if cell.Some? then
        && cell.value < Requests(g) && Request(g, cell.value).Some?
        && CellWrong(g, Request(g, cell.value).value, w.shadow(cell.value), x)
      else (g.requireConfig && ConfigWrong(w, x)) || (g.requireRuntime && RuntimeWrong(g, w, x))
  }

  // ----------------------------------------------------------- the equivalence

  lemma {:induction false} BlockedOnes(items: seq<GateItem>)
    ensures Remaining(items) == [] <==> forall i | 0 <= i < |items| :: !Blocks(items[i])
    ensures Remaining(items) == ["full_http_rollout_ledger"] <==>
      exists k :: 0 <= k < |items| && Blocks(items[k]) && items[k].id == "full_http_rollout_ledger"
                  && forall j | 0 <= j < |items| && j != k :: !Blocks(items[j])
  {
    if items != [] {
      var n := |items| - 1;
      BlockedOnes(items[..n]);
      var rest := Remaining(items[..n]);
      assert forall i | 0 <= i < n :: items[..n][i] == items[i];
      assert Remaining(items) == rest + if Blocks(items[n]) then [items[n].id] else [];
      hide Remaining;
      hide Blocks;
      if Blocks(items[n]) {
        assert Remaining(items)[|rest|] == items[n].id;
        if rest == [] {
          assert forall j | 0 <= j < |items| && j != n :: !Blocks(items[j]);
        } else {
          assert |Remaining(items)| > 1;
        }
      } else {
        assert Remaining(items) == rest;
        if rest == ["full_http_rollout_ledger"] {
          var k :| 0 <= k < n && Blocks(items[..n][k]) && items[..n][k].id == "full_http_rollout_ledger"
            && forall j | 0 <= j < n && j != k :: !Blocks(items[..n][j]);
          assert forall j | 0 <= j < |items| && j != k :: !Blocks(items[j]);
        }
      }
    }
  }

  lemma ConfigWrongExactly(w: World)
    ensures ConfigCheck(w.config).failures == [] <==> forall x: RunFlaw :: !ConfigWrong(w, x)
  {
    hide Lower;
    if forall x: RunFlaw :: !ConfigWrong(w, x) {
      assert !ConfigWrong(w, ConfigSilent) && !ConfigWrong(w, AuthorityNotReady) && !ConfigWrong(w, FallbackLeft);
      assert !ConfigWrong(w, CallersInactive) && !ConfigWrong(w, PoolMissing) && !ConfigWrong(w, PoolUnusable);
    }
  }

  lemma RuntimeWrongExactly(g: GateArgs, w: World)
    ensures
      && w.runtime.RuntimeRead? && Countable(w.runtime.data)
      && RuntimeOk(w.runtime.data, g.expectCommit, g.allowPendingLedger) <==>
      forall x: RunFlaw :: !RuntimeWrong(g, w, x)
  {
    hide NormalizeCommit;
    if w.runtime.RuntimeRead? { BlockedOnes(w.runtime.data.items); }
    hide Remaining;
    hide Blocks;
    if forall x: RunFlaw :: !RuntimeWrong(g, w, x) {
      assert !RuntimeWrong(g, w, RuntimeSilent) && !RuntimeWrong(g, w, RuntimeUncounted);
      assert !RuntimeWrong(g, w, RuntimeOtherCommit) && !RuntimeWrong(g, w, RuntimeUnready);
      if !WaitsForOwnLine(g, w.runtime.data.items) {
        forall i: nat | i < |w.runtime.data.items| ensures !Blocks(w.runtime.data.items[i]) {
          assert !RuntimeWrong(g, w, RuntimeBlocked(i));
        }
      }
    } else {
      var x: RunFlaw :| RuntimeWrong(g, w, x);
    }
  }

  lemma CellWrongExactly(g: GateArgs, c: Cell, a: ShadowAnswer, i: nat)
    ensures ShadowOk(c, a, g.minCoverage) <==> forall x: RunFlaw | IndexOf(x) == Some(i) :: !CellWrong(g, c, a, x)
  {
    if forall x: RunFlaw | IndexOf(x) == Some(i) :: !CellWrong(g, c, a, x) {
      assert !CellWrong(g, c, a, CellUnanswered(i)) && !CellWrong(g, c, a, CellTooFew(i));
      assert !CellWrong(g, c, a, CellTooShort(i)) && !CellWrong(g, c, a, CellCritical(i));
      assert !CellWrong(g, c, a, CellHttpFailed(i));
    }
  }

  ghost predicate Flawless(g: GateArgs, w: World) {
    forall x: RunFlaw :: !RunFlawed(g, w, x)
  }

  lemma CleanIsFlawless(g: GateArgs, w: World)
    requires g.base != "" && g.key != "" && RunClean(g, w) && !RuntimeCrash(g, w)
    ensures Flawless(g, w)
  {
    CellsAreRequests(g);
    if g.requireConfig { ConfigWrongExactly(w); }
    if g.requireRuntime { RuntimeWrongExactly(g, w); }
    hide ConfigCheck;
    hide RuntimeOk;
    hide Countable;
    hide Strip;
    hide ConfigWrong;
    hide RuntimeWrong;
    hide Cells;
    hide Request;
    hide Requests;
    hide ShadowOk;
    hide CellWrong;
    forall x: RunFlaw ensures !RunFlawed(g, w, x) {
      if IndexOf(x).Some? && IndexOf(x).value < Requests(g) {
        var i := IndexOf(x).value;
        assert Request(g, i) == Some(Cells(g)[i]);
        CellWrongExactly(g, Cells(g)[i], w.shadow(i), i);
      }
    }
  }

  lemma WellFormedIfFlawless(g: GateArgs, w: World)
    requires Flawless(g, w)
    ensures g.base != "" && g.key != "" && w.healthFailures == [] && w.protocolFailures == []
    ensures WellFormed(g.kinds) && WellFormed(g.appKinds)
    ensures g.requireConfig || g.requireRuntime ==> ConsoleReady(g, w)
  {
    hide Strip;
    assert !RunFlawed(g, w, NoBase) && !RunFlawed(g, w, NoKey);
    assert !RunFlawed(g, w, HealthFailed) && !RunFlawed(g, w, ProtocolFailed);
    assert !RunFlawed(g, w, NoConsole) && !RunFlawed(g, w, NoLogin);
    forall c | c in g.kinds ensures c.Some? {
      var i :| 0 <= i < |g.kinds| && g.kinds[i] == c;
      assert !RunFlawed(g, w, KindMalformed(i));
    }
    forall c | c in g.appKinds ensures c.Some? {
      var i :| 0 <= i < |g.appKinds| && g.appKinds[i] == c;
      assert !RunFlawed(g, w, AppKindMalformed(i));
    }
  }

  lemma ConsoleFlaw(g: GateArgs, w: World, x: RunFlaw)
    ensures g.requireConfig && ConfigWrong(w, x) ==> RunFlawed(g, w, x)
    ensures g.requireRuntime && RuntimeWrong(g, w, x) ==> RunFlawed(g, w, x)
  {
    hide NormalizeCommit;
    hide WaitsForOwnLine;
    hide Blocks;
    hide Lower;
    hide NotZero;
  }

  lemma FlawlessIsClean(g: GateArgs, w: World)
    requires Flawless(g, w)
    ensures g.base != "" && g.key != "" && RunClean(g, w) && !RuntimeCrash(g, w)
    ensures forall i | 0 <= i < |Cells(g)| :: w.shadow(i).ShadowSummary?
  {
    WellFormedIfFlawless(g, w);
    CellsAreRequests(g);
    hide ConfigCheck;
    hide RuntimeOk;
    hide Countable;
    hide ConsoleReady;
    hide ConfigWrong;
    hide RuntimeWrong;
    hide Cells;
    hide Request;
    hide Requests;
    hide CellWrong;
    forall x: RunFlaw
      ensures g.requireConfig ==> !ConfigWrong(w, x)
      ensures g.requireRuntime ==> !RuntimeWrong(g, w, x)
    {
      ConsoleFlaw(g, w, x);
      assert !RunFlawed(g, w, x);
    }
    if g.requireConfig { ConfigWrongExactly(w); }
    if g.requireRuntime { RuntimeWrongExactly(g, w); }
    forall i: nat | i < |Cells(g)| ensures ShadowOk(Cells(g)[i], w.shadow(i), g.minCoverage) {
      assert Request(g, i) == Some(Cells(g)[i]);
      forall x: RunFlaw | IndexOf(x) == Some(i) ensures !CellWrong(g, Cells(g)[i], w.shadow(i), x) {
        assert !RunFlawed(g, w, x);
      }
      CellWrongExactly(g, Cells(g)[i], w.shadow(i), i);
    }
  }

  /** A gate run passes exactly when nothing was wrong with its arguments and
      with any answer it got. */
  lemma PassesExactly(g: GateArgs, w: World)
    ensures Passed(g, w) <==> Flawless(g, w)
  {
    if Flawless(g, w) { FlawlessIsClean(g, w); }
    hide Flawless;
    hide RunClean;
    hide RuntimeCrash;
    hide Cells;
    hide BareReport;
    hide ConfigSection;
    hide RuntimeSection;
    hide ShadowResults;
    if Passed(g, w) {
      CleanIsFlawless(g, w);
    }
  }

  /** It leaves no report exactly when an answer could not be coerced, and exits
      2 exactly without a base or a key. */
  lemma DiesExactly(g: GateArgs, w: World)
    ensures GateRunOf(g, w).Crashed? <==>
      && |g.base| > 0 && |g.key| > 0
      && (|| (exists i :: 0 <= i < |Cells(g)| && w.shadow(i) == ShadowCrash)
          || (&& g.requireRuntime && w.runtime.RuntimeRead? && RuntimeWrong(g, w, RuntimeUncounted)
              && (exists c | c in Strip(g.consoleBase) :: c != '/') && (Strip(g.token) != "" || w.login == Granted)))
    ensures GateRunOf(g, w).Written? ==>
              (GateRunOf(g, w).exitCode == 2 <==> RunFlawed(g, w, NoBase) || RunFlawed(g, w, NoKey))
    ensures GateRunOf(g, w).Written? ==> GateRunOf(g, w).exitCode in {0, 1, 2}
  {
    hide RunClean;
    hide Strip;
    hide NormalizeCommit;
    hide Cells;
    hide BareReport;
    hide ConfigSection;
    hide RuntimeSection;
    hide ShadowResults;
    hide WaitsForOwnLine;
    hide Blocks;
    hide Lower;
  }

  // --------------------------------------------------------------- the report

  /** What the report of a finished run repeats of cell `i`. */
  ghost predicate TellsCell(p: Payload, g: GateArgs, w: World, i: nat)
    requires i < |p.shadowChecks|
  {
    && p.shadowChecks[i].releaseCommit
       == NormalizeCommit(if |g.shadowReleaseCommit| > 0 then NormalizeCommit(g.shadowReleaseCommit)
                          else NormalizeCommit(g.expectCommit))
    && (if w.shadow(i).ShadowSummary? then
          p.shadowChecks[i].critical == w.shadow(i).critical && p.shadowChecks[i].httpFail == w.shadow(i).httpFail
        else p.shadowChecks[i].critical == 0 == p.shadowChecks[i].httpFail)
    && i < |Cells(g)| && p.shadowChecks[i].name == Cells(g)[i].app + "/" + Cells(g)[i].kind
    && (p.shadowChecks[i].ok <==>
          forall x: RunFlaw | IndexOf(x) == Some(i) :: !CellWrong(g, Cells(g)[i], w.shadow(i), x))
  }

  /** A counter as the report shows it. */
  predicate Shows(v: Option<int>, r: RawInt) {
    v == match r
      case Absent => Some(0)
      case Number(n) => Some(n)
      case Junk => Some(-1)
  }

  /** A section the run never came to fill in. */
  predicate Untold(c: ConfigReport, required: bool) {
    && c.required == required && !c.ok && c.status == "not-required" && (|c.failures| > 0 <==> required)
    && None == c.mapFallbackObjectsRemaining == c.activeMissingPool == c.activeWithoutUsable == c.readinessPercent
    && c.activeReady == None
  }

  predicate UntoldRuntime(r: RuntimeReport, required: bool) {
    && r.required == required && !r.ok && !r.readyForHttpFull && !r.selfFinalizing && r.counters == None
    && |r.remaining| == 0 == |r.allowedPending|
  }

  /** A config answer that could not be read. */
  predicate TellsSilence(c: ConfigReport) {
    && c.required && !c.ok && c.status == "unknown" && |c.failures| > 0 && c.activeReady == Some(false)
    && None == c.mapFallbackObjectsRemaining == c.activeMissingPool == c.activeWithoutUsable == c.readinessPercent
  }

  predicate TellsConfig(c: ConfigReport, a: ConfigAnswer)
    requires a.ConfigSummary?
  {
    && c.required && c.status == a.status && c.activeReady == Some(a.activeReady)
    && ("status" in c.failures <==> Lower(a.status) != "ready")
    && ("mapFallbackObjectsRemaining" in c.failures <==> NotZero(a.mapRemaining))
    && ("activeAppCallerMapFallbackReady" in c.failures <==> !a.activeReady)
    && ("activeMissingGatewayPool" in c.failures <==> NotZero(a.activeMissing))
    && ("activeBoundPoolWithoutUsableMember" in c.failures <==> NotZero(a.withoutUsable))
    && Shows(c.mapFallbackObjectsRemaining, a.mapRemaining) && Shows(c.activeMissingPool, a.activeMissing)
    && Shows(c.activeWithoutUsable, a.withoutUsable)
    && (if a.readiness.Junk? then c.readinessPercent == None else Shows(c.readinessPercent, a.readiness))
    && (c.ok <==> |c.failures| == 0)
  }

  ghost predicate TellsRuntime(r: RuntimeReport, d: RuntimeData, g: GateArgs) {
    && r.required && r.readyForHttpFull == d.ready
    && (r.selfFinalizing <==> WaitsForOwnLine(g, d.items))
    && r.allowedPending == (if WaitsForOwnLine(g, d.items) then ["full_http_rollout_ledger"] else [])
    && (r.ok <==> forall x: RunFlaw | x != RuntimeUncounted :: !RuntimeDataWrong(g, d, x))
    && r.counters.Some?
    && Shows(Some(r.counters.value.passed), d.passed) && Shows(Some(r.counters.value.blocked), d.blocked)
    && Shows(Some(r.counters.value.waiting), d.waiting) && Shows(Some(r.counters.value.retained), d.retained)
    && (forall id :: id in r.remaining <==> exists i :: 0 <= i < |d.items| && Blocks(d.items[i]) && d.items[i].id == id)
  }

  lemma {:induction false} RemainingMembers(items: seq<GateItem>, id: string)
    ensures id in Remaining(items) <==> exists i :: 0 <= i < |items| && Blocks(items[i]) && items[i].id == id
  {
    if items != [] {
      var n := |items| - 1;
      RemainingMembers(items[..n], id);
      assert forall i | 0 <= i < n :: items[..n][i] == items[i];
      hide Lower;
      if i :| 0 <= i < n && Blocks(items[..n][i]) && items[..n][i].id == id { assert Blocks(items[i]); }
    }
  }

  /** The console was reachable: a base that names something, and a token or a
      login. */
  predicate Reached(g: GateArgs, w: World) {
    (exists c | c in Strip(g.consoleBase) :: c != '/') && (Strip(g.token) != "" || w.login == Granted)
  }

  predicate ConfigTold(c: ConfigReport, g: GateArgs, w: World) {
    if !g.requireConfig || !Reached(g, w) then Untold(c, g.requireConfig)
    else if w.config.ConfigUnreadable? then TellsSilence(c)
    else TellsConfig(c, w.config)
  }

  ghost predicate RuntimeTold(r: RuntimeReport, g: GateArgs, w: World) {
    if !g.requireRuntime || !Reached(g, w) then UntoldRuntime(r, g.requireRuntime)
    else TellsRuntime(r, if w.runtime.RuntimeRead? then w.runtime.data else NO_DATA, g)
  }

  lemma ConfigIsTold(g: GateArgs, w: World)
    ensures ConfigTold(ConfigSection(g, w), g, w)
  {
    hide Strip;
    hide TellsConfig;
    if w.config.ConfigSummary? {
      SummaryIsTold(w.config);
      hide ConfigCheck;
    }
  }

  lemma SummaryIsTold(a: ConfigAnswer)
    requires a.ConfigSummary?
    ensures TellsConfig(ConfigCheck(a), a)
  {
    FiveNames(Lower(a.status) != "ready", NotZero(a.mapRemaining), !a.activeReady, NotZero(a.activeMissing),
      NotZero(a.withoutUsable));
    hide Lower;
  }

  lemma FiveNames(p: bool, q: bool, r: bool, s: bool, t: bool)
    ensures
      var names :=
        (if p then ["status"] else []) + (if q then ["mapFallbackObjectsRemaining"] else [])
        + (if r then ["activeAppCallerMapFallbackReady"] else []) + (if s then ["activeMissingGatewayPool"] else [])
        + (if t then ["activeBoundPoolWithoutUsableMember"] else []);
      && ("status" in names <==> p) && ("mapFallbackObjectsRemaining" in names <==> q)
      && ("activeAppCallerMapFallbackReady" in names <==> r) && ("activeMissingGatewayPool" in names <==> s)
      && ("activeBoundPoolWithoutUsableMember" in names <==> t)
  {
    var a, b, c, d, e := "status", "mapFallbackObjectsRemaining", "activeAppCallerMapFallbackReady",
      "activeMissingGatewayPool", "activeBoundPoolWithoutUsableMember";
    assert |a| == 6 && |b| == 27 && |c| == 31 && |d| == 24 && |e| == 34;
    OneOfNames(p, q, r, s, t, a, b, c, d, e);
  }

  lemma OneOfNames(
    p: bool, q: bool, r: bool, s: bool, t: bool, a: string, b: string, c: string, d: string, e: string)
    requires |a| == 6 && |b| == 27 && |c| == 31 && |d| == 24 && |e| == 34
    ensures
      var names :=
        (if p then [a] else []) + (if q then [b] else []) + (if r then [c] else []) + (if s then [d] else [])
        + (if t then [e] else []);
      (a in names <==> p) && (b in names <==> q) && (c in names <==> r) && (d in names <==> s) && (e in names <==> t)
  {
    assert a != b && a != c && a != d && a != e && b != c && b != d && b != e && c != d && c != e && d != e;
  }

  /** The blocking gates are listed in their order. */
  lemma {:induction false} RemainingInOrder(a: seq<GateItem>, b: seq<GateItem>)
    ensures Remaining(a + b) == Remaining(a) + Remaining(b)
    ensures |b| == 1 ==> Remaining(b) == if Blocks(b[0]) then [b[0].id] else []
  {
    if b == [] {
      assert a + b == a;
    } else {
      var n := |b| - 1;
      assert (a + b)[..|a + b| - 1] == a + b[..n];
      RemainingInOrder(a, b[..n]);
    }
  }

  lemma DataWrongExactly(g: GateArgs, d: RuntimeData)
    ensures RuntimeOk(d, g.expectCommit, g.allowPendingLedger) <==>
              forall x: RunFlaw | x != RuntimeUncounted :: !RuntimeDataWrong(g, d, x)
    ensures g.allowPendingLedger && Remaining(d.items) == PENDING_LEDGER <==> WaitsForOwnLine(g, d.items)
  {
    hide NormalizeCommit;
    BlockedOnes(d.items);
    hide Remaining;
    hide Blocks;
    if forall x: RunFlaw | x != RuntimeUncounted :: !RuntimeDataWrong(g, d, x) {
      assert !RuntimeDataWrong(g, d, RuntimeOtherCommit) && !RuntimeDataWrong(g, d, RuntimeUnready);
      if !WaitsForOwnLine(g, d.items) {
        forall i: nat | i < |d.items| ensures !Blocks(d.items[i]) { assert !RuntimeDataWrong(g, d, RuntimeBlocked(i)); }
      }
    }
  }

  lemma RuntimeIsTold(g: GateArgs, w: World)
    ensures RuntimeTold(RuntimeSection(g, w), g, w)
  {
    hide Strip;
    hide RuntimeOk;
    hide WaitsForOwnLine;
    hide RuntimeDataWrong;
    var d := if w.runtime.RuntimeRead? then w.runtime.data else NO_DATA;
    DataWrongExactly(g, d);
    forall id ensures id in Remaining(d.items) <==>
      exists i :: 0 <= i < |d.items| && Blocks(d.items[i]) && d.items[i].id == id
    {
      RemainingMembers(d.items, id);
    }
    hide Remaining;
    hide Blocks;
  }

  lemma CellIsTold(g: GateArgs, w: World, p: Payload, i: nat)
    requires i < |Cells(g)| && p.shadowChecks == ShadowResults(g, w, Cells(g))
    ensures TellsCell(p, g, w, i)
  {
    CellWrongExactly(g, Cells(g)[i], w.shadow(i), i);
    hide Cells;
    hide NormalizeCommit;
    hide ShadowOk;
    hide CellWrong;
  }

  /** The report of a run that got to its end: the verdict of its exit code,
      the commit and the thresholds it was called with, and what it was told
      about every cell, the config authority and the runtime gates. */
  lemma ReportTells(g: GateArgs, w: World)
    requires GateRunOf(g, w).Written? && GateRunOf(g, w).exitCode != 2
    ensures
      var r := GateRunOf(g, w);
      var p := r.report;
      && p.verdict == (if r.exitCode == 0 then "pass" else "fail") && (p.clean <==> r.exitCode == 0)
      && p.expectedCommit == g.expectCommit
      && p.thresholds == Thresholds(g.skipGlobal, Some(g.minTotal), Some(g.minPerApp))
      && |p.shadowChecks| == |Cells(g)| && (forall i | 0 <= i < |p.shadowChecks| :: TellsCell(p, g, w, i))
      && ConfigTold(p.config, g, w) && RuntimeTold(p.runtime, g, w)
  {
    ConfigIsTold(g, w);
    RuntimeIsTold(g, w);
    hide RunClean;
    hide RuntimeCrash;
    hide ConfigSection;
    hide RuntimeSection;
    hide ConfigTold;
    hide RuntimeTold;
    hide Cells;
    hide TellsCell;
    var p := GateRunOf(g, w).report;
    forall i: nat | i < |Cells(g)| ensures TellsCell(p, g, w, i) { CellIsTold(g, w, p, i); }
  }

  /** A run without a base or a key leaves a failing report that tells nothing. */
  lemma BareTellsNothing(g: GateArgs, w: World)
    requires |g.base| == 0 || |g.key| == 0
    ensures GateRunOf(g, w).Written?
    ensures
      var p := GateRunOf(g, w).report;
      && p.verdict == "fail" && !p.clean && p.shadowChecks == [] && p.expectedCommit == g.expectCommit
      && p.config.required == g.requireConfig && !p.config.ok && p.runtime.required == g.requireRuntime && !p.runtime.ok
      && p.thresholds == Thresholds(g.skipGlobal, Some(g.minTotal), Some(g.minPerApp))
  {
    hide NormalizeCommit;
    hide RunClean;
    hide Cells;
  }

  /** In particular every sample of a passing report is clean. */
  lemma PassedSamplesAreClean(g: GateArgs, w: World)
    requires Passed(g, w)
    ensures |ReportOf(g, w).shadowChecks| == Requests(g)
    ensures forall c | c in ReportOf(g, w).shadowChecks :: c.ok && c.critical == 0 && c.httpFail == 0
  {
    PassesExactly(g, w);
    FlawlessIsClean(g, w);
    PassedIsClean(g, w);
    CellsAreRequests(g);
    hide Flawless;
    hide ConfigCheck;
    hide RuntimeOk;
    hide GateRunOf;
    hide Cells;
    hide NormalizeCommit;
    hide Requests;
    hide Request;
    forall c | c in ReportOf(g, w).shadowChecks ensures c.ok && c.critical == 0 && c.httpFail == 0 {
      var i :| 0 <= i < |ReportOf(g, w).shadowChecks| && ReportOf(g, w).shadowChecks[i] == c;
      assert ShadowOk(Cells(g)[i], w.shadow(i), g.minCoverage);
    }
  }
}
