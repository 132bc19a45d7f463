/** The report the release gate writes, read by the ledger's reader: a
    contract across two scripts. */
module GateContract {
  import opened Text
  import opened Evidence
  import opened ReleaseGateWriter

  /** The gate run ended with a passing report. */
  predicate Passed(g: GateArgs, w: World) {
    var r := GateRunOf(g, w);
    r.Written? && r.exitCode == 0
  }

  function ReportOf(g: GateArgs, w: World): Payload
    requires Passed(g, w)
  {
    GateRunOf(g, w).report
  }

  lemma PassedIsClean(g: GateArgs, w: World)
    requires Passed(g, w)
    ensures RunClean(g, w)
    ensures Lower(ReportOf(g, w).verdict) == "pass"
    ensures ReportOf(g, w).config == ConfigSection(g, w)
    ensures ReportOf(g, w).runtime == RuntimeSection(g, w)
    ensures ReportOf(g, w).shadowChecks == ShadowResults(g, w, Cells(g))
    ensures ReportOf(g, w).shadowReleaseCommit == ReportCommit(g)
    ensures ReportOf(g, w).thresholds == Thresholds(g.skipGlobal, Some(g.minTotal), Some(g.minPerApp))
  {
    hide RunClean;
    hide ConfigSection;
    hide RuntimeSection;
    hide Cells;
    hide ReportCommit;
    assert Lower("pass") == "pass";
  }

  /** A config section of a clean run is readable in exactly one way: as a
      ready authority when it was required, as an explicit skip otherwise. */
  lemma ConfigSectionReads(g: GateArgs, w: World, allowSkip: bool)
    requires RunClean(g, w)
    ensures ConfigPartOk(ConfigSection(g, w), allowSkip) <==> g.requireConfig || allowSkip
  {
    hide ConsoleReady;
    hide RuntimeOk;
    hide Cells;
    assert Lower("not-required") == "not-required";
  }

  /** The same for the runtime section; a run that only waits for its own
      ledger line counts as ready. */
  lemma RuntimeSectionReads(g: GateArgs, w: World, allowSkip: bool)
    requires RunClean(g, w)
    ensures RuntimePartOk(RuntimeSection(g, w), allowSkip) <==> g.requireRuntime || allowSkip
  {
    hide ConsoleReady;
    hide ConfigCheck;
    hide Cells;
    hide Remaining;
    hide NormalizeCommit;
  }

  lemma ShadowChecksRead(g: GateArgs, w: World, allowSkip: bool)
    requires Passed(g, w)
    ensures
      var p, expected := ReportOf(g, w), NormalizeCommit(ReportCommit(g));
      ShadowPartOk(p, expected, allowSkip) <==>
        if Cells(g) == [] then allowSkip && g.minTotal == 0 && g.minPerApp == 0
        else Settled(expected)
  {
    PassedIsClean(g, w);
    var p, expected := ReportOf(g, w), NormalizeCommit(ReportCommit(g));
    NormalizeTwice(ReportCommit(g));
    hide NormalizeCommit;
    hide Settled;
    hide GateRunOf;
    hide RunClean;
    hide ReportCommit;
    if Cells(g) == [] {
      NoCells(g);
    } else {
      hide Cells;
      assert p.shadowChecks[0] in p.shadowChecks;
      assert p.shadowChecks[0].releaseCommit == expected;
      assert forall c | c in p.shadowChecks :: c.releaseCommit == expected;
    }
  }

  /** Only a run that skips the global cell can have no cell at all. */
  lemma NoCells(g: GateArgs)
    requires Cells(g) == []
    ensures g.skipGlobal
  {
  }

  /** Exactly when the ledger accepts a passing report: for its own commit,
      and with an allowance for every part the run left out. */
  lemma ReaderAcceptsExactly(g: GateArgs, w: World, commit: string, requireConfig: bool, allow: Allowances)
    requires Passed(g, w)
    ensures GateAccepts(ReportOf(g, w), commit, requireConfig, allow) <==>
      && NormalizeCommit(commit) != ""
      && NormalizeCommit(ReportCommit(g)) == NormalizeCommit(commit)
      && (if Cells(g) == [] then allow.shadow && g.minTotal == 0 && g.minPerApp == 0
          else Settled(NormalizeCommit(commit)))
      && (requireConfig ==> (g.requireConfig || allow.config) && (g.requireRuntime || allow.runtime))
  {
    PassedIsClean(g, w);
    ConfigSectionReads(g, w, allow.config);
    RuntimeSectionReads(g, w, allow.runtime);
    if NormalizeCommit(ReportCommit(g)) == NormalizeCommit(commit) { ShadowChecksRead(g, w, allow.shadow); }
    hide NormalizeCommit;
    hide Settled;
    hide GateRunOf;
    hide ConfigPartOk;
    hide RuntimePartOk;
    hide ShadowPartOk;
    hide ConfigSection;
    hide RuntimeSection;
    hide RunClean;
    hide Cells;
  }

  /** A full gate, with both switches and the global cell on, needs no
      allowance at `http-full`. */
  lemma FullGateNeedsNoAllowance(g: GateArgs, w: World)
    requires Passed(g, w) && g.requireConfig && g.requireRuntime && !g.skipGlobal
    requires NormalizeCommit(ReportCommit(g)) != "" && Settled(NormalizeCommit(ReportCommit(g)))
    ensures GateAccepts(ReportOf(g, w), ReportCommit(g), true, Allowances(false, false, false))
  {
    hide NormalizeCommit;
    hide Settled;
    hide GateAccepts;
    hide Passed;
    assert Cells(g)[0] == Cell("global", "", g.minTotal);
    ReaderAcceptsExactly(g, w, ReportCommit(g), true, Allowances(false, false, false));
  }

  /** A gate with both switches off and no cell to ask for is accepted at
      `http-full` only when every allowance is on. */
  lemma BareGateNeedsEveryAllowance(g: GateArgs, w: World, allow: Allowances)
    requires Passed(g, w) && !g.requireConfig && !g.requireRuntime
    requires Cells(g) == [] && g.minTotal == 0 && g.minPerApp == 0
    requires NormalizeCommit(ReportCommit(g)) != ""
    ensures GateAccepts(ReportOf(g, w), ReportCommit(g), true, allow) <==> allow == Allowances(true, true, true)
  {
    hide NormalizeCommit;
    hide Settled;
    hide GateAccepts;
    hide Passed;
    hide Cells;
    ReaderAcceptsExactly(g, w, ReportCommit(g), true, allow);
  }

  /** A self-finalizing report: not ready, but the only gate left is the
      ledger line this very stage is about to write. */
  lemma SelfFinalizingRuns(g: GateArgs, w: World)
    requires Passed(g, w) && g.requireRuntime
    requires w.runtime.RuntimeRead? && !w.runtime.data.ready
    ensures g.allowPendingLedger && PendingLedgerOnly(ReportOf(g, w).runtime)
    ensures !ReportOf(g, w).runtime.readyForHttpFull
  {
    PassedIsClean(g, w);
    hide GateRunOf;
    hide ConfigSection;
    hide Cells;
    hide Remaining;
    hide NormalizeCommit;
  }
}
