/** `llmgw-backup-retention.py`: which full backups are kept, and what an
    executed prune removes. */
module BackupRetention {
  import opened Text

  datatype Period = Day | Week | Month

  /** A full backup. The three bucket labels are derived from its time;
      `archives` says of each archive whether its checksum verifies. */
  datatype Backup = Backup(
    path: string,
    modifiedAt: int,
    day: string,
    week: string,
    month: string,
    archives: seq<bool>)

  function Bucket(b: Backup, p: Period): string {
    match p
    case Day => b.day
    case Week => b.week
    case Month => b.month
  }

  datatype Policy = Policy(daily: int, weekly: int, monthly: int)

  function Paths(backups: seq<Backup>): set<string> {
    set b | b in backups :: b.path
  }

  function Buckets(backups: seq<Backup>, p: Period): set<string> {
    set b | b in backups :: Bucket(b, p)
  }

  predicate UniquePaths(backups: seq<Backup>) {
    forall i, j | 0 <= i < j < |backups| :: backups[i].path != backups[j].path
  }

  // -------------------------------------------------------- specification

  /** What the loop of one period still adds, once `seen` buckets are taken. */
  function KeepFrom(backups: seq<Backup>, p: Period, seen: set<string>, limit: int): set<string> {
    if backups == [] then {}
    else if Bucket(backups[0], p) in seen then KeepFrom(backups[1..], p, seen, limit)
    else if |seen| >= limit then {}
    else {backups[0].path} + KeepFrom(backups[1..], p, seen + {Bucket(backups[0], p)}, limit)
  }

  function Newest(backups: seq<Backup>): set<string> {
    if backups == [] then {} else {backups[0].path}
  }

  function Keep(backups: seq<Backup>, policy: Policy): set<string> {
    KeepFrom(backups, Day, {}, policy.daily)
    + KeepFrom(backups, Week, {}, policy.weekly)
    + KeepFrom(backups, Month, {}, policy.monthly)
    + Newest(backups)
  }

  /** A backup the policy speaks for: the first listed of its bucket, with
      fewer than `limit` distinct buckets listed before it. */
  predicate FirstOfBucket(backups: seq<Backup>, p: Period, limit: int, i: nat)
    requires i < |backups|
  {
    Bucket(backups[i], p) !in Buckets(backups[..i], p) && |Buckets(backups[..i], p)| < limit
  }

  predicate Intact(b: Backup) {
    b.archives != [] && forall i | 0 <= i < |b.archives| :: b.archives[i]
  }

  function Without(backups: seq<Backup>, gone: set<string>): seq<Backup> {
    if backups == [] then []
    else (if backups[0].path in gone then [] else [backups[0]]) + Without(backups[1..], gone)
  }

  const CONFIRM_PHRASE := "DELETE_REDUNDANT_FULL_BACKUPS"

  /** The arguments `main` accepts before it looks at any backup. */
  predicate ArgumentsOk(policy: Policy, minimumFullMb: int, execute: bool, confirm: string) {
    && policy.daily >= 0 && policy.weekly >= 0 && policy.monthly >= 0 && minimumFullMb >= 0
    && (execute ==> confirm == CONFIRM_PHRASE)
  }

  /** What one prune run may rely on and spare. */
  datatype PruneArgs = PruneArgs(policy: Policy, protect: set<string>, cutoff: int)

  function Spared(backups: seq<Backup>, a: PruneArgs): set<string> {
    Keep(backups, a.policy) + a.protect
  }

  predicate Candidate(b: Backup, spared: set<string>, cutoff: int) {
    b.path !in spared && b.modifiedAt <= cutoff
  }

  function CandidatePaths(backups: seq<Backup>, spared: set<string>, cutoff: int): set<string> {
    set b | b in backups && Candidate(b, spared, cutoff) :: b.path
  }

  /** The candidates as the script reports and deletes them, newest first. */
  function CandidateList(backups: seq<Backup>, spared: set<string>, cutoff: int): seq<Backup> {
    if backups == [] then []
    else
      var n := |backups| - 1;
      CandidateList(backups[..n], spared, cutoff)
      + if Candidate(backups[n], spared, cutoff) then [backups[n]] else []
  }

  lemma {:induction false} CandidateListMembers(backups: seq<Backup>, spared: set<string>, cutoff: int)
    ensures forall b :: b in CandidateList(backups, spared, cutoff) <==> b in backups && Candidate(b, spared, cutoff)
  {
    if backups != [] {
      var n := |backups| - 1;
      assert backups == backups[..n] + [backups[n]];
      CandidateListMembers(backups[..n], spared, cutoff);
    }
  }

  predicate Vouched(backups: seq<Backup>, spared: set<string>) {
    exists b | b in backups :: b.path in spared && Intact(b)
  }

  /** The backups an executed run leaves: all of them when no spared backup
      verifies, otherwise all but the candidates. */
  function Pruned(backups: seq<Backup>, a: PruneArgs): seq<Backup> {
    var spared := Spared(backups, a);
    if Vouched(backups, spared) then Without(backups, CandidatePaths(backups, spared, a.cutoff)) else backups
  }

  // ------------------------------------------------------------ the script

  /** One period of `select_keep`: walk the listing, keep the first backup of
      every new bucket, stop at the first new bucket past the limit. */
  method KeepPass(backups: seq<Backup>, p: Period, limit: int) returns (keep: set<string>)
    ensures keep == KeepFrom(backups, p, {}, limit)
  {
    keep := {};
    var seen: set<string> := {};
    for i := 0 to |backups|
      invariant keep + KeepFrom(backups[i..], p, seen, limit) == KeepFrom(backups, p, {}, limit)
    {
      assert backups[i..][1..] == backups[i + 1..];
      var bucket := Bucket(backups[i], p);
      if bucket in seen { continue; }
      if |seen| >= limit { break; }
      seen := seen + {bucket};
      keep := keep + {backups[i].path};
    }
  }

  /** `select_keep`. */
  method SelectKeep(backups: seq<Backup>, policy: Policy) returns (keep: set<string>)
    ensures keep == Keep(backups, policy)
  {
    var daily := KeepPass(backups, Day, policy.daily);
    var weekly := KeepPass(backups, Week, policy.weekly);
    var monthly := KeepPass(backups, Month, policy.monthly);
    keep := daily + weekly + monthly;
    if backups != [] { keep := keep + {backups[0].path}; }
  }

  /** `verify_backup`. */
  method VerifyBackup(b: Backup) returns (valid: bool)
    ensures valid <==> Intact(b)
  {
    valid := b.archives != [];
    for i := 0 to |b.archives|
      invariant valid <==> b.archives != [] && forall j | 0 <= j < i :: b.archives[j]
    {
      valid := valid && b.archives[i];
    }
  }

  /** The backup root as `main` sees it: the full backups, newest first. */
  class BackupRoot {
    var full: seq<Backup>

    constructor (full: seq<Backup>)
      ensures this.full == full
    {
      this.full := full;
    }

    /** The first spared backup that verifies, in listing order. */
    method FirstIntact(spared: set<string>) returns (found: Option<Backup>)
      ensures found.None? <==> !Vouched(full, spared)
      ensures found.Some? ==> exists i ::
                && 0 <= i < |full| && full[i] == found.value
                && found.value.path in spared && Intact(found.value)
                && forall j | 0 <= j < i :: !(full[j].path in spared && Intact(full[j]))
    {
      for i := 0 to |full|
        invariant forall j | 0 <= j < i :: !(full[j].path in spared && Intact(full[j]))
      {
        if full[i].path !in spared { continue; }
        var ok := VerifyBackup(full[i]);
        if ok { return Some(full[i]); }
      }
      found := None;
    }

    method Candidates(keep: set<string>, cutoff: int) returns (found: seq<Backup>)
      ensures found == CandidateList(full, keep, cutoff)
      ensures Paths(found) == CandidatePaths(full, keep, cutoff)
    {
      found := [];
      for i := 0 to |full|
        invariant found == CandidateList(full[..i], keep, cutoff)
      {
        assert full[..i + 1][..i] == full[..i];
        if full[i].path !in keep && full[i].modifiedAt <= cutoff { found := found + [full[i]]; }
      }
      assert full[..|full|] == full;
      CandidateListMembers(full, keep, cutoff);
    }

    method Delete(doomed: seq<Backup>)
      modifies this
      ensures full == Without(old(full), Paths(doomed))
    {
      WithoutNothing(full);
      assert Paths(doomed[..0]) == {};
      for i := 0 to |doomed|
        invariant full == Without(old(full), Paths(doomed[..i]))
      {
        assert Paths(doomed[..i + 1]) == Paths(doomed[..i]) + {doomed[i].path} by {
          assert doomed[..i + 1] == doomed[..i] + [doomed[i]];
        }
        WithoutTwice(old(full), Paths(doomed[..i]), {doomed[i].path});
        full := Without(full, {doomed[i].path});
      }
      assert doomed[..|doomed|] == doomed;
    }

    /** The refusals and the keep, verify, candidate and delete steps of
        `main`. None when the script refuses: a negative limit or size, an
        execution without its phrase, or nothing spared that verifies. */
    method Prune(a: PruneArgs, minimumFullMb: int, execute: bool, confirm: string)
      returns (candidates: Option<seq<Backup>>)
      modifies this
      ensures candidates.None? <==>
        || !ArgumentsOk(a.policy, minimumFullMb, execute, confirm)
        || (old(full) != [] && !Vouched(old(full), Spared(old(full), a)))
      ensures candidates.Some? ==>
        candidates.value == CandidateList(old(full), Spared(old(full), a), a.cutoff)
      ensures full == if candidates.Some? && execute then Pruned(old(full), a) else old(full)
    {
      hide CandidatePaths;
      hide CandidateList;
      hide Paths;
      hide Keep;
      if a.policy.daily < 0 || a.policy.weekly < 0 || a.policy.monthly < 0 || minimumFullMb < 0 { return None; }
      if execute && confirm != CONFIRM_PHRASE { return None; }
      var keep := SelectKeep(full, a.policy);
      keep := keep + a.protect;
      var verified := FirstIntact(keep);
      if full != [] && verified.None? { return None; }
      var found := Candidates(keep, a.cutoff);
      if execute { Delete(found); }
      candidates := Some(found);
    }
  }

  lemma {:induction false} WithoutNothing(backups: seq<Backup>)
    ensures Without(backups, {}) == backups
  {
    if backups != [] { WithoutNothing(backups[1..]); }
  }

  lemma {:induction false} WithoutTwice(backups: seq<Backup>, a: set<string>, b: set<string>)
    ensures Without(Without(backups, a), b) == Without(backups, a + b)
  {
    if backups != [] {
      var rest := Without(backups[1..], a);
      WithoutTwice(backups[1..], a, b);
      if backups[0].path in a {
        assert Without(backups, a) == rest;
      } else {
        assert Without(backups, a) == [backups[0]] + rest;
        assert ([backups[0]] + rest)[1..] == rest;
      }
    }
  }

  // ------------------------------------------------------- bounded and safe

  /** One pass keeps at most as many backups as buckets were left to take. */
  lemma {:induction false} KeepFromBounded(backups: seq<Backup>, p: Period, seen: set<string>, limit: int)
    ensures |KeepFrom(backups, p, seen, limit)| <= if limit > |seen| then limit - |seen| else 0
    ensures KeepFrom(backups, p, seen, limit) <= Paths(backups)
  {
    if backups != [] {
      var b := Bucket(backups[0], p);
      assert backups == [backups[0]] + backups[1..];
      KeepFromBounded(backups[1..], p, seen, limit);
      KeepFromBounded(backups[1..], p, seen + {b}, limit);
    }
  }

  /** A pass with a positive limit always keeps the newest backup. */
  lemma KeepFromStart(backups: seq<Backup>, p: Period, limit: int)
    requires backups != [] && limit > 0
    ensures backups[0].path in KeepFrom(backups, p, {}, limit)
  {
  }

  /** `select_keep` keeps at most daily + weekly + monthly backups (one when
      all three are zero), always including the newest, and only listed ones. */
  lemma KeepIsBounded(backups: seq<Backup>, policy: Policy)
    requires policy.daily >= 0 && policy.weekly >= 0 && policy.monthly >= 0
    ensures
      var total := policy.daily + policy.weekly + policy.monthly;
      |Keep(backups, policy)| <= if total > 1 then total else 1
    ensures Newest(backups) <= Keep(backups, policy) <= Paths(backups)
  {
    hide KeepFrom;
    KeepFromBounded(backups, Day, {}, policy.daily);
    KeepFromBounded(backups, Week, {}, policy.weekly);
    KeepFromBounded(backups, Month, {}, policy.monthly);
    var d, w, m := KeepFrom(backups, Day, {}, policy.daily),
      KeepFrom(backups, Week, {}, policy.weekly), KeepFrom(backups, Month, {}, policy.monthly);
    assert |d + w + m| <= |d| + |w| + |m|;
    if backups == [] {
      assert Keep(backups, policy) == d + w + m;
    } else if policy.daily > 0 {
      KeepFromStart(backups, Day, policy.daily);
      assert Keep(backups, policy) == d + w + m;
    } else if policy.weekly > 0 {
      KeepFromStart(backups, Week, policy.weekly);
      assert Keep(backups, policy) == d + w + m;
    } else if policy.monthly > 0 {
      KeepFromStart(backups, Month, policy.monthly);
      assert Keep(backups, policy) == d + w + m;
    }
  }

  /** Which backups one pass keeps, without reference to the loop: exactly the
      first listed of each of the first `limit` distinct buckets. */
  lemma {:induction false} KeepFromIsFirsts(backups: seq<Backup>, p: Period, seen: set<string>, limit: int, i: nat)
    requires UniquePaths(backups) && i < |backups|
    ensures backups[i].path in KeepFrom(backups, p, seen, limit) <==>
      && Bucket(backups[i], p) !in seen + Buckets(backups[..i], p)
      && |seen + Buckets(backups[..i], p)| < limit
  {
    hide KeepFrom;
    hide Buckets;
    hide UniquePaths;
    if i == 0 {
      FirstKept(backups, p, seen, limit);
      NoBuckets(backups, p);
      assert seen + {} == seen;
    } else {
      var b, rest := Bucket(backups[0], p), backups[1..];
      UniqueTail(backups);
      BucketsSplit(backups, p, i);
      LaterKept(backups, p, seen, limit, i);
      KeepFromIsFirsts(rest, p, seen + {b}, limit, i - 1);
      var below := Buckets(rest[..i - 1], p);
      assert seen + ({b} + below) == seen + {b} + below;
      SubsetSize(seen + {b}, seen + {b} + below);
      if b !in seen { assert |seen + {b}| == |seen| + 1; } else { assert seen + {b} == seen; }
      assert backups[i] == rest[i - 1];
    }
  }

  lemma NoBuckets(backups: seq<Backup>, p: Period)
    ensures Buckets(backups[..0], p) == {}
  {
  }

  /** Whether the pass keeps a later backup is decided behind the first. */
  lemma LaterKept(backups: seq<Backup>, p: Period, seen: set<string>, limit: int, i: nat)
    requires UniquePaths(backups) && 0 < i < |backups|
    ensures backups[i].path in KeepFrom(backups, p, seen, limit) <==>
      && (Bucket(backups[0], p) in seen || |seen| < limit)
      && backups[1..][i - 1].path in KeepFrom(backups[1..], p, seen + {Bucket(backups[0], p)}, limit)
  {
    var b := Bucket(backups[0], p);
    if b in seen { assert seen + {b} == seen; }
    assert backups[i].path != backups[0].path;
  }

  lemma BucketsSplit(backups: seq<Backup>, p: Period, i: nat)
    requires 0 < i <= |backups|
    ensures Buckets(backups[..i], p) == {Bucket(backups[0], p)} + Buckets(backups[1..][..i - 1], p)
  {
    assert backups[..i] == [backups[0]] + backups[1..][..i - 1];
  }

  lemma FirstKept(backups: seq<Backup>, p: Period, seen: set<string>, limit: int)
    requires UniquePaths(backups) && backups != []
    ensures backups[0].path in KeepFrom(backups, p, seen, limit) <==>
            Bucket(backups[0], p) !in seen && |seen| < limit
  {
    UniqueTail(backups);
    KeepFromBounded(backups[1..], p, seen, limit);
  }

  lemma SubsetSize<T>(a: set<T>, b: set<T>)
    requires a <= b
    ensures |a| <= |b|
  {
    assert b == a + (b - a);
  }

  lemma KeepIsFirsts(backups: seq<Backup>, policy: Policy, i: nat)
    requires UniquePaths(backups) && i < |backups|
    ensures backups[i].path in Keep(backups, policy) <==>
      || i == 0
      || FirstOfBucket(backups, Day, policy.daily, i)
      || FirstOfBucket(backups, Week, policy.weekly, i)
      || FirstOfBucket(backups, Month, policy.monthly, i)
  {
    hide KeepFrom;
    forall p: Period, limit: int
      ensures backups[i].path in KeepFrom(backups, p, {}, limit) <==> FirstOfBucket(backups, p, limit, i)
    {
      KeepFromIsFirsts(backups, p, {}, limit, i);
      assert {} + Buckets(backups[..i], p) == Buckets(backups[..i], p);
    }
  }

  /** The labels of a listing up to entry `i`. */
  function Labels(backups: seq<Backup>, named: Backup -> string): set<string> {
    set b | b in backups :: named(b)
  }

  /** Entry `i` is the first of its label, with fewer than `limit` labels above. */
  predicate FirstLabelled(backups: seq<Backup>, named: Backup -> string, limit: int, i: nat)
    requires i < |backups|
  {
    named(backups[i]) !in Labels(backups[..i], named) && |Labels(backups[..i], named)| < limit
  }

  /** In calendar terms: kept are the newest, and the first listed backup of
      each of the newest days, weeks and months within their limits. */
  lemma KeepByCalendar(backups: seq<Backup>, policy: Policy, i: nat)
    requires UniquePaths(backups) && i < |backups|
    ensures backups[i].path in Keep(backups, policy) <==>
      || i == 0
      || FirstLabelled(backups, (b: Backup) => b.day, policy.daily, i)
      || FirstLabelled(backups, (b: Backup) => b.week, policy.weekly, i)
      || FirstLabelled(backups, (b: Backup) => b.month, policy.monthly, i)
  {
    KeepIsFirsts(backups, policy, i);
    hide Keep;
    assert Buckets(backups[..i], Day) == Labels(backups[..i], (b: Backup) => b.day);
    assert Buckets(backups[..i], Week) == Labels(backups[..i], (b: Backup) => b.week);
    assert Buckets(backups[..i], Month) == Labels(backups[..i], (b: Backup) => b.month);
  }

  lemma {:induction false} WithoutMembers(backups: seq<Backup>, gone: set<string>)
    ensures forall b :: b in Without(backups, gone) <==> b in backups && b.path !in gone
  {
    if backups != [] { WithoutMembers(backups[1..], gone); }
  }

  /** An executed prune leaves exactly the kept, the protected and the too
      young, and among them a spared backup whose checksums verify. */
  lemma PruneIsSafe(backups: seq<Backup>, a: PruneArgs)
    requires UniquePaths(backups) && Vouched(backups, Spared(backups, a))
    ensures forall b :: b in Pruned(backups, a) <==>
      b in backups && (b.path in Keep(backups, a.policy) || b.path in a.protect || b.modifiedAt > a.cutoff)
    ensures exists b | b in Pruned(backups, a) ::
              (b.path in Keep(backups, a.policy) || b.path in a.protect) && |b.archives| > 0 && false !in b.archives
  {
    hide Keep;
    var spared := Spared(backups, a);
    var gone := CandidatePaths(backups, spared, a.cutoff);
    WithoutMembers(backups, gone);
    forall b | b in backups ensures b.path in gone <==> Candidate(b, spared, a.cutoff) {
      SamePathSameBackup(backups, b);
    }
    var v :| v in backups && v.path in spared && Intact(v);
    assert v in Pruned(backups, a);
  }

  /** A listing vouches for a prune exactly when some spared backup has an
      archive and no archive of it fails its checksum. */
  lemma VouchedExactly(backups: seq<Backup>, spared: set<string>)
    ensures Vouched(backups, spared) <==>
      exists i ::
        0 <= i < |backups| && backups[i].path in spared && |backups[i].archives| > 0 && false !in backups[i].archives
  {
    forall b: Backup ensures Intact(b) <==> |b.archives| > 0 && false !in b.archives {}
    hide Intact;
    if Vouched(backups, spared) {
      var b :| b in backups && b.path in spared && Intact(b);
      var i :| 0 <= i < |backups| && backups[i] == b;
    }
  }

  /** Without such a backup nothing is pruned. */
  lemma UnvouchedKeepsAll(backups: seq<Backup>, a: PruneArgs)
    requires forall b | b in backups && (b.path in Keep(backups, a.policy) || b.path in a.protect) ::
               |b.archives| == 0 || false in b.archives
    ensures Pruned(backups, a) == backups
  {
    hide Keep;
    hide CandidatePaths;
    VouchedExactly(backups, Spared(backups, a));
  }

  /** The arguments are refused exactly for a negative number or an execution
      without the confirmation phrase. */
  lemma RefusedExactly(policy: Policy, minimumFullMb: int, execute: bool, confirm: string)
    ensures !ArgumentsOk(policy, minimumFullMb, execute, confirm) <==>
      || (exists n :: n < 0 && n in [policy.daily, policy.weekly, policy.monthly, minimumFullMb])
      || (execute && confirm != "DELETE_REDUNDANT_FULL_BACKUPS")
  {
    var given := [policy.daily, policy.weekly, policy.monthly, minimumFullMb];
    assert given[0] in given && given[1] in given && given[2] in given && given[3] in given;
  }

  lemma SamePathSameBackup(backups: seq<Backup>, b: Backup)
    requires UniquePaths(backups) && b in backups
    ensures forall c | c in backups && c.path == b.path :: c == b
  {
    var i :| 0 <= i < |backups| && backups[i] == b;
    forall c | c in backups && c.path == b.path ensures c == b {
      var j :| 0 <= j < |backups| && backups[j] == c;
      if i < j { assert backups[i].path != backups[j].path; }
    }
  }

  // ------------------------------------------- pruning commutes with arrivals

  /** `sub` is `all` with some entries left out. */
  predicate Subsequence(sub: seq<Backup>, all: seq<Backup>) {
    if all == [] then sub == []
    else (sub != [] && sub[0] == all[0] && Subsequence(sub[1..], all[1..])) || Subsequence(sub, all[1..])
  }

  lemma {:induction false} SubsequenceMembers(sub: seq<Backup>, all: seq<Backup>)
    requires Subsequence(sub, all)
    ensures forall b | b in sub :: b in all
  {
    if all != [] {
      if sub != [] && sub[0] == all[0] && Subsequence(sub[1..], all[1..]) {
        SubsequenceMembers(sub[1..], all[1..]);
        assert sub == [sub[0]] + sub[1..];
      } else {
        SubsequenceMembers(sub, all[1..]);
      }
    }
  }

  lemma SubsequencePaths(sub: seq<Backup>, all: seq<Backup>)
    requires Subsequence(sub, all)
    ensures Paths(sub) <= Paths(all)
  {
    SubsequenceMembers(sub, all);
  }

  lemma UniqueTail(backups: seq<Backup>)
    requires UniquePaths(backups) && backups != []
    ensures UniquePaths(backups[1..]) && backups[0].path !in Paths(backups[1..])
  {
  }

  /** The two ways a subsequence can meet the head of the full listing. */
  predicate HeadKept(sub: seq<Backup>, all: seq<Backup>)
    requires all != []
  {
    sub != [] && sub[0] == all[0] && Subsequence(sub[1..], all[1..])
  }

  /** If the head was dropped, the policy had no use for it. */
  lemma DroppedHead(sub: seq<Backup>, all: seq<Backup>, p: Period, base: set<string>, limit: int)
    requires all != [] && UniquePaths(all) && Subsequence(sub, all) && !HeadKept(sub, all)
    requires KeepFrom(all, p, base, limit) <= Paths(sub) && |base| < limit
    ensures Bucket(all[0], p) in base
    ensures Subsequence(sub, all[1..])
  {
    UniqueTail(all);
    SubsequencePaths(sub, all[1..]);
  }

  /** If it stayed, the tail of the kept listing still covers the tail. */
  lemma KeptHead(sub: seq<Backup>, all: seq<Backup>, p: Period, base: set<string>, limit: int)
    requires all != [] && UniquePaths(all) && HeadKept(sub, all)
    requires KeepFrom(all, p, base, limit) <= Paths(sub) && |base| < limit
    ensures KeepFrom(all[1..], p, base + {Bucket(all[0], p)}, limit) <= Paths(sub[1..])
  {
    hide Paths;
    hide KeepFrom;
    hide UniquePaths;
    hide Subsequence;
    TailKept(all, p, base, limit);
    PathsCons(sub);
  }

  lemma TailKept(all: seq<Backup>, p: Period, base: set<string>, limit: int)
    requires all != [] && UniquePaths(all) && |base| < limit
    ensures
      var kept := KeepFrom(all[1..], p, base + {Bucket(all[0], p)}, limit);
      kept <= KeepFrom(all, p, base, limit) && all[0].path !in kept
  {
    var b := Bucket(all[0], p);
    UniqueTail(all);
    KeepFromBounded(all[1..], p, base + {b}, limit);
    if b in base { assert base + {b} == base; }
    hide Paths;
    hide UniquePaths;
  }

  lemma PathsCons(backups: seq<Backup>)
    requires backups != []
    ensures Paths(backups) == {backups[0].path} + Paths(backups[1..])
  {
    assert backups == [backups[0]] + backups[1..];
  }

  /** Dropping what the policy does not keep changes nothing for a loop that
      starts with at least as many buckets taken. */
  lemma {:induction false} DroppingIsInvisible(
    sub: seq<Backup>, all: seq<Backup>, p: Period, base: set<string>, seen: set<string>, limit: int)
    requires UniquePaths(all) && Subsequence(sub, all) && base <= seen
    requires KeepFrom(all, p, base, limit) <= Paths(sub)
    ensures KeepFrom(sub, p, seen, limit) == KeepFrom(all, p, seen, limit)
  {
    if |seen| >= limit {
      KeepFromBounded(sub, p, seen, limit);
      KeepFromBounded(all, p, seen, limit);
    } else if all != [] {
      SubsetSize(base, seen);
      UniqueTail(all);
      hide Paths;
      var b, rest := Bucket(all[0], p), all[1..];
      if HeadKept(sub, all) {
        KeptHead(sub, all, p, base, limit);
        DroppingIsInvisible(sub[1..], rest, p, base + {b}, seen + {b}, limit);
        if b in seen { assert seen + {b} == seen; }
      } else {
        DroppedHead(sub, all, p, base, limit);
        DroppingIsInvisible(sub, rest, p, base, seen, limit);
      }
    }
  }

  /** The same behind any newer backups. */
  lemma {:induction false} DroppingBehind(
    newer: seq<Backup>, sub: seq<Backup>, all: seq<Backup>, p: Period, seen: set<string>, limit: int)
    requires UniquePaths(all) && Subsequence(sub, all)
    requires KeepFrom(all, p, {}, limit) <= Paths(sub)
    ensures KeepFrom(newer + sub, p, seen, limit) == KeepFrom(newer + all, p, seen, limit)
  {
    if newer == [] {
      assert newer + sub == sub && newer + all == all;
      DroppingIsInvisible(sub, all, p, {}, seen, limit);
    } else {
      assert (newer + sub)[1..] == newer[1..] + sub && (newer + all)[1..] == newer[1..] + all;
      DroppingBehind(newer[1..], sub, all, p, seen, limit);
      DroppingBehind(newer[1..], sub, all, p, seen + {Bucket(newer[0], p)}, limit);
    }
  }

  /** A smaller limit keeps less. */
  lemma {:induction false} KeepFromMonotone(
    backups: seq<Backup>, p: Period, seen: set<string>, asked: int, used: int)
    requires asked <= used
    ensures KeepFrom(backups, p, seen, asked) <= KeepFrom(backups, p, seen, used)
  {
    if backups != [] {
      KeepFromMonotone(backups[1..], p, seen, asked, used);
      KeepFromMonotone(backups[1..], p, seen + {Bucket(backups[0], p)}, asked, used);
    }
  }

  /** `asked` keeps no more than `used` in any period. */
  predicate NoMoreThan(asked: Policy, used: Policy) {
    asked.daily <= used.daily && asked.weekly <= used.weekly && asked.monthly <= used.monthly
  }

  lemma KeepMonotone(backups: seq<Backup>, asked: Policy, used: Policy)
    requires NoMoreThan(asked, used)
    ensures Keep(backups, asked) <= Keep(backups, used)
  {
    hide KeepFrom;
    KeepFromMonotone(backups, Day, {}, asked.daily, used.daily);
    KeepFromMonotone(backups, Week, {}, asked.weekly, used.weekly);
    KeepFromMonotone(backups, Month, {}, asked.monthly, used.monthly);
  }

  /** Pruning commutes with later arrivals: whatever was dropped, as long as
      what the policy in use keeps stayed, any longer listing answers every
      policy that keeps no more as if nothing had been dropped. */
  lemma PruningCommutesWithArrivals(
    newer: seq<Backup>, sub: seq<Backup>, all: seq<Backup>, asked: Policy, used: Policy)
    requires UniquePaths(all) && Subsequence(sub, all)
    requires Keep(all, used) <= Paths(sub) && NoMoreThan(asked, used)
    ensures Keep(newer + sub, asked) == Keep(newer + all, asked)
  {
    hide KeepFrom;
    KeepMonotone(all, asked, used);
    DroppingBehind(newer, sub, all, Day, {}, asked.daily);
    DroppingBehind(newer, sub, all, Week, {}, asked.weekly);
    DroppingBehind(newer, sub, all, Month, {}, asked.monthly);
    if newer == [] {
      NewestStays(sub, all);
      assert newer + sub == sub && newer + all == all;
    }
  }

  lemma NewestStays(sub: seq<Backup>, all: seq<Backup>)
    requires UniquePaths(all) && Subsequence(sub, all)
    requires Newest(all) <= Paths(sub)
    ensures Newest(sub) == Newest(all)
  {
    if all != [] {
      UniqueTail(all);
      if !(sub != [] && sub[0] == all[0] && Subsequence(sub[1..], all[1..])) { SubsequencePaths(sub, all[1..]); }
    }
  }

  // ----------------------------------------------------------- whole runs

  datatype Event = Arrive(b: Backup) | Prune(a: PruneArgs)

  /** The directory after a history of arrivals and prunes, newest first. */
  function Survivors(events: seq<Event>): seq<Backup> {
    if events == [] then []
    else
      var n := |events| - 1;
      var prior := Survivors(events[..n]);
      match events[n]
      case Arrive(b) => [b] + prior
      case Prune(a) => Pruned(prior, a)
  }

  /** Every prune of the history used a policy that keeps at least as much. */
  predicate PrunedWithin(events: seq<Event>, asked: Policy) {
    forall e | e in events && e.Prune? :: NoMoreThan(asked, e.a.policy)
  }

  /** The same history with every prune left out. */
  function Arrivals(events: seq<Event>): seq<Backup> {
    if events == [] then []
    else
      var n := |events| - 1;
      (if events[n].Arrive? then [events[n].b] else []) + Arrivals(events[..n])
  }

  lemma {:induction false} WithoutIsSubsequence(backups: seq<Backup>, gone: set<string>)
    ensures Subsequence(Without(backups, gone), backups)
  {
    if backups != [] {
      WithoutIsSubsequence(backups[1..], gone);
      var rest := Without(backups[1..], gone);
      if backups[0].path in gone {
        assert Without(backups, gone) == rest;
      } else {
        assert Without(backups, gone) == [backups[0]] + rest;
        assert ([backups[0]] + rest)[1..] == rest;
      }
    }
  }

  lemma {:induction false} SubsequenceItself(backups: seq<Backup>)
    ensures Subsequence(backups, backups)
  {
    if backups != [] { SubsequenceItself(backups[1..]); }
  }

  lemma PrunedKeepsTheKept(backups: seq<Backup>, a: PruneArgs)
    ensures Subsequence(Pruned(backups, a), backups)
    ensures Keep(backups, a.policy) <= Paths(Pruned(backups, a))
  {
    hide KeepFrom;
    var gone := CandidatePaths(backups, Spared(backups, a), a.cutoff);
    WithoutIsSubsequence(backups, gone);
    SubsequenceItself(backups);
    WithoutMembers(backups, gone);
    KeptIsListed(backups, a.policy);
  }

  lemma KeptIsListed(backups: seq<Backup>, policy: Policy)
    ensures Keep(backups, policy) <= Paths(backups)
  {
    hide KeepFrom;
    KeepFromBounded(backups, Day, {}, policy.daily);
    KeepFromBounded(backups, Week, {}, policy.weekly);
    KeepFromBounded(backups, Month, {}, policy.monthly);
  }

  lemma {:induction false} SubsequenceUnique(sub: seq<Backup>, all: seq<Backup>)
    requires Subsequence(sub, all) && UniquePaths(all)
    ensures UniquePaths(sub)
  {
    if all != [] {
      UniqueTail(all);
      if sub != [] && sub[0] == all[0] && Subsequence(sub[1..], all[1..]) {
        SubsequenceUnique(sub[1..], all[1..]);
        SubsequencePaths(sub[1..], all[1..]);
        assert sub[0].path !in Paths(sub[1..]);
        forall i, j | 0 <= i < j < |sub| ensures sub[i].path != sub[j].path {
          if i == 0 { assert sub[j] in sub[1..]; } else { assert sub[1..][i - 1].path != sub[1..][j - 1].path; }
        }
      } else {
        SubsequenceUnique(sub, all[1..]);
      }
    }
  }

  lemma {:induction false} SubsequenceChain(a: seq<Backup>, b: seq<Backup>, c: seq<Backup>)
    requires Subsequence(a, b) && Subsequence(b, c)
    ensures Subsequence(a, c)
    decreases |c|
  {
    if c != [] {
      if b != [] && b[0] == c[0] && Subsequence(b[1..], c[1..]) {
        if a != [] && a[0] == b[0] && Subsequence(a[1..], b[1..]) {
          SubsequenceChain(a[1..], b[1..], c[1..]);
        } else {
          SubsequenceChain(a, b[1..], c[1..]);
        }
      } else {
        SubsequenceChain(a, b, c[1..]);
      }
    }
  }

  /** The directory answers as the never-pruned one, whatever arrives next. */
  ghost predicate AnswersAlike(now: seq<Backup>, ever: seq<Backup>, policy: Policy) {
    && Subsequence(now, ever)
    && forall newer :: Keep(newer + now, policy) == Keep(newer + ever, policy)
  }

  lemma ArrivalKeepsAnswers(now: seq<Backup>, ever: seq<Backup>, policy: Policy, b: Backup)
    requires AnswersAlike(now, ever, policy)
    ensures AnswersAlike([b] + now, [b] + ever, policy)
  {
    hide Keep;
    forall newer: seq<Backup> ensures Keep(newer + ([b] + now), policy) == Keep(newer + ([b] + ever), policy) {
      assert newer + ([b] + now) == newer + [b] + now && newer + ([b] + ever) == newer + [b] + ever;
    }
    assert ([b] + now)[1..] == now && ([b] + ever)[1..] == ever;
  }

  lemma PruneKeepsAnswers(now: seq<Backup>, ever: seq<Backup>, a: PruneArgs, asked: Policy)
    requires AnswersAlike(now, ever, asked) && UniquePaths(ever)
    requires NoMoreThan(asked, a.policy)
    ensures AnswersAlike(Pruned(now, a), ever, asked)
  {
    hide Keep;
    hide Pruned;
    SubsequenceUnique(now, ever);
    PrunedKeepsTheKept(now, a);
    SubsequenceChain(Pruned(now, a), now, ever);
    forall newer: seq<Backup> ensures Keep(newer + Pruned(now, a), asked) == Keep(newer + ever, asked) {
      PruningCommutesWithArrivals(newer, Pruned(now, a), now, asked, a.policy);
    }
  }

  /** Over any interleaving of arrivals and prunes, whose policies may change,
      the directory answers every policy that keeps no more than each of them
      exactly as a never-pruned one would, and still holds everything that
      answer names. With one fixed policy, or limits that only shrink, that is
      the policy in force. */
  lemma {:induction false} NeverMissesAnything(events: seq<Event>, asked: Policy)
    requires UniquePaths(Arrivals(events)) && PrunedWithin(events, asked)
    ensures AnswersAlike(Survivors(events), Arrivals(events), asked)
    ensures Keep(Survivors(events), asked) == Keep(Arrivals(events), asked)
    ensures Keep(Arrivals(events), asked) <= Paths(Survivors(events))
  {
    hide Keep;
    hide Pruned;
    hide AnswersAlike;
    hide NoMoreThan;
    var now, ever := Survivors(events), Arrivals(events);
    if events == [] {
      NothingAlike(asked);
    } else {
      var n := |events| - 1;
      match events[n] {
        case Arrive(b) =>
          UniqueTail(ever);
          assert ever == [b] + Arrivals(events[..n]) && ever[1..] == Arrivals(events[..n]);
          NeverMissesAnything(events[..n], asked);
          ArrivalKeepsAnswers(Survivors(events[..n]), Arrivals(events[..n]), asked, b);
        case Prune(a) =>
          assert ever == Arrivals(events[..n]);
          NeverMissesAnything(events[..n], asked);
          PruneKeepsAnswers(Survivors(events[..n]), ever, a, asked);
      }
    }
    AlikeNow(now, ever, asked);
    KeptIsListed(now, asked);
  }

  /** A limit that grows again asks for what is gone: backups on two days,
      pruned with one daily backup and then asked for two. */
  lemma GrownLimitMisses() returns (events: seq<Event>, asked: Policy)
    ensures UniquePaths(Arrivals(events)) && !PrunedWithin(events, asked)
    ensures !(Keep(Arrivals(events), asked) <= Paths(Survivors(events)))
  {
    hide Keep;
    hide Pruned;
    var older := Backup("a", 0, "1", "1", "1", [true]);
    var newer := Backup("b", 1, "2", "1", "1", [true]);
    var all, a := [newer, older], PruneArgs(Policy(1, 0, 0), {}, 1);
    events, asked := [Arrive(older), Arrive(newer), Prune(a)], Policy(2, 0, 0);
    assert events[2] == Prune(a) && events[2] in events;
    TwoArrivals(older, newer, Prune(a));
    TwoDays(all, 1);
    TwoDays(all, 2);
    OlderIsPruned(all, a);
  }

  lemma TwoArrivals(older: Backup, newer: Backup, last: Event)
    requires last.Prune?
    ensures var events := [Arrive(older), Arrive(newer), last];
      Arrivals(events) == [newer, older] && Survivors(events) == Pruned([newer, older], last.a)
  {
    hide Pruned;
    var events := [Arrive(older), Arrive(newer), last];
    var one, two := [Arrive(older)], [Arrive(older), Arrive(newer)];
    assert events[..2] == two && two[..1] == one && one[..0] == [];
    assert Survivors(one) == [older] && Arrivals(one) == [older];
    assert Survivors(two) == [newer, older] && Arrivals(two) == [newer, older];
  }

  lemma TwoDays(all: seq<Backup>, daily: nat)
    requires |all| == 2 && UniquePaths(all) && all[0].day != all[1].day
    ensures all[0].path in Keep(all, Policy(daily, 0, 0))
    ensures all[1].path in Keep(all, Policy(daily, 0, 0)) <==> daily > 1
  {
    hide Keep;
    KeepIsFirsts(all, Policy(daily, 0, 0), 0);
    KeepIsFirsts(all, Policy(daily, 0, 0), 1);
    assert all[..1] == [all[0]];
    var first := [all[0]];
    assert first[0] in first && Bucket(first[0], Day) == all[0].day;
    assert Buckets(first, Day) == {all[0].day};
  }

  lemma OlderIsPruned(all: seq<Backup>, a: PruneArgs)
    requires |all| == 2 && UniquePaths(all) && Intact(all[0])
    requires all[0].path in Keep(all, a.policy) && all[1].path !in Keep(all, a.policy) + a.protect
    requires all[1].modifiedAt <= a.cutoff
    ensures all[1].path !in Paths(Pruned(all, a))
  {
    hide Keep;
    hide Pruned;
    hide Intact;
    assert all[0] in all && all[1] in all;
    PruneIsSafe(all, a);
    SamePathSameBackup(all, all[1]);
  }

  lemma NothingAlike(policy: Policy)
    ensures AnswersAlike([], [], policy)
  {
  }

  lemma AlikeNow(now: seq<Backup>, ever: seq<Backup>, policy: Policy)
    requires AnswersAlike(now, ever, policy)
    ensures Keep(now, policy) == Keep(ever, policy)
  {
    assert [] + now == now && [] + ever == ever;
  }
}
