/** The debt ratchet of `doc-readability-check.py`: baselines, what counts as
    loosening one, and the per-file check. */
module Ratchet {
  import opened Text

  const TYPES := ["spec", "design", "plan", "rule", "guide", "report", "debt"]

  type Counts = map<string, int>

  /** What a baseline records of one document: counts by field, or the single
      number older baselines hold. */
  datatype FileEntry = ByField(counts: Counts) | Plain(total: int)

  type FileTable = map<string, FileEntry>

  datatype Baseline = Baseline(
    missing: Counts,
    bareRefs: Counts,
    implCode: Counts,
    sourceRefs: Counts,
    rulesMissing: int,
    skillsMissing: int,
    files: FileTable)

  function Get(m: Counts, key: string): int {
    if key in m then m[key] else 0
  }

  datatype Table = MissingTable | BareTable | ImplTable | SourceTable

  function TableOf(b: Baseline, t: Table): Counts {
    match t
    case MissingTable => b.missing
    case BareTable => b.bareRefs
    case ImplTable => b.implCode
    case SourceTable => b.sourceRefs
  }

  // ----------------------------------------------------- baseline against baseline

  predicate TableHolds(base: Counts, now: Counts) {
    forall t | t in base :: Get(now, t) <= base[t]
  }

  predicate FileHolds(base: Counts, now: Counts) {
    forall k | k in now :: now[k] <= Get(base, k)
  }

  /** Entries of different kinds are not compared at all. */
  predicate EntryHolds(base: FileEntry, now: FileEntry) {
    && (base.ByField? && now.ByField? ==> FileHolds(base.counts, now.counts))
    && (base.Plain? && now.Plain? ==> now.total <= base.total)
  }

  predicate FilesHold(base: FileTable, now: FileTable) {
    && now.Keys <= base.Keys
    && forall f | f in now && f in base :: EntryHolds(base[f], now[f])
  }

  /** `baseline_regressions` reports nothing. */
  predicate NoRegression(base: Baseline, now: Baseline) {
    && (forall t: Table :: TableHolds(TableOf(base, t), TableOf(now, t)))
    && now.rulesMissing <= base.rulesMissing
    && now.skillsMissing <= base.skillsMissing
    && FilesHold(base.files, now.files)
  }

  datatype Finding =
    | TableRose(table: Table, docType: string)
    | RulesRose
    | SkillsRose
    | FileAdded(file: string)
    | FileRose(file: string, field: string)
    | PlainRose(file: string)

  /** What each finding accuses the later baseline of. */
  predicate Rose(base: Baseline, now: Baseline, x: Finding) {
    match x
    case TableRose(t, d) => d in TableOf(base, t) && Get(TableOf(now, t), d) > TableOf(base, t)[d]
    case RulesRose => now.rulesMissing > base.rulesMissing
    case SkillsRose => now.skillsMissing > base.skillsMissing
    case FileAdded(_) => FileFinding(base.files, now.files, x)
    case FileRose(_, _) => FileFinding(base.files, now.files, x)
    case PlainRose(_) => FileFinding(base.files, now.files, x)
  }

  predicate FileFinding(base: FileTable, now: FileTable, x: Finding) {
    match x
    case FileAdded(f) => f in now && f !in base
    case FileRose(f, k) =>
      && f in now && f in base && now[f].ByField? && base[f].ByField?
      && k in now[f].counts && now[f].counts[k] > Get(base[f].counts, k)
    case PlainRose(f) =>
      f in now && f in base && now[f].Plain? && base[f].Plain? && now[f].total > base[f].total
    case _ => false
  }

  /** No finding applies exactly when nothing was loosened. */
  lemma NothingRose(base: Baseline, now: Baseline)
    ensures NoRegression(base, now) <==> forall x: Finding :: !Rose(base, now, x)
  {
    if forall x: Finding :: !Rose(base, now, x) {
      forall t: Table, d | d in TableOf(base, t) ensures Get(TableOf(now, t), d) <= TableOf(base, t)[d] {
        assert !Rose(base, now, TableRose(t, d));
      }
      assert !Rose(base, now, RulesRose) && !Rose(base, now, SkillsRose);
      forall f | f in now.files ensures f in base.files && EntryHolds(base.files[f], now.files[f]) {
        assert !Rose(base, now, FileAdded(f)) && !Rose(base, now, PlainRose(f));
        if now.files[f].ByField? && base.files[f].ByField? {
          forall k | k in now.files[f].counts ensures now.files[f].counts[k] <= Get(base.files[f].counts, k) {
            assert !Rose(base, now, FileRose(f, k));
          }
        }
      }
    }
  }

  method TableFindings(table: Table, base: Counts, now: Counts) returns (bad: seq<Finding>)
    ensures forall x :: x in bad <==>
      x.TableRose? && x.table == table && x.docType in base && Get(now, x.docType) > base[x.docType]
  {
    bad := [];
    var left := base.Keys;
    while left != {}
      invariant left <= base.Keys
      invariant forall x :: x in bad <==>
        x.TableRose? && x.table == table && x.docType in base.Keys - left && Get(now, x.docType) > base[x.docType]
      decreases |left|
    {
      var t :| t in left;
      left := left - {t};
      if Get(now, t) > base[t] { bad := bad + [TableRose(table, t)]; }
    }
  }

  method FileFindings(file: string, base: Counts, now: Counts) returns (bad: seq<Finding>)
    ensures forall x :: x in bad <==>
      x.FileRose? && x.file == file && x.field in now && now[x.field] > Get(base, x.field)
  {
    bad := [];
    var left := now.Keys;
    while left != {}
      invariant left <= now.Keys
      invariant forall x :: x in bad <==>
        x.FileRose? && x.file == file && x.field in now.Keys - left && now[x.field] > Get(base, x.field)
      decreases |left|
    {
      var k :| k in left;
      left := left - {k};
      if now[k] > Get(base, k) { bad := bad + [FileRose(file, k)]; }
    }
  }

  method EntryFindings(file: string, base: FileEntry, now: FileEntry) returns (bad: seq<Finding>)
    ensures forall x :: x in bad <==> FileFinding(map[file := base], map[file := now], x)
  {
    bad := [];
    if now.ByField? && base.ByField? {
      bad := FileFindings(file, base.counts, now.counts);
    } else if now.Plain? && base.Plain? && now.total > base.total {
      bad := [PlainRose(file)];
    }
  }

  function FileOf(x: Finding): string {
    match x
    case FileAdded(f) => f
    case FileRose(f, _) => f
    case PlainRose(f) => f
    case _ => ""
  }

  method AllFileFindings(base: FileTable, now: FileTable) returns (bad: seq<Finding>)
    ensures forall x :: x in bad <==> FileFinding(base, now, x)
  {
    bad := [];
    var left := now.Keys;
    while left != {}
      invariant left <= now.Keys
      invariant forall x :: x in bad <==> FileFinding(base, now, x) && FileOf(x) !in left
      decreases |left|
    {
      var f :| f in left;
      left := left - {f};
      if f !in base {
        bad := bad + [FileAdded(f)];
      } else {
        var worse := EntryFindings(f, base[f], now[f]);
        bad := bad + worse;
      }
    }
  }

  method TypeFindings(base: Baseline, now: Baseline) returns (bad: seq<Finding>)
    ensures forall x :: x in bad <==> x.TableRose? && Rose(base, now, x)
  {
    hide Get;
    var a := TableFindings(MissingTable, base.missing, now.missing);
    var b := TableFindings(BareTable, base.bareRefs, now.bareRefs);
    var c := TableFindings(ImplTable, base.implCode, now.implCode);
    var d := TableFindings(SourceTable, base.sourceRefs, now.sourceRefs);
    bad := a + b + c + d;
    forall x ensures x in bad <==> x.TableRose? && Rose(base, now, x) {
      assert x in bad <==> x in a || x in b || x in c || x in d;
    }
  }

  /** `baseline_regressions`. */
  method BaselineRegressions(base: Baseline, now: Baseline) returns (bad: seq<Finding>)
    ensures forall x :: x in bad <==> Rose(base, now, x)
    ensures bad == [] <==> NoRegression(base, now)
  {
    hide Get;
    hide NoRegression;
    var types := TypeFindings(base, now);
    var rules := if now.rulesMissing > base.rulesMissing then [RulesRose] else [];
    var skills := if now.skillsMissing > base.skillsMissing then [SkillsRose] else [];
    var files := AllFileFindings(base.files, now.files);
    bad := types + rules + skills + files;
    forall x ensures x in bad <==> Rose(base, now, x) {
      assert x in bad <==> x in types || x in rules || x in skills || x in files;
      assert x.FileAdded? || x.FileRose? || x.PlainRose? ==>
        FileFinding(base.files, now.files, x) == Rose(base, now, x);
    }
    NothingRose(base, now);
    assert bad == [] || bad[0] in bad;
  }

  // ----------------------------------------------------------------- chains

  predicate Natural(m: Counts) {
    forall k | k in m :: m[k] >= 0
  }

  /** The shape `write_baseline` writes: every table has all seven types, and
      every count is a natural number. */
  predicate Written(b: Baseline) {
    && (forall t: Table :: (forall d | d in TYPES :: d in TableOf(b, t)) && TableOf(b, t).Keys <= (set d | d in TYPES))
    && (forall t: Table :: Natural(TableOf(b, t)))
    && (forall f | f in b.files :: b.files[f].ByField?)
    && FilesNatural(b)
  }

  predicate FilesNatural(b: Baseline) {
    forall f | f in b.files && b.files[f].ByField? :: Natural(b.files[f].counts)
  }

  /** No document's entry changed its kind. */
  predicate KeepsKinds(a: Baseline, b: Baseline) {
    forall f | f in a.files && f in b.files :: a.files[f].ByField? == b.files[f].ByField?
  }

  /** Every negative file count of the first is still listed in the second;
      an unlisted count reads as 0, which would be a rise. */
  predicate KeepsNegatives(a: Baseline, b: Baseline) {
    forall f, k | f in a.files && f in b.files && a.files[f].ByField? && b.files[f].ByField?
                  && k in a.files[f].counts && a.files[f].counts[k] < 0 ::
      k in b.files[f].counts
  }

  lemma NaturalKeepsNegatives(a: Baseline, b: Baseline)
    requires FilesNatural(a)
    ensures KeepsNegatives(a, b)
  {
  }

  lemma NoRegressionReflexive(b: Baseline)
    ensures NoRegression(b, b)
  {
  }

  /** What a middle baseline must keep of the first. */
  ghost predicate Keeps(a: Baseline, b: Baseline) {
    && (forall t: Table :: TableOf(a, t).Keys <= TableOf(b, t).Keys)
    && KeepsKinds(a, b) && KeepsNegatives(a, b)
  }

  /** Comparing through a middle baseline is safe when the middle one keeps
      every type of the first, the kinds of its entries and its negative file
      counts. */
  lemma NoRegressionTransitive(a: Baseline, b: Baseline, c: Baseline)
    requires NoRegression(a, b) && NoRegression(b, c) && Keeps(a, b)
    ensures NoRegression(a, c)
  {
    forall t: Table ensures TableHolds(TableOf(a, t), TableOf(c, t)) {
      assert TableHolds(TableOf(a, t), TableOf(b, t)) && TableHolds(TableOf(b, t), TableOf(c, t));
    }
    forall f | f in c.files ensures f in a.files && EntryHolds(a.files[f], c.files[f]) {
      assert f in b.files && f in a.files;
      assert EntryHolds(a.files[f], b.files[f]) && EntryHolds(b.files[f], c.files[f]);
    }
  }

  /** A baseline raised at one type the middle baseline does not list. */
  function RaisedAt(b: Baseline, t: Table, docType: string, count: int): Baseline {
    match t
    case MissingTable => b.(missing := b.missing[docType := count])
    case BareTable => b.(bareRefs := b.bareRefs[docType := count])
    case ImplTable => b.(implCode := b.implCode[docType := count])
    case SourceTable => b.(sourceRefs := b.sourceRefs[docType := count])
  }

  lemma RaiseIsAccepted(b: Baseline, t: Table, docType: string, count: int)
    requires docType !in TableOf(b, t)
    ensures NoRegression(b, RaisedAt(b, t, docType, count))
    ensures Get(TableOf(RaisedAt(b, t, docType, count), t), docType) == count
  {
    var c := RaisedAt(b, t, docType, count);
    forall s: Table ensures TableHolds(TableOf(b, s), TableOf(c, s)) {}
  }

  /** Accepting `b` after `a` protects `a` against everything accepted after
      `b` if and only if `b` still lists every type that `a` lists, changed no
      entry from counts to a number or back, and dropped no negative count. */
  lemma ProtectedExactly(a: Baseline, b: Baseline)
    requires NoRegression(a, b)
    ensures (forall c :: NoRegression(b, c) ==> NoRegression(a, c)) <==> Keeps(a, b)
  {
    hide NoRegression;
    if !KeepsNegatives(a, b) {
      var f, k :| f in a.files && f in b.files && a.files[f].ByField? && b.files[f].ByField?
        && k in a.files[f].counts && a.files[f].counts[k] < 0 && k !in b.files[f].counts;
      ZeroIsAccepted(a, b, f, k);
    } else if !KeepsKinds(a, b) {
      var f :| f in a.files && f in b.files && a.files[f].ByField? != b.files[f].ByField?;
      EntryRaiseIsAccepted(a, b, f);
    } else if forall t: Table :: TableOf(a, t).Keys <= TableOf(b, t).Keys {
      forall c | NoRegression(b, c) ensures NoRegression(a, c) { NoRegressionTransitive(a, b, c); }
    } else {
      var t: Table :| !(TableOf(a, t).Keys <= TableOf(b, t).Keys);
      var d :| d in TableOf(a, t) && d !in TableOf(b, t);
      var count := TableOf(a, t)[d] + 1;
      RaiseIsAccepted(b, t, d, count);
      RiseIsSeen(a, RaisedAt(b, t, d, count), t, d);
    }
  }

  /** Listing a dropped negative count as 0 is no rise for `b`, but one for `a`. */
  lemma ZeroIsAccepted(a: Baseline, b: Baseline, f: string, k: string)
    requires f in a.files && f in b.files && a.files[f].ByField? && b.files[f].ByField?
    requires k in a.files[f].counts && a.files[f].counts[k] < 0 && k !in b.files[f].counts
    ensures var c := b.(files := b.files[f := ByField(b.files[f].counts[k := 0])]);
      NoRegression(b, c) && !NoRegression(a, c)
  {
    var e := ByField(b.files[f].counts[k := 0]);
    var c := b.(files := b.files[f := e]);
    assert !EntryHolds(a.files[f], e) by { assert k in e.counts; }
    assert c.files[f] == e;
    forall t: Table ensures TableHolds(TableOf(b, t), TableOf(c, t)) { assert TableOf(b, t) == TableOf(c, t); }
    forall g | g in c.files ensures EntryHolds(b.files[g], c.files[g]) {}
  }

  /** An entry of the same kind that owes more. */
  function RaisedEntry(e: FileEntry): FileEntry {
    match e
    case ByField(counts) => ByField(counts["missing" := Get(counts, "missing") + 1])
    case Plain(total) => Plain(total + 1)
  }

  lemma EntryRaiseIsAccepted(a: Baseline, b: Baseline, f: string)
    requires f in a.files && f in b.files && a.files[f].ByField? != b.files[f].ByField?
    ensures var c := b.(files := b.files[f := RaisedEntry(a.files[f])]);
      NoRegression(b, c) && !NoRegression(a, c)
  {
    var e := RaisedEntry(a.files[f]);
    var c := b.(files := b.files[f := e]);
    assert !EntryHolds(a.files[f], e) by {
      if e.ByField? { assert "missing" in e.counts; }
    }
    assert c.files[f] == e;
    forall t: Table ensures TableHolds(TableOf(b, t), TableOf(c, t)) { assert TableOf(b, t) == TableOf(c, t); }
    forall g | g in c.files ensures EntryHolds(b.files[g], c.files[g]) {}
  }

  lemma RiseIsSeen(a: Baseline, c: Baseline, t: Table, d: string)
    requires d in TableOf(a, t) && Get(TableOf(c, t), d) > TableOf(a, t)[d]
    ensures !NoRegression(a, c)
  {
    assert !TableHolds(TableOf(a, t), TableOf(c, t));
  }

  lemma WrittenShareTypes(a: Baseline, b: Baseline)
    requires Written(a) && Written(b)
    ensures forall t: Table :: TableOf(a, t).Keys == TableOf(b, t).Keys
  {
    forall t: Table ensures TableOf(a, t).Keys == TableOf(b, t).Keys {
      forall d | d in TableOf(a, t) ensures d in TableOf(b, t) { assert d in TYPES; }
      forall d | d in TableOf(b, t) ensures d in TableOf(a, t) { assert d in TYPES; }
    }
  }

  /** Dropping a type from a baseline hides a later rise: the comparison is
      blind to types the earlier baseline does not list. */
  lemma MissingTypeBreaksTheChain()
    ensures exists a: Baseline, b: Baseline, c: Baseline ::
      NoRegression(a, b) && NoRegression(b, c) && !NoRegression(a, c)
  {
    var none: Baseline := Baseline(map[], map[], map[], map[], 0, 0, map[]);
    var a, c := none.(missing := map["spec" := 1]), none.(missing := map["spec" := 5]);
    forall t: Table
      ensures TableHolds(TableOf(a, t), TableOf(none, t)) && TableHolds(TableOf(none, t), TableOf(c, t))
    {
    }
    assert NoRegression(a, none) && NoRegression(none, c);
    assert !TableHolds(TableOf(a, MissingTable), TableOf(c, MissingTable)) by { assert "spec" in a.missing; }
    assert !NoRegression(a, c);
  }

  /** So does a document whose entry turns into a single number in between. */
  lemma ChangedKindBreaksTheChain()
    ensures exists a: Baseline, b: Baseline, c: Baseline ::
      NoRegression(a, b) && NoRegression(b, c) && !NoRegression(a, c)
      && forall t: Table :: TableOf(a, t) == TableOf(b, t) == TableOf(c, t)
  {
    var none: Baseline := Baseline(map[], map[], map[], map[], 0, 0, map[]);
    var a, b := none.(files := map["x.md" := ByField(map[])]), none.(files := map["x.md" := Plain(0)]);
    assert forall t: Table :: TableHolds(TableOf(a, t), TableOf(b, t));
    assert NoRegression(a, b);
    EntryRaiseIsAccepted(a, b, "x.md");
    var c := b.(files := b.files["x.md" := RaisedEntry(a.files["x.md"])]);
    assert forall t: Table :: TableOf(a, t) == TableOf(b, t) == TableOf(c, t);
  }

  /** So does a document that drops a negative count in between. */
  lemma DroppedNegativeBreaksTheChain()
    ensures exists a: Baseline, b: Baseline, c: Baseline ::
      NoRegression(a, b) && NoRegression(b, c) && !NoRegression(a, c) && KeepsKinds(a, b)
      && forall t: Table :: TableOf(a, t) == TableOf(b, t) == TableOf(c, t)
  {
    var none: Baseline := Baseline(map[], map[], map[], map[], 0, 0, map[]);
    var a := none.(files := map["x.md" := ByField(map["missing" := -1])]);
    var b := none.(files := map["x.md" := ByField(map[])]);
    assert forall t: Table :: TableHolds(TableOf(a, t), TableOf(b, t));
    assert NoRegression(a, b);
    ZeroIsAccepted(a, b, "x.md", "missing");
    var c := b.(files := b.files["x.md" := ByField(b.files["x.md"].counts["missing" := 0])]);
    assert forall t: Table :: TableOf(a, t) == TableOf(b, t) == TableOf(c, t);
  }

  /** Each baseline was accepted against the one before. */
  ghost predicate AcceptedChain(bs: seq<Baseline>) {
    && bs != [] && (forall i | 0 <= i < |bs| :: Written(bs[i]))
    && forall i | 0 <= i < |bs| - 1 :: NoRegression(bs[i], bs[i + 1])
  }

  function FieldsOf(b: Baseline, f: string): Counts
    requires f in b.files
  {
    if b.files[f].ByField? then b.files[f].counts else map[]
  }

  /** After any chain of accepted baselines, every type and every file field is
      at most what the first baseline allowed. */
  lemma {:induction false} ChainNeverRises(bs: seq<Baseline>)
    requires AcceptedChain(bs)
    ensures NoRegression(bs[0], bs[|bs| - 1])
    ensures forall t: Table, d | d in TYPES ::
      Get(TableOf(bs[|bs| - 1], t), d) <= Get(TableOf(bs[0], t), d)
    ensures forall f | f in bs[|bs| - 1].files ::
      f in bs[0].files && forall k :: Get(FieldsOf(bs[|bs| - 1], f), k) <= Get(FieldsOf(bs[0], f), k)
  {
    hide NoRegression;
    hide Written;
    var n := |bs| - 1;
    if n == 0 {
      NoRegressionReflexive(bs[0]);
    } else {
      var init := bs[..n];
      assert AcceptedChain(init) by {
        forall i | 0 <= i < |init| - 1 ensures NoRegression(init[i], init[i + 1]) {
          assert NoRegression(bs[i], bs[i + 1]);
        }
      }
      ChainNeverRises(init);
      assert NoRegression(bs[n - 1], bs[n - 1 + 1]);
      WrittenKeeps(bs[0], bs[n - 1]);
      NoRegressionTransitive(bs[0], bs[n - 1], bs[n]);
    }
    Pointwise(bs[0], bs[n]);
  }

  lemma WrittenKeeps(a: Baseline, b: Baseline)
    requires Written(a) && Written(b)
    ensures Keeps(a, b)
  {
    WrittenShareTypes(a, b);
    NaturalKeepsNegatives(a, b);
  }

  /** What no regression between written baselines says key by key. */
  lemma Pointwise(a: Baseline, b: Baseline)
    requires Written(a) && Written(b) && NoRegression(a, b)
    ensures forall t: Table, d | d in TYPES :: Get(TableOf(b, t), d) <= Get(TableOf(a, t), d)
    ensures forall f | f in b.files :: f in a.files && forall k :: Get(FieldsOf(b, f), k) <= Get(FieldsOf(a, f), k)
  {
    forall t: Table, d | d in TYPES ensures Get(TableOf(b, t), d) <= Get(TableOf(a, t), d) {
      assert TableHolds(TableOf(a, t), TableOf(b, t)) && d in TableOf(a, t);
    }
    forall f | f in b.files ensures f in a.files && forall k :: Get(FieldsOf(b, f), k) <= Get(FieldsOf(a, f), k) {
      assert EntryHolds(a.files[f], b.files[f]) && Natural(FieldsOf(a, f));
    }
  }

  // ------------------------------------------------------- per-file against per-type

  datatype Field = MissingField | BareField | ImplField | SourceField

  function Key(f: Field): string {
    match f
    case MissingField => "missing"
    case BareField => "bare"
    case ImplField => "impl"
    case SourceField => "src"
  }

  /** The debt of one document. */
  datatype Debt = Debt(missing: nat, bare: nat, impl: nat, src: nat)

  function Amount(d: Debt, f: Field): nat {
    match f
    case MissingField => d.missing
    case BareField => d.bare
    case ImplField => d.impl
    case SourceField => d.src
  }

  datatype Doc = Doc(name: string, debt: Debt)

  /** `doc_type`: the name up to its first dot. */
  function DocType(name: string): string {
    if name == "" || name[0] == '.' then "" else [name[0]] + DocType(name[1..])
  }

  /** That is: the longest start of the name without a dot. */
  lemma {:induction false} BeforeFirstDot(name: string)
    ensures DocType(name) <= name && '.' !in DocType(name)
    ensures |DocType(name)| < |name| ==> name[|DocType(name)|] == '.'
  {
    if name != "" && name[0] != '.' {
      BeforeFirstDot(name[1..]);
      assert name == [name[0]] + name[1..];
    }
  }

  predicate UniqueNames(docs: seq<Doc>) {
    forall i, j | 0 <= i < j < |docs| :: docs[i].name != docs[j].name
  }

  /** The per-type total the type tables hold. */
  function TypeTotal(docs: seq<Doc>, docType: string, f: Field): nat {
    if docs == [] then 0
    else
      var n := |docs| - 1;
      TypeTotal(docs[..n], docType, f) + if DocType(docs[n].name) == docType then Amount(docs[n].debt, f) else 0
  }

  predicate InDebt(d: Doc) {
    DocType(d.name) in TYPES && d.debt != Debt(0, 0, 0, 0)
  }

  /** A document is in debt when it is of one of the seven types and owes
      anything at all. */
  lemma InDebtExactly(d: Doc)
    ensures InDebt(d) <==>
      && (exists t :: t in ["spec", "design", "plan", "rule", "guide", "report", "debt"] && DocType(d.name) == t)
      && d.debt.missing + d.debt.bare + d.debt.impl + d.debt.src > 0
  {
    hide DocType;
  }

  function Recorded(d: Debt): Counts {
    map["missing" := d.missing, "bare" := d.bare, "impl" := d.impl, "src" := d.src]
  }

  /** `per_file_debt`: the documents of the seven types that owe something. */
  function FileDebt(docs: seq<Doc>): FileTable {
    if docs == [] then map[]
    else
      var n := |docs| - 1;
      var prior := FileDebt(docs[..n]);
      if InDebt(docs[n]) then prior[docs[n].name := ByField(Recorded(docs[n].debt))] else prior
  }

  function TypeTable(docs: seq<Doc>, f: Field): Counts {
    map t | t in TYPES :: TypeTotal(docs, t, f)
  }

  /** `write_baseline` of a scan. */
  function WriteBaseline(docs: seq<Doc>, rules: nat, skills: nat): Baseline {
    Baseline(TypeTable(docs, MissingField), TypeTable(docs, BareField), TypeTable(docs, ImplField),
      TypeTable(docs, SourceField), rules, skills, FileDebt(docs))
  }

  /** The per-file part of the ratchet: no new debtor, no field above its
      recorded value. */
  predicate FilesPass(base: FileTable, docs: seq<Doc>) {
    forall d | d in docs && InDebt(d) ::
      && d.name in base && base[d.name].ByField?
      && forall f: Field :: Amount(d.debt, f) <= Get(base[d.name].counts, Key(f))
  }

  /** `d` is a new debtor, owes more than recorded, or is recorded by a number
      that the file loop cannot read fields of. */
  predicate NewDebtor(base: FileTable, d: Doc) {
    InDebt(d) && d.name !in base
  }

  predicate WorseDebtor(base: FileTable, d: Doc) {
    && InDebt(d) && d.name in base && base[d.name].ByField?
    && exists f: Field :: Amount(d.debt, f) > Get(base[d.name].counts, Key(f))
  }

  predicate PlainDebtor(base: FileTable, d: Doc) {
    InDebt(d) && d.name in base && base[d.name].Plain?
  }

  /** The names of the documents for which `bad` holds, in listing order. */
  function Named(docs: seq<Doc>, bad: Doc -> bool): seq<string> {
    if docs == [] then []
    else
      var n := |docs| - 1;
      Named(docs[..n], bad) + if bad(docs[n]) then [docs[n].name] else []
  }

  lemma NobodyNamed(docs: seq<Doc>, bad: Doc -> bool)
    ensures Named(docs, bad) == [] <==> forall d | d in docs :: !bad(d)
  {
    if docs != [] {
      var n := |docs| - 1;
      assert docs == docs[..n] + [docs[n]];
      NobodyNamed(docs[..n], bad);
    }
  }

  lemma PassIsNobody(base: FileTable, docs: seq<Doc>)
    ensures FilesPass(base, docs) <==>
      && (forall d | d in docs :: !PlainDebtor(base, d))
      && Named(docs, d => NewDebtor(base, d)) == [] && Named(docs, d => WorseDebtor(base, d)) == []
  {
    NobodyNamed(docs, d => NewDebtor(base, d));
    NobodyNamed(docs, d => WorseDebtor(base, d));
  }

  /** The file loop of the ratchet; it dies on a debtor recorded by a number. */
  method CheckFiles(base: FileTable, docs: seq<Doc>)
    returns (crashed: bool, newly: seq<string>, worse: seq<string>)
    ensures crashed <==> exists d | d in docs :: PlainDebtor(base, d)
    ensures !crashed ==> newly == Named(docs, d => NewDebtor(base, d))
    ensures !crashed ==> worse == Named(docs, d => WorseDebtor(base, d))
    ensures !crashed && newly == [] && worse == [] <==> FilesPass(base, docs)
  {
    newly, worse := [], [];
    ghost var isNew := d => NewDebtor(base, d);
    ghost var isWorse := d => WorseDebtor(base, d);
    PassIsNobody(base, docs);
    for i := 0 to |docs|
      invariant forall d | d in docs[..i] :: !PlainDebtor(base, d)
      invariant newly == Named(docs[..i], isNew)
      invariant worse == Named(docs[..i], isWorse)
    {
      assert docs[..i + 1][..i] == docs[..i] && docs[..i + 1] == docs[..i] + [docs[i]];
      var d := docs[i];
      if !InDebt(d) { continue; }
      if d.name !in base {
        newly := newly + [d.name];
        continue;
      }
      if base[d.name].Plain? {
        assert d in docs && PlainDebtor(base, d);
        return true, [], [];
      }
      var was := base[d.name].counts;
      FourFields(d.debt, was);
      if d.debt.missing > Get(was, "missing") || d.debt.bare > Get(was, "bare")
        || d.debt.impl > Get(was, "impl") || d.debt.src > Get(was, "src")
      {
        worse := worse + [d.name];
      }
    }
    assert docs[..|docs|] == docs;
    crashed := false;
  }

  lemma FourFields(d: Debt, was: Counts)
    ensures (forall f: Field :: Amount(d, f) <= Get(was, Key(f))) <==>
      && d.missing <= Get(was, "missing") && d.bare <= Get(was, "bare")
      && d.impl <= Get(was, "impl") && d.src <= Get(was, "src")
  {
    hide Get;
    assert Amount(d, MissingField) == d.missing && Key(MissingField) == "missing";
    assert Amount(d, BareField) == d.bare && Key(BareField) == "bare";
    assert Amount(d, ImplField) == d.impl && Key(ImplField) == "impl";
    assert Amount(d, SourceField) == d.src && Key(SourceField) == "src";
  }

  lemma RecordedAmount(d: Debt, f: Field)
    ensures Get(Recorded(d), Key(f)) == Amount(d, f)
  {
  }

  /** A scan writes a baseline of the expected shape. */
  lemma WriteBaselineShape(docs: seq<Doc>, rules: nat, skills: nat)
    ensures Written(WriteBaseline(docs, rules, skills))
  {
    FileDebtNatural(docs);
    hide FileDebt;
    var b := WriteBaseline(docs, rules, skills);
    forall t: Table
      ensures (forall d | d in TYPES :: d in TableOf(b, t)) && TableOf(b, t).Keys <= (set d | d in TYPES)
      ensures Natural(TableOf(b, t))
    {
      assert TableOf(b, t) == TypeTable(docs, FieldOf(t));
      TypeTableShape(docs, FieldOf(t));
    }
  }

  lemma TypeTableShape(docs: seq<Doc>, f: Field)
    ensures (forall d | d in TYPES :: d in TypeTable(docs, f)) && TypeTable(docs, f).Keys <= (set d | d in TYPES)
    ensures Natural(TypeTable(docs, f))
  {
    hide TypeTotal;
  }

  lemma {:induction false} FileDebtNatural(docs: seq<Doc>)
    ensures forall f | f in FileDebt(docs) :: FileDebt(docs)[f].ByField? && Natural(FileDebt(docs)[f].counts)
  {
    if docs != [] { FileDebtNatural(docs[..|docs| - 1]); }
  }

  /** What the file table says about a listing with unique names. */
  lemma {:induction false} FileDebtEntry(docs: seq<Doc>, name: string)
    requires UniqueNames(docs)
    ensures name in FileDebt(docs) <==> exists d :: d in docs && d.name == name && InDebt(d)
    ensures forall d | d in docs && d.name == name && InDebt(d) :: FileDebt(docs)[name] == ByField(Recorded(d.debt))
  {
    if docs != [] {
      var n := |docs| - 1;
      assert docs == docs[..n] + [docs[n]];
      FileDebtEntry(docs[..n], name);
      assert forall d | d in docs[..n] :: d.name != docs[n].name;
    }
  }

  function Drop(docs: seq<Doc>, i: nat): seq<Doc>
    requires i < |docs|
  {
    docs[..i] + docs[i + 1..]
  }

  lemma {:induction false} TotalConcat(a: seq<Doc>, b: seq<Doc>, t: string, f: Field)
    ensures TypeTotal(a + b, t, f) == TypeTotal(a, t, f) + TypeTotal(b, t, f)
  {
    if b == [] {
      assert a + b == a;
    } else {
      var n := |b| - 1;
      assert (a + b)[..|a + b| - 1] == a + b[..n];
      TotalConcat(a, b[..n], t, f);
    }
  }

  lemma TotalDrop(docs: seq<Doc>, i: nat, t: string, f: Field)
    requires i < |docs|
    ensures TypeTotal(docs, t, f) ==
            TypeTotal(Drop(docs, i), t, f) + if DocType(docs[i].name) == t then Amount(docs[i].debt, f) else 0
  {
    var a, one, b := docs[..i], [docs[i]], docs[i + 1..];
    assert docs == a + one + b;
    TotalConcat(a + one, b, t, f);
    TotalConcat(a, one, t, f);
    TotalConcat(a, b, t, f);
    assert one[..0] == [];
  }

  /** Every current debtor was a debtor before, owing at least as much. */
  ghost predicate Covered(now: seq<Doc>, before: seq<Doc>, f: Field) {
    forall d | d in now && InDebt(d) ::
      exists i :: 0 <= i < |before| && before[i].name == d.name && Amount(d.debt, f) <= Amount(before[i].debt, f)
  }

  /** Totals follow file by file. */
  lemma {:induction false} TotalsFollow(now: seq<Doc>, before: seq<Doc>, t: string, f: Field)
    requires UniqueNames(now) && t in TYPES
    requires Covered(now, before, f)
    ensures TypeTotal(now, t, f) <= TypeTotal(before, t, f)
    decreases |now|
  {
    if now != [] {
      var n := |now| - 1;
      var d, init := now[n], now[..n];
      assert now == init + [d];
      if DocType(d.name) == t && InDebt(d) {
        var i :| 0 <= i < |before| && before[i].name == d.name && Amount(d.debt, f) <= Amount(before[i].debt, f);
        CoveredWithout(now, before, f, i);
        TotalsFollow(init, Drop(before, i), t, f);
        TotalDrop(before, i, t, f);
      } else {
        assert Covered(init, before, f);
        TotalsFollow(init, before, t, f);
      }
    }
  }

  lemma CoveredWithout(now: seq<Doc>, before: seq<Doc>, f: Field, i: nat)
    requires UniqueNames(now) && now != [] && Covered(now, before, f)
    requires i < |before| && before[i].name == now[|now| - 1].name
    ensures Covered(now[..|now| - 1], Drop(before, i), f)
  {
    hide InDebt;
    hide Amount;
    var init, rest := now[..|now| - 1], Drop(before, i);
    forall d | d in init && InDebt(d)
      ensures exists k :: 0 <= k < |rest| && rest[k].name == d.name && Amount(d.debt, f) <= Amount(rest[k].debt, f)
    {
      var k :| 0 <= k < |before| && before[k].name == d.name && Amount(d.debt, f) <= Amount(before[k].debt, f);
      assert d.name != now[|now| - 1].name;
      assert k != i;
      assert rest[if k < i then k else k - 1] == before[k];
    }
  }

  /** If the base totals are those of its own files, passing the per-file check
      implies that no per-type total rises. */
  lemma FilesPassImpliesTypesPass(before: seq<Doc>, now: seq<Doc>, t: string, f: Field)
    requires UniqueNames(before) && UniqueNames(now) && t in TYPES
    requires FilesPass(FileDebt(before), now)
    ensures TypeTotal(now, t, f) <= TypeTable(before, f)[t]
  {
    hide InDebt;
    forall d | d in now && InDebt(d)
      ensures exists i ::
        0 <= i < |before| && before[i].name == d.name && Amount(d.debt, f) <= Amount(before[i].debt, f)
    {
      FileDebtEntry(before, d.name);
      var was :| was in before && was.name == d.name && InDebt(was);
      RecordedAmount(was.debt, f);
      var i :| 0 <= i < |before| && before[i] == was;
    }
    TotalsFollow(now, before, t, f);
  }

  /** Hence writing a new baseline after a passing check loosens nothing. */
  lemma PassingScanKeepsBaseline(
    before: seq<Doc>, now: seq<Doc>, rules: nat, skills: nat, rulesNow: nat, skillsNow: nat)
    requires UniqueNames(before) && UniqueNames(now)
    requires FilesPass(FileDebt(before), now) && rulesNow <= rules && skillsNow <= skills
    ensures NoRegression(WriteBaseline(before, rules, skills), WriteBaseline(now, rulesNow, skillsNow))
  {
    var a, b := WriteBaseline(before, rules, skills), WriteBaseline(now, rulesNow, skillsNow);
    forall t: Table ensures TableHolds(TableOf(a, t), TableOf(b, t)) {
      TablePasses(before, now, t, rules, skills, rulesNow, skillsNow);
    }
    FileTablePasses(before, now);
  }

  function FieldOf(t: Table): Field {
    match t
    case MissingTable => MissingField
    case BareTable => BareField
    case ImplTable => ImplField
    case SourceTable => SourceField
  }

  lemma WrittenTable(docs: seq<Doc>, rules: nat, skills: nat, t: Table)
    ensures TableOf(WriteBaseline(docs, rules, skills), t) == TypeTable(docs, FieldOf(t))
  {
    hide FileDebt;
    hide TypeTable;
  }

  lemma TablePasses(before: seq<Doc>, now: seq<Doc>, t: Table, rules: nat, skills: nat, rulesNow: nat, skillsNow: nat)
    requires UniqueNames(before) && UniqueNames(now) && FilesPass(FileDebt(before), now)
    ensures TableHolds(
              TableOf(WriteBaseline(before, rules, skills), t), TableOf(WriteBaseline(now, rulesNow, skillsNow), t))
  {
    hide FilesPass;
    hide FileDebt;
    hide TypeTotal;
    WrittenTable(before, rules, skills, t);
    WrittenTable(now, rulesNow, skillsNow, t);
    hide WriteBaseline;
    hide TableOf;
    forall d | d in TYPES ensures TypeTotal(now, d, FieldOf(t)) <= TypeTable(before, FieldOf(t))[d] {
      FilesPassImpliesTypesPass(before, now, d, FieldOf(t));
    }
  }

  lemma FileTablePasses(before: seq<Doc>, now: seq<Doc>)
    requires UniqueNames(now) && FilesPass(FileDebt(before), now)
    ensures FilesHold(FileDebt(before), FileDebt(now))
  {
    hide InDebt;
    forall name | name in FileDebt(now)
      ensures name in FileDebt(before) && EntryHolds(FileDebt(before)[name], FileDebt(now)[name])
    {
      FileDebtEntry(now, name);
      var d :| d in now && d.name == name && InDebt(d);
      RecordedFields(d.debt, FileDebt(before)[name].counts);
    }
  }

  lemma RecordedFields(d: Debt, base: Counts)
    requires forall f: Field :: Amount(d, f) <= Get(base, Key(f))
    ensures FileHolds(base, Recorded(d))
  {
    assert Amount(d, MissingField) <= Get(base, "missing") && Amount(d, BareField) <= Get(base, "bare");
    assert Amount(d, ImplField) <= Get(base, "impl") && Amount(d, SourceField) <= Get(base, "src");
  }

  // ------------------------------------------------------- both gates of one run

  /** What a ratchet run checks of the working tree against one baseline: the
      per-type totals, the two counters and the file loop. */
  ghost predicate TreePasses(base: Baseline, docs: seq<Doc>, rules: nat, skills: nat) {
    && (forall t: Table, d | d in TYPES :: TypeTotal(docs, d, FieldOf(t)) <= Get(TableOf(base, t), d))
    && rules <= base.rulesMissing && skills <= base.skillsMissing
    && FilesPass(base.files, docs)
  }

  /** A run compares its own baseline with the target branch's and its tree
      with its own baseline. Together they bound the tree by the target branch:
      rewriting one's own baseline gains nothing. */
  lemma OwnBaselineGainsNothing(target: Baseline, own: Baseline, docs: seq<Doc>, rules: nat, skills: nat)
    requires NoRegression(target, own) && TreePasses(own, docs, rules, skills)
    requires KeepsKinds(target, own) && KeepsNegatives(target, own)
    requires forall t: Table, d | d in TYPES :: d in TableOf(target, t)
    ensures TreePasses(target, docs, rules, skills)
  {
    hide TypeTotal;
    hide InDebt;
    forall t: Table, d | d in TYPES ensures TypeTotal(docs, d, FieldOf(t)) <= Get(TableOf(target, t), d) {
      assert TableHolds(TableOf(target, t), TableOf(own, t)) && d in TableOf(target, t);
    }
    forall d | d in docs && InDebt(d)
      ensures d.name in target.files && target.files[d.name].ByField?
      ensures forall f: Field :: Amount(d.debt, f) <= Get(target.files[d.name].counts, Key(f))
    {
      assert d.name in own.files && own.files[d.name].ByField?;
      assert EntryHolds(target.files[d.name], own.files[d.name]);
    }
  }

  /** On baselines as the script writes them nothing else is needed. */
  lemma WrittenBaselineGainsNothing(target: Baseline, own: Baseline, docs: seq<Doc>, rules: nat, skills: nat)
    requires Written(target) && Written(own)
    requires NoRegression(target, own) && TreePasses(own, docs, rules, skills)
    ensures TreePasses(target, docs, rules, skills)
  {
    hide NoRegression;
    hide TreePasses;
    WrittenKeeps(target, own);
    forall t: Table, d | d in TYPES ensures d in TableOf(target, t) {}
    OwnBaselineGainsNothing(target, own, docs, rules, skills);
  }
}
