/** Setting up a collection: the declared metadata, logs and retained reports become one plan. */
module FileInventory {
  import opened Wrappers
  import opened FilePlan
  import Texts
  import ReportTrie

  const MEMBERS := 10000
  const DEPTH := 64
  const METADATA_BYTES := ReportTrie.METADATA_BYTES
  const LOG_BYTES := 64 * 1024 * 1024
  const MAX_BYTES := 3 * METADATA_BYTES + 4 * LOG_BYTES + ReportTrie.REPORT_BYTES

  datatype Declared = Declared(path: Path, member: Member)

  /** Insert all, in order. */
  function Build(declared: seq<Declared>): (r: Option<Plan>)
    requires forall d <- declared :: d.path != []
    ensures r.Some? ==> r.value.Directory?
  {
    if declared == [] then Some(Directory([])) else
    var before, last := Build(declared[..|declared| - 1]), declared[|declared| - 1];
    if before.None? then None else Insert(before.value, last.path, last.member)
  }

  /** The entries of the plan, if one can be built. */
  function EntriesOf(declared: seq<Declared>): nat
    requires forall d <- declared :: d.path != []
  {
    if Build(declared).Some? then Total(Build(declared).value, Entries) else 0
  }

  function CapsOf(declared: seq<Declared>): nat {
    if declared == [] then 0 else CapsOf(declared[..|declared| - 1]) + Cap(declared[|declared| - 1].member)
  }

  /** No declared path is a prefix of, or the same as, another. */
  ghost predicate Unrelated(declared: seq<Declared>) {
    forall i, j | 0 <= i < j < |declared| :: !Related(declared[i].path, declared[j].path)
  }

  lemma {:induction false} Built(declared: seq<Declared>)
    requires forall d <- declared :: d.path != []
    ensures Build(declared).Some? ==>
      && Inhabited(Build(declared).value) && Total(Build(declared).value, Caps) == CapsOf(declared)
      && forall path :: HasFile(Build(declared).value, path) <==> exists d <- declared :: d.path == path
  {
    if declared != [] && Build(declared).Some? {
      var init, last := declared[..|declared| - 1], declared[|declared| - 1];
      Built(init);
      var p := Build(init).value;
      InsertInhabited(p, last.path, last.member);
      InsertTotal(p, last.path, last.member, Caps);
      assert declared == init + [last];
      forall path ensures HasFile(Build(declared).value, path) <==> exists d <- declared :: d.path == path {
        InsertFiles(p, last.path, last.member, path);
        assert last in declared;
        hide HasFile, Insert;
      }
    }
  }

  /** A plan can be built exactly when the paths are pairwise unrelated. */
  lemma {:induction false} BuildExactly(declared: seq<Declared>)
    requires forall d <- declared :: d.path != []
    ensures Build(declared).Some? <==> Unrelated(declared)
  {
    if declared != [] {
      var init, last := declared[..|declared| - 1], declared[|declared| - 1];
      BuildExactly(init);
      if Build(init).Some? {
        Built(init);
        CollidesExactly(Build(init).value, last.path, last.member);
        UnrelatedNext(init, last);
        assert declared == init + [last];
        hide HasFile, Insert, Related;
        assert Build(declared).None? <==> exists d <- init :: Related(d.path, last.path);
      } else {
        if Unrelated(declared) { UnrelatedInit(declared); }
      }
    }
  }

  lemma UnrelatedInit(declared: seq<Declared>)
    requires declared != [] && Unrelated(declared)
    ensures Unrelated(declared[..|declared| - 1])
  {
    hide Related;
  }

  lemma UnrelatedNext(init: seq<Declared>, last: Declared)
    ensures Unrelated(init + [last]) <==> (Unrelated(init) && forall d <- init :: !Related(d.path, last.path))
  {
    hide Related;
    var all := init + [last];
    if Unrelated(all) {
      forall i, j | 0 <= i < j < |init| ensures !Related(init[i].path, init[j].path) {
        assert all[i] == init[i] && all[j] == init[j];
      }
      forall d <- init ensures !Related(d.path, last.path) {
        var i :| 0 <= i < |init| && init[i] == d;
        assert all[i] == d && all[|init|] == last;
      }
    }
    if Unrelated(init) && forall d <- init :: !Related(d.path, last.path) {
      forall i, j | 0 <= i < j < |all| ensures !Related(all[i].path, all[j].path) {
        assert all[i] == init[i] && init[i] in init;
      }
    }
  }

  // ----- the members are the distinct prefixes -----

  /** The distinct non-empty prefixes of the declared paths. */
  ghost function Prefixes(declared: seq<Declared>): set<Path> {
    set d, n | d in declared && 0 < n <= |d.path| :: d.path[..n]
  }

  /** The prefixes of a path that are longer than `depth`. */
  ghost function Longer(path: Path, depth: nat, n: nat): set<Path>
    requires n <= |path|
  {
    set m | depth < m <= n :: path[..m]
  }

  lemma {:induction false} LongerCount(path: Path, depth: nat, n: nat)
    requires depth <= n <= |path|
    ensures |Longer(path, depth, n)| == n - depth
  {
    if n > depth {
      LongerCount(path, depth, n - 1);
      assert Longer(path, depth, n) == Longer(path, depth, n - 1) + {path[..n]};
      assert forall q <- Longer(path, depth, n - 1) :: |q| < n;
    } else {
      assert Longer(path, depth, n) == {};
    }
  }

  lemma PrefixesNext(init: seq<Declared>, last: Declared, q: Path)
    ensures q in Prefixes(init + [last]) <==> q in Prefixes(init) || IsPrefix(q, last.path)
  {
    var all := init + [last];
    if q in Prefixes(all) {
      var d, n :| d in all && 0 < n <= |d.path| && q == d.path[..n];
      if d in init { assert q in Prefixes(init); }
    }
    if q in Prefixes(init) {
      var d, n :| d in init && 0 < n <= |d.path| && q == d.path[..n];
      assert d in all;
    }
    if IsPrefix(q, last.path) { assert last in all && q == last.path[..|q|]; }
  }

  /** The nodes of the plan are the prefixes of what was declared. */
  lemma {:induction false} NodesArePrefixes(declared: seq<Declared>, q: Path)
    requires (forall d <- declared :: d.path != []) && Build(declared).Some?
    ensures HasNode(Build(declared).value, q) <==> q in Prefixes(declared)
  {
    if declared != [] {
      var init, last := declared[..|declared| - 1], declared[|declared| - 1];
      assert declared == init + [last];
      NodesArePrefixes(init, q);
      InsertNodes(Build(init).value, last.path, last.member, q);
      PrefixesNext(init, last, q);
    }
  }

  /** A plan has as many entries as the declared paths have distinct prefixes. */
  lemma {:induction false} EntriesExactly(declared: seq<Declared>)
    requires (forall d <- declared :: d.path != []) && Build(declared).Some?
    ensures EntriesOf(declared) == |Prefixes(declared)|
  {
    if declared == [] {
      assert Prefixes(declared) == {};
    } else {
      var init, last := declared[..|declared| - 1], declared[|declared| - 1];
      assert declared == init + [last];
      EntriesExactly(init);
      var p := Build(init).value;
      InsertTotal(p, last.path, last.member, Entries);
      AddedExactly(p, last.path, last.member);
      LongerCount(last.path, Depth(p, last.path), |last.path|);
      PrefixesGrow(init, last);
      hide Insert, HasNode, Total, Added, Depth, Longer, Prefixes;
    }
  }

  lemma PrefixesGrow(init: seq<Declared>, last: Declared)
    requires (forall d <- init :: d.path != []) && Build(init).Some?
    ensures var added := Longer(last.path, Depth(Build(init).value, last.path), |last.path|);
      Prefixes(init + [last]) == Prefixes(init) + added && Prefixes(init) !! added
  {
    hide Build, Insert, HasNode, Depth, Prefixes;
    var p := Build(init).value;
    var depth := Depth(p, last.path);
    var added := Longer(last.path, depth, |last.path|);
    forall q ensures q in Prefixes(init + [last]) <==> q in Prefixes(init) + added {
      PrefixesNext(init, last, q);
      NodesArePrefixes(init, q);
      if IsPrefix(q, last.path) {
        DepthExactly(p, last.path, |q|);
        assert depth < |q| ==> q in added;
      }
    }
    forall q <- added ensures q !in Prefixes(init) {
      DepthExactly(p, last.path, |q|);
      NodesArePrefixes(init, q);
    }
  }

  /** The names and depths that the native file owner accepts. */
  predicate Portable(d: Declared, nameOk: Text -> bool, rootDepth: nat) {
    d.path != [] && (forall part <- d.path :: nameOk(part)) && rootDepth + |d.path| <= DEPTH
  }

  lemma {:induction false} EntriesGrow(declared: seq<Declared>, n: nat)
    requires n <= |declared| && (forall d <- declared :: d.path != []) && Build(declared).Some?
    ensures (forall d <- declared[..n] :: d.path != []) && Build(declared[..n]).Some?
    ensures Total(Build(declared[..n]).value, Entries) <= Total(Build(declared).value, Entries)
    decreases |declared|
  {
    if n < |declared| {
      var init, last := declared[..|declared| - 1], declared[|declared| - 1];
      InsertTotal(Build(init).value, last.path, last.member, Entries);
      EntriesGrow(init, n);
      assert init[..n] == declared[..n];
    } else {
      assert declared[..n] == declared;
    }
  }

  /** The setup loop, with its count of members. It succeeds exactly when every name is portable, no path
      collides with another, and the plan has at most 10000 entries. */
  method Setup(declared: seq<Declared>, nameOk: Text -> bool, rootDepth: nat) returns (r: Option<Plan>, members: nat)
    requires forall d <- declared :: d.path != []
    ensures r.Some? <==>
            && (forall d <- declared :: Portable(d, nameOk, rootDepth))
            && Unrelated(declared) && EntriesOf(declared) <= MEMBERS
    ensures r.Some? ==> r == Build(declared) && members == Total(r.value, Entries) <= MEMBERS
  {
    hide Insert, Portable, Related, Added;
    BuildExactly(declared);
    var plan, n := Directory([]), 0;
    members := 0;
    assert declared[..0] == [];
    while n < |declared|
      invariant n <= |declared| && forall i | 0 <= i < n :: Portable(declared[i], nameOk, rootDepth)
      invariant plan.Directory? && Build(declared[..n]) == Some(plan)
      invariant members == Total(plan, Entries) <= MEMBERS
    {
      var d := declared[n];
      assert declared[..n + 1][..n] == declared[..n];
      assert d in declared;
      if Build(declared).Some? { EntriesGrow(declared, n + 1); }
      if !Portable(d, nameOk, rootDepth) { return None, members; }
      var next := Insert(plan, d.path, d.member);
      if next.None? { return None, members; }
      InsertTotal(plan, d.path, d.member, Entries);
      members := members + Added(plan, d.path);
      if members > MEMBERS { return None, members; }
      plan := next.value;
      n := n + 1;
    }
    assert declared[..n] == declared;
    r := Some(plan);
  }

  // ----- the bootstrap inventory -----

  const REPORTS: Text := ReportTrie.Chars("reports")

  /** The three metadata names, then the four log names. */
  function FixedName(i: nat): (name: string)
    requires i < 7
  {
    match i
    case 0 => "start.json"
    case 1 => "receipt.json"
    case 2 => "report-manifest.json"
    case 3 => "product.stdout.log"
    case 4 => "product.stderr.log"
    case 5 => "stop.stdout.log"
    case _ => "stop.stderr.log"
  }

  function Fixed(metadata: seq<Member>, i: nat): Declared
    requires |metadata| == 3 && i < 7
  {
    Declared([ReportTrie.Chars(FixedName(i))],
             if i < 3 then metadata[i] else Member(LOG_BYTES, None, None, None))
  }

  function ReportPath(row: ReportTrie.Row): Path {
    [REPORTS] + Texts.Split(row.source, 47)
  }

  function ReportMembers(rows: seq<ReportTrie.Row>): (r: seq<Declared>)
    requires forall row <- rows :: row.bytes >= 0
    ensures |r| == |rows|
    ensures forall i | 0 <= i < |rows| :: r[i].path == ReportPath(rows[i]) && Cap(r[i].member) == rows[i].bytes
  {
    if rows == [] then [] else
      var row := rows[|rows| - 1];
      ReportMembers(rows[..|rows| - 1]) +
      [Declared(ReportPath(row), Member(ReportTrie.REPORT_BYTES, Some(row.bytes), Some(row.sha256), None))]
  }

  /** Compatible report paths are not prefixes of one another. */
  lemma {:induction false} CompatibleUnrelated(a: Path, b: Path, n: nat)
    requires n <= |a| && n <= |b| && a[..n] == b[..n] && a != [] && b != [] && ReportTrie.Compatible(a, b)
    ensures !Related(a[n..], b[n..])
    decreases |a| - n
  {
    hide ReportTrie.Folded;
    if n > 0 { SameFold(a, b, n); }
    if n < |a| && n < |b| && a[n] == b[n] {
      assert a[..n + 1] == a[..n] + [a[n]] && b[..n + 1] == b[..n] + [b[n]];
      CompatibleUnrelated(a, b, n + 1);
      assert a[n..][1..] == a[n + 1..] && b[n..][1..] == b[n + 1..];
    }
  }

  lemma SameFold(a: Path, b: Path, n: nat)
    requires n <= |a| && n <= |b| && a[..n] == b[..n]
    ensures ReportTrie.Folded(a, n) == ReportTrie.Folded(b, n)
  {
    forall i | 0 <= i < n ensures a[i] == b[i] { assert a[..n][i] == b[..n][i]; }
  }

  lemma ReportMembersNext(rows: seq<ReportTrie.Row>, row: ReportTrie.Row)
    requires forall r <- rows + [row] :: r.bytes >= 0
    ensures forall r <- rows :: r.bytes >= 0
    ensures |ReportMembers(rows + [row])| == |rows| + 1
    ensures var d := ReportMembers(rows + [row])[|rows|];
      ReportMembers(rows + [row]) == ReportMembers(rows) + [d] && d.path == ReportPath(row) && Cap(d.member) == row.bytes
  {
    assert forall r <- rows :: r in rows + [row];
    assert (rows + [row])[..|rows|] == rows;
  }

  /** The retained rows are rows, and their paths are paths of the inventory. */
  lemma {:induction false} ChangedRows(rows: seq<ReportTrie.Row>)
    ensures forall r <- ReportTrie.Changed(rows) ::
      r in rows && Texts.Split(r.source, 47) in ReportTrie.PathsOf(rows)
  {
    if rows != [] {
      ChangedRows(rows[..|rows| - 1]);
      hide Texts.Split;
      assert forall p <- ReportTrie.PathsOf(rows[..|rows| - 1]) :: p in ReportTrie.PathsOf(rows);
    }
  }

  lemma RelatedReports(a: ReportTrie.Row, b: ReportTrie.Row)
    requires ReportTrie.Compatible(Texts.Split(a.source, 47), Texts.Split(b.source, 47))
    ensures !Related(ReportPath(a), ReportPath(b))
  {
    var p, q := Texts.Split(a.source, 47), Texts.Split(b.source, 47);
    assert p[..0] == q[..0];
    CompatibleUnrelated(p, q, 0);
    assert p[0..] == p && q[0..] == q;
    assert ReportPath(a)[1..] == p && ReportPath(b)[1..] == q;
  }

  /** Retained reports never collide, and their bytes are within the declared total. */
  lemma {:induction false} RetainedReports(rows: seq<ReportTrie.Row>)
    requires ReportTrie.Pairwise(ReportTrie.PathsOf(rows)) && forall r <- rows :: r.bytes >= 0
    ensures forall r <- ReportTrie.Changed(rows) :: r.bytes >= 0
    ensures Unrelated(ReportMembers(ReportTrie.Changed(rows)))
    ensures CapsOf(ReportMembers(ReportTrie.Changed(rows))) == ReportTrie.Bytes(rows, true) <= ReportTrie.Bytes(rows, false)
  {
    hide Unrelated, ReportMembers, ReportTrie.FitsAll, Texts.Split, CapsOf;
    ChangedRows(rows);
    if rows == [] {
      NoReports();
    } else {
      var init, last := rows[..|rows| - 1], rows[|rows| - 1];
      assert ReportTrie.PathsOf(rows)[..|init|] == ReportTrie.PathsOf(init);
      RetainedReports(init);
      if last.changed {
        RetainedNext(init, last);
      } else {
        assert ReportTrie.Changed(init) + [] == ReportTrie.Changed(init);
      }
    }
  }

  lemma NoReports()
    ensures Unrelated(ReportMembers([])) && CapsOf(ReportMembers([])) == 0
  {
  }

  lemma RetainedNext(init: seq<ReportTrie.Row>, last: ReportTrie.Row)
    requires ReportTrie.FitsAll(ReportTrie.PathsOf(init), Texts.Split(last.source, 47))
    requires forall r <- init :: r.bytes >= 0
    requires last.bytes >= 0
    requires (forall r <- ReportTrie.Changed(init) :: r.bytes >= 0) && Unrelated(ReportMembers(ReportTrie.Changed(init)))
    ensures forall r <- ReportTrie.Changed(init) + [last] :: r.bytes >= 0
    ensures Unrelated(ReportMembers(ReportTrie.Changed(init) + [last]))
    ensures CapsOf(ReportMembers(ReportTrie.Changed(init) + [last])) ==
            CapsOf(ReportMembers(ReportTrie.Changed(init))) + last.bytes
  {
    hide Related, ReportTrie.Compatible, Texts.Split;
    var kept := ReportTrie.Changed(init);
    ChangedRows(init);
    ReportMembersNext(kept, last);
    var members, d := ReportMembers(kept), ReportMembers(kept + [last])[|kept|];
    forall e <- members ensures !Related(e.path, d.path) {
      var i :| 0 <= i < |members| && members[i] == e;
      assert kept[i] in kept;
      RelatedReports(kept[i], last);
    }
    UnrelatedNext(members, d);
    assert (members + [d])[..|members|] == members;
  }

  /** Everything that a collection copies. */
  function Inventory(metadata: seq<Member>, rows: seq<ReportTrie.Row>): (declared: seq<Declared>)
    requires |metadata| == 3 && forall r <- ReportTrie.Changed(rows) :: r.bytes >= 0
  {
    seq(7, i requires 0 <= i < 7 => Fixed(metadata, i)) + ReportMembers(ReportTrie.Changed(rows))
  }

  lemma FixedNames(i: nat)
    requires i < 7
    ensures ReportTrie.Chars(FixedName(i)) != REPORTS
    ensures forall j | 0 <= j < 7 && j != i :: ReportTrie.Chars(FixedName(i)) != ReportTrie.Chars(FixedName(j))
  {
    assert |FixedName(0)| == 10 && |FixedName(1)| == 12 && |FixedName(2)| == 20 && |FixedName(3)| == 18;
    assert |FixedName(4)| == 18 && |FixedName(5)| == 15 && |FixedName(6)| == 15 && |REPORTS| == 7;
    assert ReportTrie.Chars(FixedName(3))[11] == 111 && ReportTrie.Chars(FixedName(4))[11] == 101;
    assert ReportTrie.Chars(FixedName(5))[8] == 111 && ReportTrie.Chars(FixedName(6))[8] == 101;
  }

  lemma {:induction false} CapsConcat(a: seq<Declared>, b: seq<Declared>)
    ensures CapsOf(a + b) == CapsOf(a) + CapsOf(b)
  {
    if b == [] {
      assert a + b == a;
    } else {
      CapsConcat(a, b[..|b| - 1]);
      assert (a + b)[..|a + b| - 1] == a + b[..|b| - 1];
    }
  }

  lemma {:induction false} FixedCaps(metadata: seq<Member>, n: nat)
    requires |metadata| == 3 && n <= 7 && forall m <- metadata :: Cap(m) <= METADATA_BYTES
    ensures CapsOf(seq(n, i requires 0 <= i < n => Fixed(metadata, i))) <=
            if n <= 3 then n * METADATA_BYTES else 3 * METADATA_BYTES + (n - 3) * LOG_BYTES
  {
    hide FixedName, ReportTrie.Chars, Cap, Fixed;
    if n > 0 {
      FixedCaps(metadata, n - 1);
      FixedCap(metadata, n - 1);
      var s := seq(n, i requires 0 <= i < n => Fixed(metadata, i));
      assert s[..n - 1] == seq(n - 1, i requires 0 <= i < n - 1 => Fixed(metadata, i));
    }
  }

  lemma FixedCap(metadata: seq<Member>, i: nat)
    requires |metadata| == 3 && i < 7 && forall m <- metadata :: Cap(m) <= METADATA_BYTES
    ensures Cap(Fixed(metadata, i).member) <= if i < 3 then METADATA_BYTES else LOG_BYTES
  {
    hide FixedName, ReportTrie.Chars;
    if i < 3 { assert metadata[i] in metadata; }
  }

  /** An accepted inventory never collides, and its caps never exceed the collector's byte limit; so setup
      fails on it only for a name, a depth or more than 10000 entries. */
  lemma InventoryFits(metadata: seq<Member>, rows: seq<ReportTrie.Row>, emptySha: Text)
    requires |metadata| == 3 && (forall m <- metadata :: Cap(m) <= METADATA_BYTES)
    requires ReportTrie.Acceptable(rows, emptySha)
    ensures forall r <- ReportTrie.Changed(rows) :: r.bytes >= 0
    ensures forall d <- Inventory(metadata, rows) :: d.path != []
    ensures Unrelated(Inventory(metadata, rows)) && CapsOf(Inventory(metadata, rows)) <= MAX_BYTES
    ensures Build(Inventory(metadata, rows)).Some? && Total(Build(Inventory(metadata, rows)).value, Caps) <= MAX_BYTES
  {
    hide Fixed, FixedName, ReportTrie.RowOk, ReportTrie.Pairwise, ReportTrie.Increasing, Unrelated, Build, CapsOf, Total;
    forall r <- rows ensures r.bytes >= 0 { ReportTrie.RowBytes(r, emptySha); }
    RetainedReports(rows);
    var reports := ReportMembers(ReportTrie.Changed(rows));
    var first := seq(7, i requires 0 <= i < 7 => Fixed(metadata, i));
    FixedCaps(metadata, 7);
    CapsConcat(first, reports);
    UnrelatedFixed(metadata, reports);
    forall d <- Inventory(metadata, rows) ensures d.path != [] {
      if d in first {
        FixedPath(metadata);
      }
    }
    BuildExactly(Inventory(metadata, rows));
    Built(Inventory(metadata, rows));
  }

  lemma FixedPath(metadata: seq<Member>)
    requires |metadata| == 3
    ensures forall d <- seq(7, i requires 0 <= i < 7 => Fixed(metadata, i)) :: d.path != []
  {
    hide FixedName;
  }

  lemma UnrelatedFixed(metadata: seq<Member>, reports: seq<Declared>)
    requires |metadata| == 3 && Unrelated(reports) && forall i | 0 <= i < |reports| :: reports[i].path != [] && reports[i].path[0] == REPORTS
    ensures Unrelated(seq(7, i requires 0 <= i < 7 => Fixed(metadata, i)) + reports)
  {
    var first := seq(7, i requires 0 <= i < 7 => Fixed(metadata, i));
    var all := first + reports;
    hide ReportTrie.Chars, FixedName;
    forall i, j | 0 <= i < j < |all| ensures !Related(all[i].path, all[j].path) {
      if i < 7 {
        FixedNames(i);
        assert all[i] == Fixed(metadata, i);
        if j < 7 {
          assert all[j] == Fixed(metadata, j);
        } else {
          assert all[j] == reports[j - 7];
        }
      } else {
        assert all[i] == reports[i - 7] && all[j] == reports[j - 7];
      }
    }
  }

  // ----- an accepted inventory that setup refuses -----

  lemma {:induction false} JoinLength(parts: Path, longest: nat)
    requires forall p <- parts :: |p| <= longest
    ensures |Texts.Join(parts, 47)| <= (longest + 1) * |parts|
    decreases |parts|
  {
    if |parts| > 0 {
      assert parts[0] in parts;
      JoinLength(parts[1..], longest);
      assert (longest + 1) * |parts| == (longest + 1) * |parts[1..]| + longest + 1;
    }
  }

  predicate Lower(s: Text) {
    forall i | 0 <= i < |s| :: 97 <= s[i] <= 122
  }

  /** No device has such a name: their names have 3, 4, 6 or 7 letters and begin with a, c, l, n or p. */
  predicate Ordinary(s: Text) {
    s != [] && (|s| !in {3, 4, 6, 7} || s[0] !in {97, 99, 108, 110, 112})
  }

  /** A short lower-case name is a component unless it could be a device. */
  lemma PlainComponent(s: Text)
    requires 0 < |s| <= 100 && Lower(s) && Ordinary(s)
    ensures ReportTrie.Component(s) && 47 !in s
  {
    StemPlain(s);
    assert ReportTrie.RightStripped(s) == s;
    assert s[0] != 46;
    forall d <- ReportTrie.DEVICES ensures s != ReportTrie.Chars(d) { NotDevice(s, d); }
  }

  lemma NotDevice(s: Text, d: string)
    requires Ordinary(s) && d in ReportTrie.DEVICES
    ensures s != ReportTrie.Chars(d)
  {
    DeviceNames();
    if |d| == |s| { assert ReportTrie.Chars(d)[0] == d[0] as int; }
  }

  lemma DeviceNames()
    ensures forall d <- ReportTrie.DEVICES :: |d| in {3, 4, 6, 7} && d[0] as int in {97, 99, 108, 110, 112}
  {
  }

  lemma {:induction false} StemPlain(s: Text)
    requires Lower(s)
    ensures ReportTrie.Stem(s) == s && ReportTrie.Fold(s) == s
  {
    if s != [] {
      StemPlain(s[1..]);
      assert s == [s[0]] + s[1..];
    }
  }

  /** build/reports/a/a/.../a, with `n` times a. */
  function DeepPath(n: nat): (p: Path)
    ensures |p| == n + 2
  {
    [ReportTrie.Chars("build"), ReportTrie.Chars("reports")] + seq(n, _ => [97])
  }

  lemma DeepComponents(n: nat)
    ensures forall p <- DeepPath(n) :: ReportTrie.Component(p) && 47 !in p && |p| <= 7
  {
    hide ReportTrie.Component;
    BuildComponent();
    ReportsComponent();
    LetterComponent();
  }

  lemma BuildComponent()
    ensures var s := ReportTrie.Chars("build"); ReportTrie.Component(s) && 47 !in s && |s| == 5
  {
    var s := ReportTrie.Chars("build");
    assert s == [98, 117, 105, 108, 100];
    hide ReportTrie.Component, ReportTrie.Chars;
    PlainComponent(s);
  }

  lemma ReportsComponent()
    ensures var s := ReportTrie.Chars("reports"); ReportTrie.Component(s) && 47 !in s && |s| == 7
  {
    var s := ReportTrie.Chars("reports");
    assert s == [114, 101, 112, 111, 114, 116, 115];
    hide ReportTrie.Component, ReportTrie.Chars;
    PlainComponent(s);
  }

  lemma LetterComponent()
    ensures ReportTrie.Component([97]) && 47 !in [97]
  {
    hide ReportTrie.Component;
    PlainComponent([97]);
  }

  function DeepRow(n: nat, emptySha: Text): ReportTrie.Row {
    var source := Texts.Join(DeepPath(n), 47);
    ReportTrie.Row(source, emptySha, 0, true, ReportTrie.Chars("reports/") + source)
  }

  lemma DeepSource(n: nat)
    requires n <= 256
    ensures var source := Texts.Join(DeepPath(n), 47);
      (n > 0 ==> ReportTrie.Source(source)) && Texts.Split(source, 47) == DeepPath(n)
  {
    hide ReportTrie.Component, ReportTrie.Chars, Texts.Split;
    var parts := DeepPath(n);
    DeepComponents(n);
    Texts.SplitJoin(parts, 47);
    JoinLength(parts, 7);
    assert parts[0] == ReportTrie.Chars("build") && parts[1] == ReportTrie.Chars("reports");
    assert Texts.Join(parts, 47) == parts[0] + [47] + Texts.Join(parts[1..], 47);
  }

  lemma {:induction false} FreshBound(was: ReportTrie.Nodes, parts: Path, index: nat, i: nat)
    requires i <= |parts|
    ensures ReportTrie.Fresh(was, parts, index, i) <= i
  {
    hide ReportTrie.Folded;
    if i > 0 { FreshBound(was, parts, index, i - 1); }
  }

  lemma NoPaths(parts: Path)
    ensures ReportTrie.Represents(map[], [], map[]) && ReportTrie.FitsAll([], parts) && ReportTrie.Counted([]) == {}
  {
    ReportTrie.NothingYet([], []);
  }

  lemma SinglePath(parts: Path)
    ensures |ReportTrie.Counted([parts])| <= |parts| && ReportTrie.Pairwise([parts])
  {
    hide ReportTrie.Folded, ReportTrie.Root, ReportTrie.Fresh, ReportTrie.Counted, ReportTrie.Represents, ReportTrie.FitsAll;
    NoPaths(parts);
    ReportTrie.CountGrows(map[], [], map[], parts);
    FreshBound(map[], parts, ReportTrie.Root(parts), |parts|);
    assert [] + [parts] == [parts];
    var one := [parts];
    assert one[..|one| - 1] == [] && ReportTrie.Pairwise([]);
  }

  /** One empty report with 64 or more components is an inventory that the report rules accept; its place in the
      plan is too deep for every root, so setup refuses it. */
  lemma DeepReportRefused(n: nat, emptySha: Text, nameOk: Text -> bool, rootDepth: nat)
    requires 62 <= n <= 256 && ReportTrie.IsSha(emptySha)
    ensures var row := DeepRow(n, emptySha);
      && ReportTrie.Acceptable([row], emptySha) && ReportTrie.Changed([row]) == [row]
      && !Portable(Declared(ReportPath(row), Member(ReportTrie.REPORT_BYTES, Some(0), Some(emptySha), None)), nameOk, rootDepth)
  {
    hide ReportTrie.Source, ReportTrie.Chars, ReportTrie.Counted, ReportTrie.Pairwise, Texts.Split, Texts.Join;
    var row := DeepRow(n, emptySha);
    DeepSource(n);
    SinglePath(DeepPath(n));
    var rows := [row];
    assert rows[..0] == [] && ReportTrie.PathsOf([]) == [] && ReportTrie.Changed([]) == [];
    assert ReportTrie.PathsOf(rows) == [] + [DeepPath(n)] == [DeepPath(n)];
    assert ReportTrie.Bytes(rows, false) == 0;
    assert |ReportPath(row)| == n + 3;
  }
}
