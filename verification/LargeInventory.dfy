/** An inventory that the report rules accept and the collector refuses for its size: 5000 reports, each in a
    directory of its own. */
module LargeInventory {
  import opened Wrappers
  import opened FilePlan
  import opened FileInventory
  import opened ReportTrie
  import Texts

  const BUILD: Text := Chars("build")
  const REPORT_ROOT: Text := Chars("reports")

  /** `n` times the letter b. */
  function Name(n: nat): (t: Text)
    ensures |t| == n && Lower(t)
  {
    seq(n, _ => 98)
  }

  /** build/reports/b...b/b...b/f */
  function ReportAt(i: nat, j: nat): (p: FilePlan.Path)
    ensures |p| == 5
  {
    [BUILD, REPORT_ROOT, Name(i), Name(j), [102]]
  }

  function I(k: nat): nat {
    k / 100 + 1
  }

  function J(k: nat): nat {
    k % 100 + 1
  }

  function PathAt(k: nat): FilePlan.Path {
    ReportAt(I(k), J(k))
  }

  function RowAt(k: nat, sha: Text): ReportTrie.Row {
    var source := Texts.Join(PathAt(k), 47);
    ReportTrie.Row(source, sha, 0, true, Chars("reports/") + source)
  }

  function Rows(m: nat, sha: Text): (rows: seq<ReportTrie.Row>)
    ensures |rows| == m && forall k | 0 <= k < m :: rows[k] == RowAt(k, sha)
  {
    if m == 0 then [] else Rows(m - 1, sha) + [RowAt(m - 1, sha)]
  }

  // ----- every row is well formed -----

  lemma NameComponent(n: nat)
    requires 0 < n <= 100
    ensures Component(Name(n)) && 47 !in Name(n)
  {
    hide Component;
    PlainComponent(Name(n));
  }

  lemma PathComponents(i: nat, j: nat)
    requires 0 < i <= 100 && 0 < j <= 100
    ensures forall p <- ReportAt(i, j) :: Component(p) && 47 !in p && |p| <= 100
  {
    hide Component, Chars;
    BuildComponent();
    ReportsComponent();
    NameComponent(i);
    NameComponent(j);
    assert Lower([102]) && Ordinary([102]);
    PlainComponent([102]);
  }

  lemma SourceOk(i: nat, j: nat)
    requires 0 < i <= 100 && 0 < j <= 100
    ensures var source := Texts.Join(ReportAt(i, j), 47);
      Source(source) && Texts.Split(source, 47) == ReportAt(i, j) && Root(ReportAt(i, j)) == 1
  {
    hide Component, Chars, Texts.Split;
    var parts := ReportAt(i, j);
    PathComponents(i, j);
    Texts.SplitJoin(parts, 47);
    JoinLength(parts, 100);
    BuildComponent();
    assert Texts.Join(parts, 47) == parts[0] + [47] + Texts.Join(parts[1..], 47);
  }

  // ----- any two rows are compatible -----

  lemma Apart(a: nat, b: nat)
    requires a != b
    ensures (I(a), J(a)) != (I(b), J(b))
  {
  }

  lemma SameNames(i: nat, j: nat, i': nat, j': nat, n: nat)
    requires n <= 5 && Folded(ReportAt(i, j), n) == Folded(ReportAt(i', j'), n)
    ensures (n >= 3 ==> i == i') && (n >= 4 ==> j == j')
  {
    var a, b := ReportAt(i, j), ReportAt(i', j');
    StemPlain(Name(i));
    StemPlain(Name(j));
    StemPlain(Name(i'));
    StemPlain(Name(j'));
    hide Fold, Chars, Name;
    if n >= 3 {
      assert Folded(a, n)[2] == Name(i) && Folded(b, n)[2] == Name(i');
      assert |Name(i)| == i && |Name(i')| == i';
    }
    if n >= 4 {
      assert Folded(a, n)[3] == Name(j) && Folded(b, n)[3] == Name(j');
      assert |Name(j)| == j && |Name(j')| == j';
    }
  }

  lemma RowsCompatible(i: nat, j: nat, i': nat, j': nat)
    requires (i, j) != (i', j')
    ensures Compatible(ReportAt(i, j), ReportAt(i', j'))
  {
    hide Folded, Chars, Name;
    var a, b := ReportAt(i, j), ReportAt(i', j');
    forall n | 1 <= n <= |a| && n <= |b| && Folded(a, n) == Folded(b, n)
      ensures a[..n] == b[..n] && n < |a| && n < |b|
    {
      SameNames(i, j, i', j', n);
    }
  }

  // ----- the rows are in strict order -----

  lemma {:induction false} LessAfter(common: Text, x: Text, y: Text)
    requires Less(x, y)
    ensures Less(common + x, common + y)
  {
    if common == [] {
      assert common + x == x && common + y == y;
    } else {
      LessAfter(common[1..], x, y);
      assert (common + x)[1..] == common[1..] + x && (common + y)[1..] == common[1..] + y;
    }
  }

  /** A shorter name before a slash sorts first. */
  lemma ShorterFirst(n: nat, m: nat, x: Text, y: Text)
    requires n < m
    ensures Less(Name(n) + [47] + x, Name(m) + [47] + y)
  {
    var rest := Name(m)[n..] + [47] + y;
    LessAfter(Name(n), [47] + x, rest);
    assert Name(n) + ([47] + x) == Name(n) + [47] + x;
    assert Name(n) + rest == Name(m) + [47] + y;
  }

  lemma Spelled(i: nat, j: nat)
    ensures Texts.Join(ReportAt(i, j), 47) ==
            BUILD + [47] + REPORT_ROOT + [47] + (Name(i) + [47] + (Name(j) + [47] + [102]))
  {
    hide Chars, Name;
    var p := ReportAt(i, j);
    assert p[1..][1..][1..][1..] == [[102]];
    assert Texts.Join(p[1..][1..][1..], 47) == Name(j) + [47] + [102];
    assert Texts.Join(p[1..][1..], 47) == Name(i) + [47] + (Name(j) + [47] + [102]);
    assert Texts.Join(p[1..], 47) == REPORT_ROOT + [47] + (Name(i) + [47] + (Name(j) + [47] + [102]));
  }

  lemma RowsOrdered(k: nat)
    requires k > 0
    ensures Less(Texts.Join(PathAt(k - 1), 47), Texts.Join(PathAt(k), 47))
  {
    hide Chars, Name, Texts.Join, Less;
    var i, j, i', j' := I(k - 1), J(k - 1), I(k), J(k);
    Spelled(i, j);
    Spelled(i', j');
    var common := BUILD + [47] + REPORT_ROOT + [47];
    if i == i' {
      assert j < j';
      ShorterFirst(j, j', [102], [102]);
      LessAfter(Name(i) + [47], Name(j) + [47] + [102], Name(j') + [47] + [102]);
    } else {
      assert i < i';
      ShorterFirst(i, i', Name(j) + [47] + [102], Name(j') + [47] + [102]);
    }
    LessAfter(common, Name(i) + [47] + (Name(j) + [47] + [102]), Name(i') + [47] + (Name(j') + [47] + [102]));
  }

  // ----- the inventory is accepted -----

  lemma PathsAt(m: nat, sha: Text)
    requires m <= 5000
    ensures |PathsOf(Rows(m, sha))| == m && forall k | 0 <= k < m :: PathsOf(Rows(m, sha))[k] == PathAt(k)
  {
    hide Chars, Texts.Join, Texts.Split;
    if m > 0 {
      PathsAt(m - 1, sha);
      RowsNext(Rows(m - 1, sha), RowAt(m - 1, sha));
      SourceOk(I(m - 1), J(m - 1));
    }
  }

  lemma AllPairs(m: nat, sha: Text)
    requires m <= 5000
    ensures Pairwise(PathsOf(Rows(m, sha)))
  {
    hide Compatible, Chars, PathAt, Pairwise;
    var paths := PathsOf(Rows(m, sha));
    PathsAt(m, sha);
    PairwiseExactly(paths);
    forall a, b | 0 <= a < b < m ensures Compatible(paths[a], paths[b]) { PairAt(a, b); }
  }

  lemma PairAt(a: nat, b: nat)
    requires a != b
    ensures Compatible(PathAt(a), PathAt(b))
  {
    hide Compatible;
    Apart(a, b);
    RowsCompatible(I(a), J(a), I(b), J(b));
  }

  lemma {:induction false} InOrder(m: nat, sha: Text)
    ensures Increasing(Rows(m, sha))
  {
    hide Less, Chars, Texts.Join;
    if m > 0 {
      InOrder(m - 1, sha);
      IncreasingNext(Rows(m - 1, sha), RowAt(m - 1, sha));
      if m > 1 { RowsOrdered(m - 1); }
    }
  }

  /** Each path adds at most its own prefixes inside the report directory. */
  lemma CountedAtMost(paths: seq<FilePlan.Path>, a: FilePlan.Path)
    requires Root(a) <= |a|
    ensures |Counted(paths + [a])| <= |Counted(paths)| + |a| - Root(a)
  {
    hide Folded, Root;
    var inside := set n | Root(a) < n <= |a| :: Folded(a, n);
    InsideAtMost(a, Root(a), |a|);
    assert Counted(paths + [a]) <= Counted(paths) + inside;
    Smaller(Counted(paths + [a]), Counted(paths) + inside);
    assert |Counted(paths) + inside| <= |Counted(paths)| + |inside|;
  }

  lemma {:induction false} InsideAtMost(a: FilePlan.Path, from: nat, n: nat)
    requires from <= n <= |a|
    ensures |set m | from < m <= n :: Folded(a, m)| <= n - from
  {
    hide Folded;
    var inside := set m | from < m <= n :: Folded(a, m);
    if n == from {
      assert inside == {};
    } else {
      InsideAtMost(a, from, n - 1);
      assert inside == (set m | from < m <= n - 1 :: Folded(a, m)) + {Folded(a, n)};
    }
  }

  lemma {:induction false} FewEntries(m: nat, sha: Text)
    requires m <= 5000
    ensures |Counted(PathsOf(Rows(m, sha)))| <= 4 * m
  {
    hide Counted, Chars, Texts.Join, Texts.Split, Root;
    if m == 0 {
      NothingYet([], sha);
    } else {
      FewEntries(m - 1, sha);
      RowsNext(Rows(m - 1, sha), RowAt(m - 1, sha));
      SourceOk(I(m - 1), J(m - 1));
      CountedAtMost(PathsOf(Rows(m - 1, sha)), PathAt(m - 1));
    }
  }

  lemma {:induction false} NoBytes(m: nat, sha: Text)
    ensures Bytes(Rows(m, sha), false) == 0 && Changed(Rows(m, sha)) == Rows(m, sha)
  {
    hide Chars, Texts.Join, Texts.Split;
    if m > 0 {
      NoBytes(m - 1, sha);
      RowsNext(Rows(m - 1, sha), RowAt(m - 1, sha));
    }
  }

  lemma Accepted(m: nat, sha: Text)
    requires m <= 5000 && IsSha(sha)
    ensures Acceptable(Rows(m, sha), sha)
  {
    hide Counted, Chars, Texts.Join, Texts.Split, Source, Increasing, Pairwise, PathsOf, Bytes;
    InOrder(m, sha);
    AllPairs(m, sha);
    FewEntries(m, sha);
    NoBytes(m, sha);
    forall r <- Rows(m, sha) ensures RowOk(r, sha) {
      var k :| 0 <= k < m && Rows(m, sha)[k] == r;
      SourceOk(I(k), J(k));
    }
  }

  // ----- its plan is too large -----

  /** The place of report `k` in the plan. */
  function Place(k: nat): (p: FilePlan.Path)
    ensures |p| == 6
  {
    [REPORTS] + PathAt(k)
  }

  /** The files and their directories, for the first `m` reports. */
  ghost function Places(m: nat): set<FilePlan.Path> {
    if m == 0 then {} else Places(m - 1) + {Place(m - 1), Place(m - 1)[..5]}
  }

  lemma {:induction false} PlacesFrom(m: nat, p: FilePlan.Path)
    requires p in Places(m)
    ensures exists k | 0 <= k < m :: p == Place(k) || p == Place(k)[..5]
  {
    hide Place;
    if p == Place(m - 1) || p == Place(m - 1)[..5] {
    } else {
      PlacesFrom(m - 1, p);
    }
  }

  lemma PlacesDiffer(a: nat, b: nat)
    requires a != b
    ensures Place(a) != Place(b) && Place(a)[..5] != Place(b)[..5]
  {
    Apart(a, b);
    assert |Name(I(a))| == I(a) && |Name(I(b))| == I(b) && |Name(J(a))| == J(a) && |Name(J(b))| == J(b);
    hide Chars, Name;
    assert Place(a)[3] == Name(I(a)) && Place(b)[3] == Name(I(b));
    assert Place(a)[4] == Name(J(a)) && Place(b)[4] == Name(J(b));
    assert Place(a)[..5][3] == Place(a)[3] && Place(b)[..5][3] == Place(b)[3];
    assert Place(a)[..5][4] == Place(a)[4] && Place(b)[..5][4] == Place(b)[4];
  }

  lemma {:induction false} PlacesCount(m: nat)
    ensures |Places(m)| == 2 * m
  {
    hide Place;
    if m > 0 {
      PlacesCount(m - 1);
      var a, b := Place(m - 1), Place(m - 1)[..5];
      var before := Places(m - 1);
      forall p <- before ensures p != a && p != b {
        PlacesFrom(m - 1, p);
        var k :| 0 <= k < m - 1 && (p == Place(k) || p == Place(k)[..5]);
        PlacesDiffer(k, m - 1);
      }
      assert a != b && Places(m) == Places(m - 1) + {a} + {b};
    }
  }

  lemma PlacesArePrefixes(m: nat, sha: Text, metadata: seq<Member>)
    requires 0 < m <= 5000 && |metadata| == 3
    ensures (forall r <- Changed(Rows(m, sha)) :: r.bytes >= 0) && Places(m) + {[REPORTS]} <= Prefixes(Inventory(metadata, Rows(m, sha)))
  {
    hide Chars, Texts.Join, Texts.Split, Place, Places, FixedName, Rows;
    NoBytes(m, sha);
    forall r <- Rows(m, sha) ensures r.bytes >= 0 { var k :| 0 <= k < m && Rows(m, sha)[k] == r; }
    var declared := Inventory(metadata, Rows(m, sha));
    forall k | 0 <= k < m ensures exists d <- declared :: d.path == Place(k) {
      DeclaredAt(m, sha, metadata, k);
    }
    forall p <- Places(m) ensures p in Prefixes(declared) {
      PlacesFrom(m, p);
      var k :| 0 <= k < m && (p == Place(k) || p == Place(k)[..5]);
      var d :| d in declared && d.path == Place(k);
      assert Place(k)[..6] == Place(k);
    }
    var d :| d in declared && d.path == Place(0);
    RootPrefix();
    assert d.path[..1] in Prefixes(declared);
  }

  lemma RootPrefix()
    ensures Place(0)[..1] == [REPORTS]
  {
    hide Chars;
  }

  lemma DeclaredAt(m: nat, sha: Text, metadata: seq<Member>, k: nat)
    requires k < m <= 5000 && |metadata| == 3 && Changed(Rows(m, sha)) == Rows(m, sha)
    requires forall r <- Rows(m, sha) :: r.bytes >= 0
    ensures exists d <- Inventory(metadata, Rows(m, sha)) :: d.path == Place(k)
  {
    hide Chars, Texts.Join, Texts.Split, FixedName, Changed;
    SourceOk(I(k), J(k));
    var d := ReportMembers(Rows(m, sha))[k];
    assert d.path == ReportPath(RowAt(k, sha)) == Place(k);
    assert Inventory(metadata, Rows(m, sha))[7 + k] == d;
  }

  /** 5000 empty reports, each in its own directory, are accepted; their plan has more than 10000 members, so setup
      refuses it whatever the names allow. */
  lemma LargeInventoryRefused(m: nat, sha: Text, metadata: seq<Member>)
    requires m == 5000 && IsSha(sha) && |metadata| == 3 && forall x <- metadata :: Cap(x) <= FileInventory.METADATA_BYTES
    ensures Acceptable(Rows(m, sha), sha)
    ensures (forall r <- Changed(Rows(m, sha)) :: r.bytes >= 0) &&
            (forall d <- Inventory(metadata, Rows(m, sha)) :: d.path != []) &&
            EntriesOf(Inventory(metadata, Rows(m, sha))) > MEMBERS
  {
    hide Acceptable, Prefixes, Places, Inventory, EntriesOf, Build, Rows, Chars, Total;
    Accepted(m, sha);
    InventoryFits(metadata, Rows(m, sha), sha);
    PlacesArePrefixes(m, sha, metadata);
    EntriesExactly(Inventory(metadata, Rows(m, sha)));
    PlacesCount(m);
    RootApart(m);
    Smaller(Places(m) + {[REPORTS]}, Prefixes(Inventory(metadata, Rows(m, sha))));
  }

  lemma RootApart(m: nat)
    ensures [REPORTS] !in Places(m)
  {
    hide Chars;
    if [REPORTS] in Places(m) { PlacesFrom(m, [REPORTS]); }
  }
}
