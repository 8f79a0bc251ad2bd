/** The plan of files to collect: a nested dictionary of the declared names, built one path at a time. */
module FilePlan {
  import opened Wrappers

  type Path = seq<Text>

  /** What is declared of a file: its ceiling and, if known, its size, digest and bytes. */
  datatype Member = Member(maximum: nat, size: Option<nat>, sha: Option<Text>, raw: Option<seq<bv8>>)

  datatype Plan = File(member: Member) | Directory(entries: seq<Entry>)

  datatype Entry = Entry(name: Text, plan: Plan)

  /** The most bytes that a file may have. */
  function Cap(m: Member): nat {
    if m.size.Some? then m.size.value else m.maximum
  }

  /** What is summed over a plan: its entries, or the caps of its files. */
  datatype Measure = Entries | Caps

  function Total(p: Plan, m: Measure): nat
    decreases p, if p.Directory? then |p.entries| + 1 else 0
  {
    match p
    case File(member) => if m == Caps then Cap(member) else 0
    case Directory(entries) => TotalUpTo(p, m, |entries|)
  }

  /** The sum over the first `n` entries of a directory. */
  function TotalUpTo(p: Plan, m: Measure, n: nat): nat
    requires p.Directory? && n <= |p.entries|
    decreases p, n
  {
    if n == 0 then 0
    else TotalUpTo(p, m, n - 1) + (if m == Entries then 1 else 0) + Total(p.entries[n - 1].plan, m)
  }

  function IndexOf(entries: seq<Entry>, name: Text): (r: Option<nat>)
    ensures r.Some? ==> r.value < |entries| && entries[r.value].name == name
    ensures r.None? ==> forall e <- entries :: e.name != name
  {
    if entries == [] then None
    else if entries[|entries| - 1].name == name then Some(|entries| - 1)
    else IndexOf(entries[..|entries| - 1], name)
  }

  /** A path of its own, down to the file. */
  function Branch(parts: Path, member: Member): Plan {
    if parts == [] then File(member) else Directory([Entry(parts[0], Branch(parts[1..], member))])
  }

  /** Insert a path; a component that is a file, or a last component that is there already, collides. */
  function Insert(p: Plan, parts: Path, member: Member): (r: Option<Plan>)
    requires p.Directory? && parts != []
    ensures r.Some? ==> r.value.Directory?
    decreases |parts|
  {
    var i := IndexOf(p.entries, parts[0]);
    if i.None? then Some(Directory(p.entries + [Entry(parts[0], Branch(parts[1..], member))]))
    else
      var child := p.entries[i.value].plan;
      if |parts| == 1 || child.File? then None else
      var r := Insert(child, parts[1..], member);
      if r.None? then None else Some(Directory(p.entries[i.value := Entry(parts[0], r.value)]))
  }

  /** How many entries inserting a path adds. */
  function Added(p: Plan, parts: Path): nat
    decreases |parts|
  {
    if parts == [] || p.File? then 0 else
    var i := IndexOf(p.entries, parts[0]);
    if i.None? then |parts| else Added(p.entries[i.value].plan, parts[1..])
  }

  // ----- totals -----

  lemma {:induction false} BranchTotal(parts: Path, member: Member, m: Measure)
    ensures Total(Branch(parts, member), m) == if m == Entries then |parts| else Cap(member)
  {
    if parts != [] {
      BranchTotal(parts[1..], member, m);
      var p := Branch(parts, member);
      assert TotalUpTo(p, m, 1) == TotalUpTo(p, m, 0) + (if m == Entries then 1 else 0) + Total(p.entries[0].plan, m);
    }
  }

  /** Plans with the same first entries have the same sum over them. */
  lemma {:induction false} SamePrefix(p: Plan, q: Plan, m: Measure, n: nat)
    requires p.Directory? && q.Directory? && n <= |p.entries| && n <= |q.entries| && p.entries[..n] == q.entries[..n]
    ensures TotalUpTo(p, m, n) == TotalUpTo(q, m, n)
  {
    if n > 0 {
      assert p.entries[..n][n - 1] == q.entries[..n][n - 1];
      assert p.entries[..n - 1] == p.entries[..n][..n - 1] && q.entries[..n - 1] == q.entries[..n][..n - 1];
      SamePrefix(p, q, m, n - 1);
    }
  }

  /** Replacing one entry changes the sum by the difference of that entry. */
  lemma {:induction false} ReplacedTotal(p: Plan, i: nat, child: Plan, m: Measure, n: nat)
    requires p.Directory? && i < n <= |p.entries|
    ensures var q := Directory(p.entries[i := Entry(p.entries[i].name, child)]);
      TotalUpTo(q, m, n) + Total(p.entries[i].plan, m) == TotalUpTo(p, m, n) + Total(child, m)
  {
    var q := Directory(p.entries[i := Entry(p.entries[i].name, child)]);
    if n == i + 1 {
      assert p.entries[..i] == q.entries[..i];
      SamePrefix(p, q, m, i);
    } else {
      ReplacedTotal(p, i, child, m, n - 1);
    }
  }

  /** Insertion adds exactly the new entries, and the file's cap once. */
  lemma {:induction false} InsertTotal(p: Plan, parts: Path, member: Member, m: Measure)
    requires p.Directory? && parts != [] && Insert(p, parts, member).Some?
    ensures Total(Insert(p, parts, member).value, m) ==
            Total(p, m) + if m == Entries then Added(p, parts) else Cap(member)
    decreases |parts|
  {
    var i := IndexOf(p.entries, parts[0]);
    var q := Insert(p, parts, member).value;
    if i.None? {
      BranchTotal(parts[1..], member, m);
      assert q.entries[..|p.entries|] == p.entries[..|p.entries|];
      SamePrefix(p, q, m, |p.entries|);
    } else {
      var child := p.entries[i.value].plan;
      InsertTotal(child, parts[1..], member, m);
      ReplacedTotal(p, i.value, Insert(child, parts[1..], member).value, m, |p.entries|);
    }
  }

  // ----- which paths a plan holds -----

  predicate HasFile(p: Plan, path: Path)
    decreases |path|
  {
    && p.Directory? && path != [] && IndexOf(p.entries, path[0]).Some?
    && (var child := p.entries[IndexOf(p.entries, path[0]).value].plan;
        if |path| == 1 then child.File? else HasFile(child, path[1..]))
  }

  /** One path is a prefix of the other. */
  predicate Related(a: Path, b: Path) {
    a == [] || b == [] || (a[0] == b[0] && Related(a[1..], b[1..]))
  }

  /** No directory below the root is empty. */
  predicate Inhabited(p: Plan) {
    p.Directory? ==>
      forall i | 0 <= i < |p.entries| ::
        var child := p.entries[i].plan; (child.Directory? ==> child.entries != []) && Inhabited(child)
  }

  lemma {:induction false} LastIndex(entries: seq<Entry>)
    requires entries != []
    ensures var name := entries[|entries| - 1].name; IndexOf(entries, name) == Some(|entries| - 1)
  {
  }

  /** Some file lies below any inhabited directory. */
  lemma {:induction false} SomeFile(p: Plan) returns (path: Path)
    requires p.Directory? && p.entries != [] && Inhabited(p)
    ensures HasFile(p, path)
    decreases p
  {
    var last := p.entries[|p.entries| - 1];
    LastIndex(p.entries);
    if last.plan.File? {
      path := [last.name];
    } else {
      var below := SomeFile(last.plan);
      path := [last.name] + below;
      assert path[1..] == below;
    }
  }

  lemma {:induction false} BranchFile(parts: Path, member: Member, path: Path)
    requires parts != []
    ensures HasFile(Branch(parts, member), path) <==> path == parts
    decreases |parts|
  {
    var p := Branch(parts, member);
    if path != [] && path[0] == parts[0] {
      LastIndex(p.entries);
      if |parts| > 1 && |path| > 1 {
        BranchFile(parts[1..], member, path[1..]);
        assert path == [path[0]] + path[1..] && parts == [parts[0]] + parts[1..];
      }
    }
  }

  lemma {:induction false} AppendedIndex(entries: seq<Entry>, e: Entry, name: Text)
    requires IndexOf(entries, e.name).None?
    ensures IndexOf(entries + [e], name) == if name == e.name then Some(|entries|) else IndexOf(entries, name)
  {
    assert (entries + [e])[..|entries|] == entries;
  }

  lemma {:induction false} ReplacedIndex(entries: seq<Entry>, i: nat, child: Plan, name: Text)
    requires i < |entries|
    ensures IndexOf(entries[i := Entry(entries[i].name, child)], name) == IndexOf(entries, name)
    decreases |entries|
  {
    var now := entries[i := Entry(entries[i].name, child)];
    var n := |entries| - 1;
    if entries[n].name != name {
      if i < n {
        ReplacedIndex(entries[..n], i, child, name);
        assert now[..n] == entries[..n][i := Entry(entries[i].name, child)];
      } else {
        assert now[..n] == entries[..n];
      }
    }
  }

  /** Insertion adds exactly the one file. */
  lemma {:induction false} InsertFiles(p: Plan, parts: Path, member: Member, path: Path)
    requires p.Directory? && parts != [] && Insert(p, parts, member).Some?
    ensures HasFile(Insert(p, parts, member).value, path) <==> HasFile(p, path) || path == parts
    decreases |parts|
  {
    hide IndexOf;
    var i := IndexOf(p.entries, parts[0]);
    if path != [] {
      if i.None? {
        AppendedIndex(p.entries, Entry(parts[0], Branch(parts[1..], member)), path[0]);
        if path[0] == parts[0] {
          if |parts| > 1 { BranchFile(parts[1..], member, path[1..]); }
          assert path == [path[0]] + path[1..] && parts == [parts[0]] + parts[1..];
        }
      } else {
        var child := p.entries[i.value].plan;
        ReplacedIndex(p.entries, i.value, Insert(child, parts[1..], member).value, path[0]);
        if path[0] == parts[0] && |path| > 1 {
          InsertFiles(child, parts[1..], member, path[1..]);
        }
        assert path == [path[0]] + path[1..] && parts == [parts[0]] + parts[1..];
      }
    }
  }

  lemma {:induction false} InsertInhabited(p: Plan, parts: Path, member: Member)
    requires p.Directory? && parts != [] && Insert(p, parts, member).Some? && Inhabited(p)
    ensures Inhabited(Insert(p, parts, member).value)
    decreases |parts|
  {
    hide IndexOf;
    var i := IndexOf(p.entries, parts[0]);
    if i.None? {
      BranchInhabited(parts[1..], member);
    } else {
      var child := p.entries[i.value].plan;
      InsertInhabited(child, parts[1..], member);
      InsertNonempty(child, parts[1..], member);
    }
  }

  lemma InsertNonempty(p: Plan, parts: Path, member: Member)
    requires p.Directory? && parts != [] && Insert(p, parts, member).Some?
    ensures Insert(p, parts, member).value.entries != []
  {
  }

  lemma {:induction false} BranchInhabited(parts: Path, member: Member)
    ensures Inhabited(Branch(parts, member))
  {
    if parts != [] { BranchInhabited(parts[1..], member); }
  }

  /** A path collides exactly when it is a prefix of a path in the plan, or one of those is a prefix of it. */
  lemma {:induction false} CollidesExactly(p: Plan, parts: Path, member: Member)
    requires p.Directory? && parts != [] && Inhabited(p)
    ensures Insert(p, parts, member).None? <==> exists q :: HasFile(p, q) && Related(q, parts)
    decreases |parts|
  {
    if Insert(p, parts, member).None? {
      var q := Collision(p, parts, member);
    }
    forall q | HasFile(p, q) && Related(q, parts) ensures Insert(p, parts, member).None? {
      RelatedCollides(p, parts, member, q);
    }
  }

  lemma {:induction false} Collision(p: Plan, parts: Path, member: Member) returns (q: Path)
    requires p.Directory? && parts != [] && Inhabited(p) && Insert(p, parts, member).None?
    ensures HasFile(p, q) && Related(q, parts)
    decreases |parts|
  {
    hide IndexOf;
    var i := IndexOf(p.entries, parts[0]).value;
    var child := p.entries[i].plan;
    var below: Path;
    if child.File? {
      below := [];
    } else if |parts| == 1 {
      below := SomeFile(child);
    } else {
      below := Collision(child, parts[1..], member);
    }
    q := [parts[0]] + below;
    assert q[1..] == below;
  }

  lemma {:induction false} RelatedCollides(p: Plan, parts: Path, member: Member, q: Path)
    requires p.Directory? && parts != [] && HasFile(p, q) && Related(q, parts)
    ensures Insert(p, parts, member).None?
    decreases |parts|
  {
    hide IndexOf;
    var child := p.entries[IndexOf(p.entries, parts[0]).value].plan;
    if |parts| > 1 && child.Directory? {
      RelatedCollides(child, parts[1..], member, q[1..]);
    }
  }

  // ----- which nodes a plan has -----

  /** A file or directory of the plan. */
  predicate HasNode(p: Plan, path: Path)
    decreases |path|
  {
    && p.Directory? && path != [] && IndexOf(p.entries, path[0]).Some?
    && (|path| == 1 || HasNode(p.entries[IndexOf(p.entries, path[0]).value].plan, path[1..]))
  }

  /** How many leading components of a path are nodes already. */
  function Depth(p: Plan, parts: Path): (n: nat)
    ensures n <= |parts|
    decreases |parts|
  {
    if parts == [] || p.File? || IndexOf(p.entries, parts[0]).None? then 0
    else 1 + Depth(p.entries[IndexOf(p.entries, parts[0]).value].plan, parts[1..])
  }

  lemma {:induction false} DepthExactly(p: Plan, parts: Path, n: nat)
    requires 1 <= n <= |parts|
    ensures HasNode(p, parts[..n]) <==> n <= Depth(p, parts)
    decreases |parts|
  {
    hide IndexOf;
    if p.Directory? && IndexOf(p.entries, parts[0]).Some? && n > 1 {
      DepthExactly(p.entries[IndexOf(p.entries, parts[0]).value].plan, parts[1..], n - 1);
      assert parts[..n][1..] == parts[1..][..n - 1];
    }
  }

  lemma {:induction false} AddedExactly(p: Plan, parts: Path, member: Member)
    requires p.Directory? && parts != [] && Insert(p, parts, member).Some?
    ensures Added(p, parts) == |parts| - Depth(p, parts)
    decreases |parts|
  {
    hide IndexOf;
    var i := IndexOf(p.entries, parts[0]);
    if i.Some? { AddedExactly(p.entries[i.value].plan, parts[1..], member); }
  }

  predicate IsPrefix(a: Path, b: Path) {
    0 < |a| <= |b| && a == b[..|a|]
  }

  lemma {:induction false} BranchNode(parts: Path, member: Member, path: Path)
    requires parts != []
    ensures HasNode(Branch(parts, member), path) <==> IsPrefix(path, parts)
    decreases |parts|
  {
    var p := Branch(parts, member);
    if path != [] && path[0] == parts[0] {
      LastIndex(p.entries);
      assert path == [path[0]] + path[1..] && parts == [parts[0]] + parts[1..];
      if |path| > 1 && |parts| > 1 {
        BranchNode(parts[1..], member, path[1..]);
        PrefixTail(path, parts);
      }
    }
  }

  lemma PrefixTail(a: Path, b: Path)
    requires |a| > 1 && b != []
    ensures IsPrefix(a, b) <==> (a[0] == b[0] && IsPrefix(a[1..], b[1..]))
  {
    if |a| <= |b| {
      assert a == [a[0]] + a[1..];
      assert b[..|a|] == [b[0]] + b[1..][..|a| - 1];
    }
  }

  /** Insertion adds exactly the prefixes of the path. */
  lemma {:induction false} InsertNodes(p: Plan, parts: Path, member: Member, path: Path)
    requires p.Directory? && parts != [] && Insert(p, parts, member).Some?
    ensures HasNode(Insert(p, parts, member).value, path) <==> HasNode(p, path) || IsPrefix(path, parts)
    decreases |parts|
  {
    hide IndexOf;
    var i := IndexOf(p.entries, parts[0]);
    if path != [] {
      assert parts[..1] == [parts[0]] && (|path| == 1 ==> path == [path[0]]);
      if i.None? {
        AppendedIndex(p.entries, Entry(parts[0], Branch(parts[1..], member)), path[0]);
        if path[0] == parts[0] && |path| > 1 {
          PrefixTail(path, parts);
          if |parts| > 1 { BranchNode(parts[1..], member, path[1..]); }
        }
      } else {
        var child := p.entries[i.value].plan;
        ReplacedIndex(p.entries, i.value, Insert(child, parts[1..], member).value, path[0]);
        if path[0] == parts[0] && |path| > 1 {
          PrefixTail(path, parts);
          InsertNodes(child, parts[1..], member, path[1..]);
        }
      }
    }
  }
}
