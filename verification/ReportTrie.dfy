/** The report inventory: a case-folding trie of report paths, which stands for a simple pairwise rule, and
    the row loop above it. */
module ReportTrie {
  import opened Wrappers
  import Texts

  type Path = seq<Text>

  // ----- case folding -----

  function FoldOne(c: CodePoint): CodePoint {
    if 65 <= c <= 90 then c + 32 else c
  }

  /** Case folding of a component; components are ASCII. */
  function Fold(s: Text): (t: Text)
    ensures |t| == |s|
  {
    if s == [] then [] else [FoldOne(s[0])] + Fold(s[1..])
  }

  function FoldPath(p: Path): (q: Path)
    ensures |q| == |p|
    ensures forall i | 0 <= i < |p| :: q[i] == Fold(p[i])
  {
    if p == [] then [] else [Fold(p[0])] + FoldPath(p[1..])
  }

  /** The first `n` components of a path, folded. */
  function Folded(a: Path, n: nat): (p: Path)
    requires n <= |a|
    ensures |p| == n
  {
    FoldPath(a)[..n]
  }

  lemma FoldedStep(a: Path, n: nat)
    requires n < |a|
    ensures Folded(a, n + 1) == Folded(a, n) + [Fold(a[n])]
  {
  }

  lemma FoldedShorter(a: Path, b: Path, n: nat)
    requires 0 < n <= |a| && n <= |b| && Folded(a, n) == Folded(b, n)
    ensures Folded(a, n - 1) == Folded(b, n - 1)
  {
    hide FoldPath;
    assert Folded(a, n - 1) == Folded(a, n)[..n - 1] && Folded(b, n - 1) == Folded(b, n)[..n - 1];
  }

  // ----- the pairwise rule -----

  /** Wherever the two paths fold alike they are spelled alike, and both go on. */
  ghost predicate Compatible(a: Path, b: Path) {
    forall n | 1 <= n <= |a| && n <= |b| ::
      Folded(a, n) == Folded(b, n) ==> a[..n] == b[..n] && n < |a| && n < |b|
  }

  ghost predicate FitsAll(paths: seq<Path>, p: Path) {
    forall a <- paths :: Compatible(a, p)
  }

  // ----- what the trie holds -----

  datatype Node = Node(spelling: Text, directory: bool)

  /** The nodes, by folded path. */
  type Nodes = map<Path, Node>

  /** Every prefix of `a` is a node with its own spelling, and only the whole path is a file. */
  ghost predicate Holds(nodes: Nodes, a: Path) {
    forall n | 1 <= n <= |a| ::
      var p := Folded(a, n); p in nodes && nodes[p] == Node(a[n - 1], n < |a|)
  }

  /** `nodes` are the prefixes of `paths`; `origin` says whose prefix each one is. */
  ghost predicate Represents(nodes: Nodes, paths: seq<Path>, origin: map<Path, Path>) {
    && (forall a <- paths :: Holds(nodes, a))
    && (forall p <- nodes :: p in origin && origin[p] in paths && IsPrefixOf(p, origin[p]))
  }

  ghost predicate IsPrefixOf(p: Path, a: Path) {
    1 <= |p| <= |a| && p == Folded(a, |p|)
  }

  /** No prefix of `a` meets a node of another spelling, a file, or ends at a node. */
  ghost predicate Fits(nodes: Nodes, a: Path) {
    forall n | 1 <= n <= |a| ::
      var p := Folded(a, n); p in nodes ==> nodes[p] == Node(a[n - 1], true) && n < |a|
  }

  /** `grown` is `nodes` with all prefixes of `a`, and nothing else. */
  ghost predicate Grown(nodes: Nodes, grown: Nodes, a: Path) {
    && (forall p <- nodes :: p in grown && grown[p] == nodes[p])
    && Holds(grown, a)
    && (forall p <- grown | p !in nodes :: IsPrefixOf(p, a))
  }

  lemma {:induction false} SpelledAlike(nodes: Nodes, a: Path, b: Path, n: nat)
    requires Holds(nodes, a) && Fits(nodes, b) && n <= |a| && n <= |b|
    requires Folded(a, n) == Folded(b, n)
    ensures a[..n] == b[..n]
  {
    hide Folded;
    if n > 0 {
      FoldedShorter(a, b, n);
      SpelledAlike(nodes, a, b, n - 1);
      SameSpelling(nodes, a, b, n);
      assert a[..n] == a[..n - 1] + [a[n - 1]] && b[..n] == b[..n - 1] + [b[n - 1]];
    }
  }

  lemma SameSpelling(nodes: Nodes, a: Path, b: Path, n: nat)
    requires Holds(nodes, a) && Fits(nodes, b) && 1 <= n <= |a| && n <= |b|
    requires Folded(a, n) == Folded(b, n)
    ensures a[n - 1] == b[n - 1] && n < |a| && n < |b|
  {
    hide Folded;
    var p := Folded(a, n);
    assert nodes[p] == Node(a[n - 1], n < |a|);
    assert p == Folded(b, n);
  }

  /** The trie admits a path exactly when the path is compatible with every path in it. */
  lemma FitsExactly(nodes: Nodes, paths: seq<Path>, origin: map<Path, Path>, b: Path)
    requires Represents(nodes, paths, origin)
    ensures Fits(nodes, b) <==> FitsAll(paths, b)
  {
    if Fits(nodes, b) {
      forall a <- paths ensures Compatible(a, b) {
        FitsCompatible(nodes, a, b);
      }
    }
    if FitsAll(paths, b) {
      forall n | 1 <= n <= |b| && Folded(b, n) in nodes
        ensures nodes[Folded(b, n)] == Node(b[n - 1], true) && n < |b|
      {
        var p := Folded(b, n);
        CompatibleNode(nodes, origin[p], b, n);
      }
    }
  }

  lemma FitsCompatible(nodes: Nodes, a: Path, b: Path)
    requires Holds(nodes, a) && Fits(nodes, b)
    ensures Compatible(a, b)
  {
    forall n | 1 <= n <= |a| && n <= |b| && Folded(a, n) == Folded(b, n)
      ensures a[..n] == b[..n] && n < |a| && n < |b|
    {
      SpelledAlike(nodes, a, b, n);
      SameSpelling(nodes, a, b, n);
    }
  }

  lemma CompatibleNode(nodes: Nodes, a: Path, b: Path, n: nat)
    requires Holds(nodes, a) && Compatible(a, b) && 1 <= n <= |b|
    requires n <= |a| && Folded(a, n) == Folded(b, n)
    ensures Folded(b, n) in nodes && nodes[Folded(b, n)] == Node(b[n - 1], true) && n < |b|
  {
    assert a[..n] == b[..n] && n < |a|;
    assert a[n - 1] == a[..n][n - 1] == b[..n][n - 1] == b[n - 1];
    assert nodes[Folded(a, n)] == Node(a[n - 1], n < |a|);
  }

  ghost function NewOrigin(nodes: Nodes, grown: Nodes, origin: map<Path, Path>, a: Path): map<Path, Path> {
    map p <- grown :: if p in nodes && p in origin then origin[p] else a
  }

  lemma GrownRepresents(nodes: Nodes, grown: Nodes, paths: seq<Path>, origin: map<Path, Path>, a: Path)
    requires Represents(nodes, paths, origin) && Grown(nodes, grown, a)
    ensures Represents(grown, paths + [a], NewOrigin(nodes, grown, origin, a))
  {
    forall b <- paths + [a] ensures Holds(grown, b) {
      if b in paths {
        HoldsGrown(nodes, grown, b);
      }
    }
    hide Holds, IsPrefixOf;
  }

  lemma HoldsGrown(nodes: Nodes, grown: Nodes, b: Path)
    requires Holds(nodes, b) && forall p <- nodes :: p in grown && grown[p] == nodes[p]
    ensures Holds(grown, b)
  {
  }

  // ----- the trie in memory -----

  function Below(at: Path, key: Text): (p: Path)
    ensures |p| == |at| + 1
  {
    at + [key]
  }

  function Parent(p: Path): Path {
    if p == [] then [] else p[..|p| - 1]
  }

  function Last(p: Path): Text
    requires p != []
  {
    p[|p| - 1]
  }

  lemma BelowParent(at: Path, key: Text)
    ensures Parent(Below(at, key)) == at && Last(Below(at, key)) == key
  {
  }

  lemma ParentBelow(p: Path)
    requires p != []
    ensures Below(Parent(p), Last(p)) == p && Parent(p) != p
  {
  }

  datatype Entry = Entry(spelling: Text, children: Option<nat>)

  type Table = map<Text, Entry>

  /** Every dictionary stands at one place. */
  ghost predicate Located(place: seq<Path>, home: map<Path, nat>) {
    place != [] && place[0] == [] && forall t | 0 <= t < |place| :: place[t] in home && home[place[t]] == t
  }

  /** The root is no node, and every dictionary but the root's belongs to a node. */
  ghost predicate Rooted(place: seq<Path>, nodes: Nodes) {
    && (forall p <- nodes :: p != [])
    && (forall t | 0 <= t < |place| :: place[t] != [] ==> place[t] in nodes)
  }

  /** Entry `e` stands for the node at `p`. */
  ghost predicate Denotes(e: Entry, p: Path, place: seq<Path>, nodes: Nodes) {
    && p in nodes && nodes[p] == Node(e.spelling, e.children.Some?)
    && (e.children.Some? ==> e.children.value < |place| && place[e.children.value] == p)
  }

  /** The dictionary `table` holds the nodes directly below `at`. */
  ghost predicate Lists(table: Table, at: Path, place: seq<Path>, nodes: Nodes) {
    && (forall k <- table :: Denotes(table[k], Below(at, k), place, nodes))
    && (forall p <- nodes | p != [] && Parent(p) == at :: Last(p) in table)
  }

  ghost predicate Stored(tables: seq<Table>, place: seq<Path>, home: map<Path, nat>, nodes: Nodes) {
    && |tables| == |place| && Located(place, home) && Rooted(place, nodes)
    && (forall t | 0 <= t < |tables| :: Lists(tables[t], place[t], place, nodes))
  }

  lemma DenotesGrown(e: Entry, p: Path, place: seq<Path>, places: seq<Path>, nodes: Nodes, q: Path, node: Node)
    requires Denotes(e, p, place, nodes) && q !in nodes
    requires |place| <= |places| && forall t | 0 <= t < |place| :: places[t] == place[t]
    ensures Denotes(e, p, places, nodes[q := node])
  {
  }

  /** A dictionary elsewhere still holds what it did. */
  lemma ListsElsewhere(table: Table, at: Path, place: seq<Path>, places: seq<Path>, nodes: Nodes, p: Path, node: Node)
    requires Lists(table, at, place, nodes) && p !in nodes && Parent(p) != at
    requires |place| <= |places| && forall t | 0 <= t < |place| :: places[t] == place[t]
    ensures Lists(table, at, places, nodes[p := node])
  {
    hide Below, Parent, Last;
    forall k <- table ensures Denotes(table[k], Below(at, k), places, nodes[p := node]) {
      DenotesGrown(table[k], Below(at, k), place, places, nodes, p, node);
    }
    hide Denotes;
  }

  /** The dictionary that gained an entry holds the new node too. */
  lemma ListsHere(table: Table, at: Path, place: seq<Path>, places: seq<Path>, nodes: Nodes, key: Text, entry: Entry)
    requires Lists(table, at, place, nodes) && key !in table
    requires |place| <= |places| && forall t | 0 <= t < |place| :: places[t] == place[t]
    requires entry.children.Some? ==> entry.children.value < |places| && places[entry.children.value] == Below(at, key)
    ensures Below(at, key) !in nodes
    ensures Lists(table[key := entry], at, places, nodes[Below(at, key) := Node(entry.spelling, entry.children.Some?)])
  {
    BelowParent(at, key);
    hide Below, Parent, Last;
    var p := Below(at, key);
    var grown := nodes[p := Node(entry.spelling, entry.children.Some?)];
    forall k <- table ensures Denotes(table[k], Below(at, k), places, grown) {
      DenotesGrown(table[k], Below(at, k), place, places, nodes, p, grown[p]);
    }
    assert Denotes(entry, p, places, grown);
    hide Denotes;
  }

  /** A file entry is added to dictionary `t`. */
  lemma FileAdded(tables: seq<Table>, place: seq<Path>, home: map<Path, nat>, nodes: Nodes, t: nat, key: Text,
                  spelling: Text)
    requires Stored(tables, place, home, nodes) && t < |tables| && key !in tables[t]
    ensures Below(place[t], key) !in nodes
    ensures Stored(tables[t := tables[t][key := Entry(spelling, None)]], place, home,
                   nodes[Below(place[t], key) := Node(spelling, false)])
  {
    BelowParent(place[t], key);
    hide Below, Parent, Last;
    var p := Below(place[t], key);
    ListsHere(tables[t], place[t], place, place, nodes, key, Entry(spelling, None));
    forall u | 0 <= u < |tables| && u != t
      ensures Lists(tables[u], place[u], place, nodes[p := Node(spelling, false)])
    {
      ListsElsewhere(tables[u], place[u], place, place, nodes, p, Node(spelling, false));
    }
    hide Lists;
  }

  /** A directory entry is added to dictionary `t`, with a new dictionary of its own. */
  lemma DirectoryAdded(tables: seq<Table>, place: seq<Path>, home: map<Path, nat>, nodes: Nodes, t: nat, key: Text,
                       spelling: Text)
    requires Stored(tables, place, home, nodes) && t < |tables| && key !in tables[t]
    requires forall q <- nodes :: Parent(q) != Below(place[t], key)
    ensures Below(place[t], key) !in nodes
    ensures var p := Below(place[t], key);
      Stored(tables[t := tables[t][key := Entry(spelling, Some(|tables|))]] + [map[]], place + [p],
             home[p := |tables|], nodes[p := Node(spelling, true)])
  {
    BelowParent(place[t], key);
    var p := Below(place[t], key);
    ParentBelow(p);
    hide Below, Parent, Last;
    var places := place + [p];
    ListsHere(tables[t], place[t], place, places, nodes, key, Entry(spelling, Some(|tables|)));
    forall u | 0 <= u < |tables| && u != t
      ensures Lists(tables[u], place[u], places, nodes[p := Node(spelling, true)])
    {
      ListsElsewhere(tables[u], place[u], place, places, nodes, p, Node(spelling, true));
    }
    assert Lists(map[], p, places, nodes[p := Node(spelling, true)]);
    hide Lists, Denotes;
    assert Located(places, home[p := |tables|]);
  }

  // ----- insertion -----

  /** The first `i` components of `parts` were walked, and nothing but their nodes was added to `was`. */
  ghost predicate Walked(was: Nodes, nodes: Nodes, parts: Path, i: nat)
    requires i <= |parts|
  {
    && (forall p <- was :: p in nodes && nodes[p] == was[p])
    && (forall n | 1 <= n <= i ::
          Folded(parts, n) in nodes && nodes[Folded(parts, n)] == Node(parts[n - 1], n < |parts|))
    && (forall p <- nodes | p !in was :: IsPrefixOf(p, parts) && |p| <= i)
    && (i == |parts| ==> Folded(parts, i) !in was)
  }

  /** A node's parent is a node. */
  lemma Ancestor(nodes: Nodes, paths: seq<Path>, origin: map<Path, Path>, p: Path)
    requires Represents(nodes, paths, origin) && p in nodes && |p| > 1
    ensures Parent(p) in nodes
  {
    var a := origin[p];
    assert Holds(nodes, a);
    assert Parent(p) == Folded(a, |p| - 1);
  }

  lemma FoldedParent(parts: Path, n: nat)
    requires n < |parts|
    ensures Parent(Folded(parts, n + 1)) == Folded(parts, n)
    ensures Below(Folded(parts, n), Fold(parts[n])) == Folded(parts, n + 1)
  {
    FoldedStep(parts, n);
  }

  /** Nothing hangs below a component that is not there yet. */
  lemma Unborn(was: Nodes, nodes: Nodes, paths: seq<Path>, origin: map<Path, Path>, parts: Path, i: nat)
    requires Represents(was, paths, origin) && i < |parts| && Walked(was, nodes, parts, i)
    requires Folded(parts, i + 1) !in nodes
    ensures forall q <- nodes :: Parent(q) != Folded(parts, i + 1)
  {
    forall q <- nodes ensures Parent(q) != Folded(parts, i + 1) {
      if q in was {
        if |q| > 1 { Ancestor(was, paths, origin, q); }
      } else {
        assert |q| <= i;
      }
    }
  }

  /** Walking past a component that is there already: the path fits so far, or it does not fit at all. */
  lemma StepOld(was: Nodes, nodes: Nodes, parts: Path, i: nat)
    requires i < |parts| && Walked(was, nodes, parts, i) && Folded(parts, i + 1) in nodes
    ensures Folded(parts, i + 1) in was
    ensures var node := nodes[Folded(parts, i + 1)];
      if node == Node(parts[i], true) && i + 1 < |parts| then Walked(was, nodes, parts, i + 1) else !Fits(was, parts)
  {
    hide Folded, Fold;
  }

  lemma StepNew(was: Nodes, nodes: Nodes, parts: Path, i: nat)
    requires i < |parts| && Walked(was, nodes, parts, i) && Folded(parts, i + 1) !in nodes
    ensures Folded(parts, i + 1) !in was
    ensures Walked(was, nodes[Folded(parts, i + 1) := Node(parts[i], i + 1 < |parts|)], parts, i + 1)
  {
    hide Folded, Fold;
  }

  /** Nothing is added before the first component that is missing. */
  lemma Untouched(was: Nodes, nodes: Nodes, paths: seq<Path>, origin: map<Path, Path>, parts: Path, i: nat)
    requires Represents(was, paths, origin) && i < |parts| && Walked(was, nodes, parts, i)
    requires Folded(parts, i + 1) in was
    ensures i > 0 ==> Folded(parts, i) in was
  {
    if i > 0 {
      Ancestor(was, paths, origin, Folded(parts, i + 1));
      FoldedParent(parts, i);
    }
  }

  lemma WalkedAll(was: Nodes, nodes: Nodes, parts: Path)
    requires Walked(was, nodes, parts, |parts|)
    ensures Grown(was, nodes, parts)
  {
    hide Folded;
  }

  lemma {:induction false} WalkedFits(was: Nodes, nodes: Nodes, parts: Path)
    requires Walked(was, nodes, parts, |parts|)
    ensures Fits(was, parts)
  {
    hide Folded;
  }

  /** How many components beyond the first `index` are new, among the first `i`. */
  ghost function Fresh(was: Nodes, parts: Path, index: nat, i: nat): (count: nat)
    requires i <= |parts|
  {
    if i == 0 then 0
    else Fresh(was, parts, index, i - 1) + if index < i && Folded(parts, i) !in was then 1 else 0
  }

  lemma FreshStep(was: Nodes, parts: Path, index: nat, i: nat)
    requires i < |parts|
    ensures Fresh(was, parts, index, 0) == 0
    ensures Fresh(was, parts, index, i + 1) ==
            Fresh(was, parts, index, i) + if index <= i && Folded(parts, i + 1) !in was then 1 else 0
  {
  }

  class Trie {
    var tables: seq<Table>
    ghost var place: seq<Path>
    ghost var home: map<Path, nat>
    ghost var nodes: Nodes
    ghost var origin: map<Path, Path>
    ghost var paths: seq<Path>

    ghost predicate Valid()
      reads this
    {
      Stored(tables, place, home, nodes) && Represents(nodes, paths, origin)
    }

    constructor ()
      ensures Valid() && paths == [] && nodes == map[]
    {
      tables, place, home, nodes, origin, paths := [map[]], [[]], map[[] := 0], map[], map[], [];
    }

    /** A new entry, with a dictionary of its own unless it is a file. */
    method Create(t: nat, key: Text, part: Text, terminal: bool) returns (next: nat)
      requires Stored(tables, place, home, nodes) && t < |tables| && key !in tables[t]
      requires !terminal ==> forall q <- nodes :: Parent(q) != Below(place[t], key)
      modifies this`tables, this`place, this`home, this`nodes
      ensures Stored(tables, place, home, nodes) && next < |tables| == |place|
      ensures nodes == old(nodes)[Below(old(place)[t], key) := Node(part, !terminal)]
      ensures !terminal ==> place[next] == Below(old(place)[t], key)
    {
      ghost var p := Below(place[t], key);
      next := t;
      if terminal {
        FileAdded(tables, place, home, nodes, t, key, part);
        tables := tables[t := tables[t][key := Entry(part, None)]];
      } else {
        DirectoryAdded(tables, place, home, nodes, t, key, part);
        next := |tables|;
        tables := tables[t := tables[t][key := Entry(part, Some(next))]] + [map[]];
        place, home := place + [p], home[p := next];
      }
      nodes := nodes[p := Node(part, !terminal)];
    }

    /** Follow or create one component. */
    method Advance(parts: Path, i: nat, t: nat, ghost was: Nodes) returns (next: Option<nat>, created: bool)
      requires i < |parts| && t < |tables| == |place| && place[t] == Folded(parts, i)
      requires Stored(tables, place, home, nodes) && Represents(was, paths, origin) && Walked(was, nodes, parts, i)
      modifies this`tables, this`place, this`home, this`nodes
      ensures Stored(tables, place, home, nodes)
      ensures created <==> Folded(parts, i + 1) !in was
      ensures !created ==> tables == old(tables) && nodes == old(nodes) && (i > 0 ==> Folded(parts, i) in was)
      ensures next.None? ==> !created && !Fits(was, parts)
      ensures next.Some? ==> Walked(was, nodes, parts, i + 1) && next.value < |tables| == |place|
      ensures next.Some? && i + 1 < |parts| ==> place[next.value] == Folded(parts, i + 1)
    {
      hide Folded, Fold, Stored, Represents, Walked, Below, Fits, Parent;
      var part := parts[i];
      var key, terminal := Fold(part), i == |parts| - 1;
      FoldedParent(parts, i);
      Found(tables, place, home, nodes, t, key);
      created := key !in tables[t];
      if created {
        StepNew(was, nodes, parts, i);
        if !terminal { Unborn(was, nodes, paths, origin, parts, i); }
        var place' := Create(t, key, part, terminal);
        next := Some(place');
      } else {
        var entry := tables[t][key];
        StepOld(was, nodes, parts, i);
        Untouched(was, nodes, paths, origin, parts, i);
        next := if entry.spelling != part || terminal then None else entry.children;
      }
    }

    /** A path is taken exactly when it is compatible with all paths taken before; a refused path leaves the
        trie as it was. */
    method Insert(parts: Path, reportIndex: nat) returns (added: Option<nat>)
      requires Valid() && parts != []
      modifies this
      ensures Valid()
      ensures added.Some? <==> FitsAll(old(paths), parts)
      ensures added.Some? ==> paths == old(paths) + [parts] && Grown(old(nodes), nodes, parts)
      ensures added.Some? ==> added.value == Fresh(old(nodes), parts, reportIndex, |parts|)
      ensures added.None? ==> paths == old(paths) && nodes == old(nodes) && tables == old(tables)
    {
      hide Folded, Fold, Stored, Represents, Walked, Below, Fits, Grown, FitsAll, Parent, NewOrigin, Fresh;
      FitsExactly(nodes, paths, origin, parts);
      var i, t, count := 0, 0, 0;
      ghost var was := nodes;
      Start(tables, place, home, nodes, parts);
      FreshStep(was, parts, reportIndex, 0);
      while i < |parts|
        invariant 0 <= i <= |parts| && 0 <= t < |tables| == |place|
        invariant Stored(tables, place, home, nodes) && Walked(was, nodes, parts, i)
        invariant i < |parts| ==> place[t] == Folded(parts, i)
        invariant i == 0 || Folded(parts, i) in was ==> nodes == was && tables == old(tables)
        invariant paths == old(paths) && origin == old(origin)
        invariant count == Fresh(was, parts, reportIndex, i)
      {
        var next, created := Advance(parts, i, t, was);
        if next.None? { return None; }
        FreshStep(was, parts, reportIndex, i);
        count := count + if created && i >= reportIndex then 1 else 0;
        t := next.value;
        i := i + 1;
      }
      WalkedAll(was, nodes, parts);
      WalkedFits(was, nodes, parts);
      GrownRepresents(was, nodes, paths, origin, parts);
      paths, origin := paths + [parts], NewOrigin(was, nodes, origin, parts);
      added := Some(count);
    }
  }

  lemma Start(tables: seq<Table>, place: seq<Path>, home: map<Path, nat>, nodes: Nodes, parts: Path)
    requires Stored(tables, place, home, nodes) && parts != []
    ensures |tables| == |place| > 0 && place[0] == Folded(parts, 0) && Walked(nodes, nodes, parts, 0)
  {
  }

  /** What the dictionary at the cursor says of the next node. */
  lemma Found(tables: seq<Table>, place: seq<Path>, home: map<Path, nat>, nodes: Nodes, t: nat, key: Text)
    requires Stored(tables, place, home, nodes) && t < |tables|
    ensures |tables| == |place|
    ensures var p := Below(place[t], key);
      && (key in tables[t] <==> p in nodes)
      && (key in tables[t] ==> var e := tables[t][key];
            && nodes[p] == Node(e.spelling, e.children.Some?)
            && (e.children.Some? ==> e.children.value < |place| && place[e.children.value] == p))
  {
    assert Lists(tables[t], place[t], place, nodes);
    BelowParent(place[t], key);
    hide Below, Parent, Last;
  }

  // ----- report paths -----

  const METADATA_BYTES := 4 * 1024 * 1024
  const REPORT_BYTES := 512 * 1024 * 1024
  const REPORT_ENTRIES := 20000
  const SOURCE_BYTES := 4096
  const COMPONENT_BYTES := 255
  const REPORT_DIRECTORY_DEPTH := 256

  function Chars(s: string): (t: Text)
    ensures |t| == |s|
  {
    seq(|s|, i requires 0 <= i < |s| => s[i] as int)
  }

  const DEVICES: seq<string> := [
    "con", "prn", "aux", "nul", "conin$", "conout$", "clock$",
    "com1", "com2", "com3", "com4", "com5", "com6", "com7", "com8", "com9",
    "lpt1", "lpt2", "lpt3", "lpt4", "lpt5", "lpt6", "lpt7", "lpt8", "lpt9"]

  /** A component up to its first dot. */
  function Stem(s: Text): Text {
    if s == [] || s[0] == 46 then [] else [s[0]] + Stem(s[1..])
  }

  function RightStripped(s: Text): Text {
    if s != [] && s[|s| - 1] == 32 then RightStripped(s[..|s| - 1]) else s
  }

  predicate Component(s: Text) {
    && 0 < |s| <= COMPONENT_BYTES && s != [46] && s != [46, 46] && s[|s| - 1] != 32 && s[|s| - 1] != 46
    && (forall c <- s :: 32 <= c <= 126 && c !in {60, 62, 58, 34, 47, 92, 124, 63, 42})
    && forall d <- DEVICES :: Fold(RightStripped(Stem(s))) != Chars(d)
  }

  /** Where the report directory of a path begins; a path outside the known roots has none. */
  function Root(parts: Path): nat {
    if |parts| >= 1 && parts[0] == Chars("build") then 1
    else if |parts| >= 2 && parts[0] == Chars("buildSrc") && parts[1] == Chars("build") then 2
    else if |parts| >= 3 && parts[0] in {Chars("library"), Chars("samples")} && parts[2] == Chars("build") then 3
    else |parts|
  }

  predicate Source(value: Text) {
    var parts := Texts.Split(value, 47);
    && 0 < |value| <= SOURCE_BYTES && (forall c <- parts :: Component(c))
    && Root(parts) + 2 <= |parts| <= Root(parts) + 2 + REPORT_DIRECTORY_DEPTH
    && parts[Root(parts)] in {Chars("reports"), Chars("test-results")}
  }

  /** The root of a path is settled by the components up to the report directory. */
  lemma RootLocal(a: Path, b: Path, n: nat)
    requires Root(a) < n <= |a| && n <= |b| && a[..n] == b[..n]
    ensures Root(b) == Root(a)
  {
    hide Chars;
    assert forall i | 0 <= i < n :: a[i] == a[..n][i] == b[i];
  }

  /** The distinct folded prefixes inside report directories. */
  ghost function Counted(paths: seq<Path>): set<Path> {
    set a, n | a in paths && Root(a) < n <= |a| :: Folded(a, n)
  }

  ghost function NewOnes(nodes: Nodes, a: Path, i: nat): set<Path>
    requires i <= |a|
  {
    set n | 0 < n <= i && Root(a) < n && Folded(a, n) !in nodes :: Folded(a, n)
  }

  lemma {:induction false} NewOnesCount(nodes: Nodes, a: Path, i: nat)
    requires i <= |a|
    ensures |NewOnes(nodes, a, i)| == Fresh(nodes, a, Root(a), i)
  {
    hide Folded, Root;
    if i > 0 {
      NewOnesCount(nodes, a, i - 1);
      var before := NewOnes(nodes, a, i - 1);
      if Root(a) < i && Folded(a, i) !in nodes {
        assert NewOnes(nodes, a, i) == before + {Folded(a, i)};
        assert Folded(a, i) !in before;
      } else {
        assert NewOnes(nodes, a, i) == before;
      }
    } else {
      assert NewOnes(nodes, a, 0) == {};
    }
  }

  /** A prefix that is a node already was counted already. */
  lemma CountedBefore(nodes: Nodes, paths: seq<Path>, origin: map<Path, Path>, a: Path, n: nat)
    requires Represents(nodes, paths, origin) && FitsAll(paths, a) && Root(a) < n <= |a| && Folded(a, n) in nodes
    ensures Folded(a, n) in Counted(paths)
  {
    var p := Folded(a, n);
    var b := origin[p];
    hide Folded, Root;
    assert Compatible(b, a) && p == Folded(b, n);
    assert b[..n] == a[..n];
    RootLocal(a, b, n);
  }

  lemma CountedAreNodes(nodes: Nodes, paths: seq<Path>, origin: map<Path, Path>)
    requires Represents(nodes, paths, origin)
    ensures forall p <- Counted(paths) :: p in nodes
  {
    hide Folded, Root;
    forall p <- Counted(paths) ensures p in nodes {
      var a, n :| a in paths && Root(a) < n <= |a| && p == Folded(a, n);
      assert Holds(nodes, a);
    }
  }

  /** The entry count grows by exactly the new prefixes. */
  lemma CountGrows(nodes: Nodes, paths: seq<Path>, origin: map<Path, Path>, a: Path)
    requires Represents(nodes, paths, origin) && FitsAll(paths, a)
    ensures |Counted(paths + [a])| == |Counted(paths)| + Fresh(nodes, a, Root(a), |a|)
  {
    hide Folded, Root, FitsAll, Represents, Fresh, Counted, NewOnes;
    var newOnes := NewOnes(nodes, a, |a|);
    NewOnesCount(nodes, a, |a|);
    CountedAreNodes(nodes, paths, origin);
    NewOnesAreNew(nodes, a);
    forall p ensures p in Counted(paths + [a]) <==> p in Counted(paths) + newOnes {
      CountedStep(nodes, paths, origin, a, p);
    }
    assert Counted(paths + [a]) == Counted(paths) + newOnes && Counted(paths) !! newOnes;
  }

  lemma NewOnesAreNew(nodes: Nodes, a: Path)
    ensures forall p <- NewOnes(nodes, a, |a|) :: p !in nodes
  {
    hide Folded, Root;
  }

  lemma CountedStep(nodes: Nodes, paths: seq<Path>, origin: map<Path, Path>, a: Path, p: Path)
    requires Represents(nodes, paths, origin) && FitsAll(paths, a)
    ensures p in Counted(paths + [a]) <==> p in Counted(paths) || p in NewOnes(nodes, a, |a|)
  {
    hide Folded, Root, FitsAll, Represents;
    if p in Counted(paths + [a]) {
      var b, n :| b in paths + [a] && Root(b) < n <= |b| && p == Folded(b, n);
      if b !in paths && p in nodes {
        CountedBefore(nodes, paths, origin, a, n);
      }
    }
    if p in Counted(paths) {
      var b, n :| b in paths && Root(b) < n <= |b| && p == Folded(b, n);
      assert b in paths + [a];
    } else if p in NewOnes(nodes, a, |a|) {
      assert a in paths + [a];
    }
  }

  // ----- the pairwise rule over a whole inventory -----

  /** Each path is compatible with every one before it. */
  ghost predicate Pairwise(paths: seq<Path>) {
    paths == [] || (Pairwise(paths[..|paths| - 1]) && FitsAll(paths[..|paths| - 1], paths[|paths| - 1]))
  }

  lemma {:induction false} PairwiseExactly(paths: seq<Path>)
    ensures Pairwise(paths) <==> forall i, j | 0 <= i < j < |paths| :: Compatible(paths[i], paths[j])
  {
    hide Compatible;
    if paths != [] {
      var init := paths[..|paths| - 1];
      PairwiseExactly(init);
      if Pairwise(paths) {
        forall i, j | 0 <= i < j < |paths| ensures Compatible(paths[i], paths[j]) {
          if j < |init| {
            assert init[i] == paths[i] && init[j] == paths[j];
          } else {
            assert init[i] in init;
          }
        }
      }
      if forall i, j | 0 <= i < j < |paths| :: Compatible(paths[i], paths[j]) {
        forall i, j | 0 <= i < j < |init| ensures Compatible(init[i], init[j]) {
          assert init[i] == paths[i] && init[j] == paths[j];
        }
        forall a <- init ensures Compatible(a, paths[|paths| - 1]) {
          var i :| 0 <= i < |init| && init[i] == a;
          assert paths[i] == a;
        }
      }
    }
  }

  lemma CompatibleSymmetric(a: Path, b: Path)
    ensures Compatible(a, b) <==> Compatible(b, a)
  {
    hide Folded;
  }

  lemma NotWithItself(a: Path)
    requires a != []
    ensures !Compatible(a, a)
  {
    assert Folded(a, |a|) == Folded(a, |a|);
  }

  /** The rule without any order: no path twice, and any two different ones compatible. */
  ghost predicate Unordered(paths: seq<Path>) {
    && (forall a <- paths :: multiset(paths)[a] == 1)
    && (forall a <- paths, b <- paths | a != b :: Compatible(a, b))
  }

  lemma {:induction false} PairwiseUnordered(paths: seq<Path>)
    requires forall a <- paths :: a != []
    ensures Pairwise(paths) <==> Unordered(paths)
  {
    hide Compatible;
    if paths != [] {
      var init, last := paths[..|paths| - 1], paths[|paths| - 1];
      assert paths == init + [last] && multiset(paths) == multiset(init) + multiset{last};
      assert last in paths && forall a <- init :: a in paths;
      assert forall a :: a in init <==> a in multiset(init);
      PairwiseUnordered(init);
      NotWithItself(last);
      forall a <- init ensures Compatible(a, last) <==> Compatible(last, a) { CompatibleSymmetric(a, last); }
      if Unordered(paths) {
        assert last !in init;
        forall a <- init ensures multiset(init)[a] == 1 { assert multiset(paths)[a] == 1; }
      }
      if Pairwise(paths) {
        assert last !in init;
        forall a <- paths ensures multiset(paths)[a] == 1 {}
      }
    }
  }

  /** Neither acceptance nor the entry count depends on the order of the paths. */
  lemma OrderIrrelevant(p: seq<Path>, q: seq<Path>)
    requires multiset(p) == multiset(q) && forall a <- p :: a != []
    ensures Pairwise(p) <==> Pairwise(q)
    ensures Counted(p) == Counted(q)
  {
    hide Compatible, Folded, Root;
    assert forall a :: a in p <==> a in multiset(p);
    assert forall a :: a in q <==> a in multiset(q);
    PairwiseUnordered(p);
    PairwiseUnordered(q);
  }

  // ----- the row loop -----

  datatype Row = Row(source: Text, sha256: Text, bytes: int, changed: bool, retained: Text)

  datatype Summary = Summary(retained: seq<Row>, declaredBytes: nat, retainedBytes: nat, entries: nat)

  predicate IsSha(t: Text) {
    |t| == 64 && forall c <- t :: 48 <= c <= 57 || 97 <= c <= 102
  }

  predicate RowOk(row: Row, emptySha: Text) {
    && Source(row.source) && 0 <= row.bytes <= REPORT_BYTES && IsSha(row.sha256)
    && (row.bytes == 0 ==> row.sha256 == emptySha)
    && (row.changed ==> row.retained == Chars("reports/") + row.source)
  }

  predicate Less(a: Text, b: Text) {
    b != [] && (a == [] || a[0] < b[0] || (a[0] == b[0] && Less(a[1..], b[1..])))
  }

  predicate Increasing(rows: seq<Row>) {
    |rows| <= 1 ||
    (Increasing(rows[..|rows| - 1]) && Less(rows[|rows| - 2].source, rows[|rows| - 1].source))
  }

  function PathsOf(rows: seq<Row>): (paths: seq<Path>)
    ensures |paths| == |rows|
  {
    if rows == [] then [] else PathsOf(rows[..|rows| - 1]) + [Texts.Split(rows[|rows| - 1].source, 47)]
  }

  /** The declared bytes, over all rows or over the changed ones. */
  function Bytes(rows: seq<Row>, changedOnly: bool): (total: int)
  {
    if rows == [] then 0 else
      Bytes(rows[..|rows| - 1], changedOnly) +
      if changedOnly && !rows[|rows| - 1].changed then 0 else rows[|rows| - 1].bytes
  }

  function Changed(rows: seq<Row>): seq<Row> {
    if rows == [] then [] else
      Changed(rows[..|rows| - 1]) + if rows[|rows| - 1].changed then [rows[|rows| - 1]] else []
  }

  /** What an inventory must meet. */
  ghost predicate Acceptable(rows: seq<Row>, emptySha: Text) {
    && (forall r <- rows :: RowOk(r, emptySha)) && Increasing(rows) && Pairwise(PathsOf(rows))
    && Bytes(rows, false) <= REPORT_BYTES && |Counted(PathsOf(rows))| <= REPORT_ENTRIES
  }

  /** A prefix of an acceptable inventory is acceptable, so no row is refused too early. */
  lemma AcceptableBefore(rows: seq<Row>, emptySha: Text)
    requires rows != [] && Acceptable(rows, emptySha)
    ensures Acceptable(rows[..|rows| - 1], emptySha)
  {
    hide RowOk, FitsAll, Less, Folded, Root;
    var init := rows[..|rows| - 1];
    assert PathsOf(rows)[..|rows| - 1] == PathsOf(init);
    assert RowOk(rows[|rows| - 1], emptySha);
    assert rows[|rows| - 1].bytes >= 0 by { RowBytes(rows[|rows| - 1], emptySha); }
    Contained(PathsOf(init), PathsOf(rows));
  }

  lemma RowBytes(row: Row, emptySha: Text)
    requires RowOk(row, emptySha)
    ensures 0 <= row.bytes
  {
  }

  lemma Contained(p: seq<Path>, q: seq<Path>)
    requires |p| <= |q| && p == q[..|p|]
    ensures |Counted(p)| <= |Counted(q)|
  {
    hide Folded, Root;
    assert forall a <- p :: a in q;
    assert Counted(p) <= Counted(q);
    Smaller(Counted(p), Counted(q));
  }

  lemma {:induction false} Smaller(p: set<Path>, q: set<Path>)
    requires p <= q
    ensures |p| <= |q|
  {
    if p != {} {
      var x :| x in p;
      Smaller(p - {x}, q - {x});
    }
  }

  lemma {:induction false} AcceptablePrefix(rows: seq<Row>, n: nat, emptySha: Text)
    requires n <= |rows| && Acceptable(rows, emptySha)
    ensures Acceptable(rows[..n], emptySha)
    decreases |rows|
  {
    if n < |rows| {
      AcceptableBefore(rows, emptySha);
      AcceptablePrefix(rows[..|rows| - 1], n, emptySha);
      assert rows[..|rows| - 1][..n] == rows[..n];
    } else {
      assert rows[..n] == rows;
    }
  }

  /** One more row is acceptable exactly when it passes each check of the loop. */
  lemma AcceptableNext(rows: seq<Row>, n: nat, emptySha: Text)
    requires n < |rows| && Acceptable(rows[..n], emptySha)
    ensures var path := Texts.Split(rows[n].source, 47);
      && PathsOf(rows[..n + 1]) == PathsOf(rows[..n]) + [path]
      && Bytes(rows[..n + 1], false) == Bytes(rows[..n], false) + rows[n].bytes
      && Bytes(rows[..n + 1], true) == Bytes(rows[..n], true) + (if rows[n].changed then rows[n].bytes else 0)
      && Changed(rows[..n + 1]) == Changed(rows[..n]) + (if rows[n].changed then [rows[n]] else [])
      && (Acceptable(rows[..n + 1], emptySha) <==>
          (&& RowOk(rows[n], emptySha) && (n == 0 || Less(rows[n - 1].source, rows[n].source))
           && FitsAll(PathsOf(rows[..n]), path) && Bytes(rows[..n + 1], false) <= REPORT_BYTES
           && |Counted(PathsOf(rows[..n + 1]))| <= REPORT_ENTRIES))
  {
    hide RowOk, FitsAll, Less, Counted, PathsOf, Bytes, Changed, Increasing, Pairwise;
    var init, last := rows[..n], rows[n];
    assert rows[..n + 1] == init + [last];
    RowsNext(init, last);
    IncreasingNext(init, last);
    PairwiseNext(PathsOf(init), Texts.Split(last.source, 47));
    assert n > 0 ==> init[n - 1] == rows[n - 1];
    assert forall r :: r in init + [last] <==> r in init || r == last;
  }

  lemma RowsNext(init: seq<Row>, last: Row)
    ensures PathsOf(init + [last]) == PathsOf(init) + [Texts.Split(last.source, 47)]
    ensures Bytes(init + [last], false) == Bytes(init, false) + last.bytes
    ensures Bytes(init + [last], true) == Bytes(init, true) + if last.changed then last.bytes else 0
    ensures Changed(init + [last]) == Changed(init) + if last.changed then [last] else []
  {
    hide Texts.Split;
    var rows := init + [last];
    assert rows[..|rows| - 1] == init && rows[|rows| - 1] == last;
  }

  lemma IncreasingNext(init: seq<Row>, last: Row)
    ensures Increasing(init + [last]) <==>
            (Increasing(init) && (init == [] || Less(init[|init| - 1].source, last.source)))
  {
    hide Less;
    var rows := init + [last];
    var n := |init|;
    assert |rows| == n + 1 && rows[n] == last && rows[..n] == init;
    if n > 0 {
      assert rows[n - 1] == init[n - 1];
      assert Increasing(rows) <==> (Increasing(rows[..n]) && Less(rows[n - 1].source, rows[n].source));
    }
  }

  lemma PairwiseNext(init: seq<Path>, last: Path)
    ensures Pairwise(init + [last]) <==> (Pairwise(init) && FitsAll(init, last))
  {
    hide FitsAll;
    var paths := init + [last];
    assert paths[..|paths| - 1] == init && paths[|paths| - 1] == last;
  }

  /** The inventory is accepted exactly when every row is well formed, the rows are in strict order, their
      paths are pairwise compatible, and bytes and entries stay within their limits. */
  method Reports(rows: seq<Row>, emptySha: Text) returns (r: Option<Summary>)
    ensures r.Some? <==> Acceptable(rows, emptySha)
    ensures r.Some? ==>
      && r.value.entries == |Counted(PathsOf(rows))| && r.value.declaredBytes == Bytes(rows, false)
      && r.value.retained == Changed(rows) && r.value.retainedBytes == Bytes(rows, true)
  {
    hide RowOk, FitsAll, Less, Counted, Acceptable, Represents, Stored, Root, Bytes, PathsOf, Changed;
    var trie := new Trie();
    var entries, total, retainedBytes, retained, n := 0, 0, 0, [], 0;
    NothingYet(rows, emptySha);
    while n < |rows|
      invariant n <= |rows| && trie.Valid() && Acceptable(rows[..n], emptySha)
      invariant trie.paths == PathsOf(rows[..n]) && entries == |Counted(trie.paths)|
      invariant total == Bytes(rows[..n], false) && retainedBytes == Bytes(rows[..n], true) <= total && 0 <= retainedBytes
      invariant retained == Changed(rows[..n])
    {
      var row := rows[n];
      AcceptableNext(rows, n, emptySha);
      if Acceptable(rows, emptySha) { AcceptablePrefix(rows, n + 1, emptySha); }
      if !RowOk(row, emptySha) { return None; }
      RowBytes(row, emptySha);
      if n > 0 && !Less(rows[n - 1].source, row.source) { return None; }
      var parts := Texts.Split(row.source, 47);
      ghost var nodes, paths, origin := trie.nodes, trie.paths, trie.origin;
      var added := trie.Insert(parts, Root(parts));
      if added.None? { return None; }
      CountGrows(nodes, paths, origin, parts);
      entries := entries + added.value;
      if entries > REPORT_ENTRIES { return None; }
      total := total + row.bytes;
      if total > REPORT_BYTES { return None; }
      if row.changed {
        retained, retainedBytes := retained + [row], retainedBytes + row.bytes;
      }
      n := n + 1;
    }
    assert rows[..n] == rows;
    r := Some(Summary(retained, total, retainedBytes, entries));
  }

  lemma NothingYet(rows: seq<Row>, emptySha: Text)
    ensures Acceptable(rows[..0], emptySha) && PathsOf(rows[..0]) == [] && Counted([]) == {}
    ensures Bytes(rows[..0], false) == 0 && Bytes(rows[..0], true) == 0 && Changed(rows[..0]) == []
  {
    assert rows[..0] == [];
    assert Counted([]) == {};
  }
}
