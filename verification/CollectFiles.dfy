/** Copying the planned files: every file is read twice, written once and read back, under byte and member
    limits, and the tree is listed again at the end. */
module CollectFiles {
  import opened Wrappers
  import opened FilePlan
  import opened FileInventory
  import ReportTrie

  const BLOCK := 65536
  const SOURCE_LIMIT := 2 * MAX_BYTES + 3 * METADATA_BYTES

  /** A file of the source: its size when opened, what each of the passes over it delivers (`stored` is what
      its copy delivers when read back), in which portions, and whether its copy takes every portion whole. */
  datatype HostFile = HostFile(size: nat, admitted: seq<bv8>, first: seq<bv8>, second: seq<bv8>, stored: seq<bv8>,
                               portion: nat -> nat, whole: bool)

  datatype Disk = DiskFile(file: HostFile) | DiskDirectory(entries: seq<DiskEntry>)

  datatype DiskEntry = DiskEntry(name: Text, disk: Disk)

  /** What is in the destination afterwards. */
  datatype Image = ImageFile(bytes: seq<bv8>) | ImageDirectory(entries: seq<ImageEntry>)

  datatype ImageEntry = ImageEntry(name: Text, image: Image)

  /** A last look at a tree: is each binding what it was? */
  datatype Listing = ListedFile(same: bool) | ListedDirectory(same: bool, entries: seq<ListedEntry>)

  datatype ListedEntry = ListedEntry(name: Text, listing: Listing)

  datatype Side = Source | Destination

  function Min(a: int, b: int): int {
    if a < b then a else b
  }

  // ----- what the source must be -----

  ghost predicate BytesMatch(m: Member, bytes: seq<bv8>, digest: seq<bv8> -> Text) {
    && (m.raw.Some? ==> |bytes| <= |m.raw.value| && bytes == m.raw.value[..|bytes|])
    && (m.sha.Some? ==> digest(bytes) == m.sha.value)
  }

  predicate SizeMatches(m: Member, size: nat) {
    size <= m.maximum && (m.size.Some? ==> size == m.size.value)
  }

  ghost predicate FileConforms(m: Member, f: HostFile, digest: seq<bv8> -> Text) {
    SizeMatches(m, f.size) && |f.first| == f.size && BytesMatch(m, f.first, digest)
  }

  ghost predicate FileStable(f: HostFile) {
    f.admitted == f.first && f.second == f.first && f.stored == f.first && f.whole
  }

  /** The source holds exactly the planned names, and every file is as declared. */
  ghost predicate Conforms(p: Plan, d: Disk, digest: seq<bv8> -> Text) {
    match p
    case File(m) => d.DiskFile? && FileConforms(m, d.file, digest)
    case Directory(entries) =>
      && d.DiskDirectory? && |d.entries| == |entries|
      && forall i | 0 <= i < |entries| ::
           d.entries[i].name == entries[i].name && Conforms(entries[i].plan, d.entries[i].disk, digest)
  }

  ghost predicate Stable(d: Disk) {
    match d
    case DiskFile(f) => FileStable(f)
    case DiskDirectory(entries) => forall i | 0 <= i < |entries| :: Stable(entries[i].disk)
  }

  /** The destination is the source, name by name and byte by byte. */
  ghost predicate Copied(d: Disk, image: Image) {
    match d
    case DiskFile(f) => image.ImageFile? && image.bytes == f.first
    case DiskDirectory(entries) =>
      && image.ImageDirectory? && |image.entries| == |entries|
      && forall i | 0 <= i < |entries| ::
           image.entries[i].name == entries[i].name && Copied(entries[i].disk, image.entries[i].image)
  }

  ghost predicate Unchanged(p: Plan, l: Listing) {
    match p
    case File(_) => l.ListedFile? && l.same
    case Directory(entries) =>
      && l.ListedDirectory? && l.same && |l.entries| == |entries|
      && forall i | 0 <= i < |entries| ::
           l.entries[i].name == entries[i].name && Unchanged(entries[i].plan, l.entries[i].listing)
  }

  ghost predicate Injective(digest: seq<bv8> -> Text) {
    forall a, b :: digest(a) == digest(b) ==> a == b
  }

  // ----- sizes -----

  function Size(d: Disk): nat
    decreases d, if d.DiskDirectory? then |d.entries| + 1 else 0
  {
    match d
    case DiskFile(f) => f.size
    case DiskDirectory(entries) => SizeUpTo(d, |entries|)
  }

  function SizeUpTo(d: Disk, n: nat): nat
    requires d.DiskDirectory? && n <= |d.entries|
    decreases d, n
  {
    if n == 0 then 0 else SizeUpTo(d, n - 1) + Size(d.entries[n - 1].disk)
  }

  lemma {:induction false} SizeGrows(d: Disk, i: nat, n: nat)
    requires d.DiskDirectory? && i < n <= |d.entries|
    ensures SizeUpTo(d, i) + Size(d.entries[i].disk) <= SizeUpTo(d, n)
    decreases n
  {
    if i + 1 < n { SizeGrows(d, i, n - 1); }
  }

  lemma {:induction false} AtLeast(p: Plan, n: nat)
    requires p.Directory? && n <= |p.entries|
    ensures TotalUpTo(p, Entries, n) >= n
  {
    if n > 0 { AtLeast(p, n - 1); }
  }

  /** A conforming source is no larger than the caps of its plan. */
  lemma {:induction false} SizeWithinCaps(p: Plan, d: Disk, digest: seq<bv8> -> Text)
    requires Conforms(p, d, digest)
    ensures Size(d) <= Total(p, Caps)
    decreases p, 1, 0
  {
    if p.Directory? { SizeUpToWithinCaps(p, d, digest, |p.entries|); }
  }

  lemma {:induction false} SizeUpToWithinCaps(p: Plan, d: Disk, digest: seq<bv8> -> Text, n: nat)
    requires p.Directory? && Conforms(p, d, digest) && n <= |p.entries|
    ensures SizeUpTo(d, n) <= TotalUpTo(p, Caps, n)
    decreases p, 0, n
  {
    if n > 0 {
      SizeUpToWithinCaps(p, d, digest, n - 1);
      SizeWithinCaps(p.entries[n - 1].plan, d.entries[n - 1].disk, digest);
    }
  }

  // ----- the copier -----

  class Copier {
    const digest: seq<bv8> -> Text
    var sourceRead: nat
    var destinationRead: nat
    var requested: nat
    var acknowledged: nat
    var sourceMembers: nat
    var destinationMembers: nat
    var sourceFinal: nat
    var destinationFinal: nat

    constructor (digest: seq<bv8> -> Text)
      ensures this.digest == digest
      ensures sourceRead == destinationRead == requested == acknowledged == 0
      ensures sourceMembers == destinationMembers == sourceFinal == destinationFinal == 0
    {
      this.digest := digest;
      sourceRead, destinationRead, requested, acknowledged := 0, 0, 0, 0;
      sourceMembers, destinationMembers, sourceFinal, destinationFinal := 0, 0, 0, 0;
    }

    /** Read a stream to its declared end, checking it against the declaration as it goes; `writing` writes
        every portion as well, and a portion that is not taken `whole` is refused. */
    method Stream(bytes: seq<bv8>, size: nat, m: Member, side: Side, writing: bool, whole: bool, portion: nat -> nat)
      returns (ok: bool)
      modifies this`sourceRead, this`destinationRead, this`requested, this`acknowledged
      ensures ok ==> |bytes| == size && BytesMatch(m, bytes, digest)
      ensures ok ==>
        && sourceRead == old(sourceRead) + (if side == Source then size else 0)
        && destinationRead == old(destinationRead) + (if side == Destination then size else 0)
        && requested == old(requested) + (if writing then size else 0)
        && acknowledged == old(acknowledged) + (if writing then size else 0)
      ensures (&& |bytes| == size && BytesMatch(m, bytes, digest) && (writing ==> whole)
               && (side == Source ==> old(sourceRead) + size <= SOURCE_LIMIT)
               && (side == Destination ==> old(destinationRead) + size <= MAX_BYTES)
               && (writing ==> old(requested) + size <= MAX_BYTES && old(acknowledged) + size <= MAX_BYTES)) ==> ok
    {
      var count, turn := 0, 0;
      while count < size
        invariant 0 <= count <= size && count <= |bytes|
        invariant sourceRead == old(sourceRead) + (if side == Source then count else 0)
        invariant destinationRead == old(destinationRead) + (if side == Destination then count else 0)
        invariant requested == old(requested) + (if writing then count else 0)
        invariant acknowledged == old(acknowledged) + (if writing then count else 0)
        invariant m.raw.Some? ==> count <= |m.raw.value| && bytes[..count] == m.raw.value[..count]
      {
        var wanted := Min(BLOCK, size - count);
        var got := Min(Min(wanted, |bytes| - count), if portion(turn) == 0 then 1 else portion(turn));
        turn := turn + 1;
        if side == Source { sourceRead := sourceRead + got; } else { destinationRead := destinationRead + got; }
        if (if side == Source then sourceRead > SOURCE_LIMIT else destinationRead > MAX_BYTES) { return false; }
        if got == 0 { return false; }
        if m.raw.Some? && (count + got > |m.raw.value| || bytes[count..count + got] != m.raw.value[count..count + got]) {
          Mismatch(bytes, m.raw.value, count, got);
          return false;
        }
        if m.raw.Some? { Extended(bytes, m.raw.value, count, got); }
        count := count + got;
        if writing {
          requested := requested + got;
          if requested > MAX_BYTES || !whole { return false; }
          acknowledged := acknowledged + got;
          if acknowledged > MAX_BYTES { return false; }
        }
      }
      if |bytes| > size { return false; }
      assert bytes[..count] == bytes;
      ok := m.sha.None? || digest(bytes) == m.sha.value;
    }

    /** Copy one file. Under an injective digest a copy that succeeds is the file as it was first read, whatever
        the passes delivered. */
    method CopyFile(m: Member, f: HostFile) returns (r: Option<seq<bv8>>)
      modifies this`sourceRead, this`destinationRead, this`requested, this`acknowledged
      ensures r.Some? ==> FileConforms(m, f, digest)
      ensures r.Some? && Injective(digest) ==> r.value == f.first == f.second
      ensures r.Some? ==> Charged(old(sourceRead), old(destinationRead), old(requested), old(acknowledged), f.size)
      ensures FileConforms(m, f, digest) && FileStable(f)
        && Room(old(sourceRead), old(destinationRead), old(requested), old(acknowledged), f.size)
        ==> r.Some?
    {
      if !SizeMatches(m, f.size) { return None; }
      var ok := Stream(f.first, f.size, m, Source, false, f.whole, f.portion);
      if !ok { return None; }
      ok := Stream(f.second, f.size, m, Source, true, f.whole, f.portion);
      if !ok || digest(f.second) != digest(f.first) { return None; }
      ok := Stream(f.stored, f.size, Member(m.maximum, Some(f.size), Some(digest(f.first)), m.raw), Destination, false,
                   f.whole, f.portion);
      if !ok { return None; }
      r := Some(f.stored);
    }

    /** Copy a directory: every name is listed, every entry copied, and the copy listed again. */
    method CopyTree(p: Plan, d: Disk) returns (r: Option<Image>)
      requires p.Directory?
      modifies this`sourceRead, this`destinationRead, this`requested, this`acknowledged,
        this`sourceMembers, this`destinationMembers
      ensures r.Some? ==> Conforms(p, d, digest) && (Injective(digest) ==> Copied(d, r.value))
      ensures r.Some? ==> Charged(old(sourceRead), old(destinationRead), old(requested), old(acknowledged), Size(d))
      ensures r.Some? ==>
        && sourceMembers == old(sourceMembers) + Total(p, Entries)
        && destinationMembers == old(destinationMembers) + Total(p, Entries)
      ensures (&& Conforms(p, d, digest) && Stable(d)
               && Room(old(sourceRead), old(destinationRead), old(requested), old(acknowledged), Size(d))
               && old(sourceMembers) + Total(p, Entries) <= MEMBERS
               && old(destinationMembers) + Total(p, Entries) <= MEMBERS) ==> r.Some?
      decreases p, 1
    {
      hide FileConforms, FileStable, Injective, Total, Conforms, Stable, Copied;
      DirectoryTotals(p);
      r := None;
      Spread(p, d, digest);
      if d.DiskFile? { return; }
      AtLeast(p, |p.entries|);
      sourceMembers := sourceMembers + |d.entries|;
      if |d.entries| != |p.entries| || sourceMembers > MEMBERS { return; }
      if exists i | 0 <= i < |p.entries| :: d.entries[i].name != p.entries[i].name { return; }
      var images: seq<ImageEntry>, n := [], 0;
      while n < |p.entries|
        invariant n <= |p.entries| == |d.entries| && |images| == n
        invariant forall i | 0 <= i < n :: Conforms(p.entries[i].plan, d.entries[i].disk, digest)
        invariant forall i | 0 <= i < n ::
          images[i].name == d.entries[i].name && (Injective(digest) ==> Copied(d.entries[i].disk, images[i].image))
        invariant Charged(old(sourceRead), old(destinationRead), old(requested), old(acknowledged), SizeUpTo(d, n))
        invariant sourceMembers + n == old(sourceMembers) + |p.entries| + TotalUpTo(p, Entries, n)
        invariant destinationMembers + n == old(destinationMembers) + TotalUpTo(p, Entries, n)
      {
        SizeGrows(d, n, |d.entries|);
        Remaining(p, n);
        var image := CopyEntry(p.entries[n].plan, d.entries[n].disk);
        if image.None? { return; }
        images := images + [ImageEntry(p.entries[n].name, image.value)];
        n := n + 1;
      }
      destinationMembers := destinationMembers + |p.entries|;
      if destinationMembers > MEMBERS { return; }
      Assembled(p, d, digest, images);
      r := Some(ImageDirectory(images));
    }

    method CopyEntry(p: Plan, d: Disk) returns (r: Option<Image>)
      modifies this`sourceRead, this`destinationRead, this`requested, this`acknowledged,
        this`sourceMembers, this`destinationMembers
      ensures r.Some? ==> Conforms(p, d, digest) && (Injective(digest) ==> Copied(d, r.value))
      ensures r.Some? ==> Charged(old(sourceRead), old(destinationRead), old(requested), old(acknowledged), Size(d))
      ensures r.Some? ==>
        && sourceMembers == old(sourceMembers) + Total(p, Entries)
        && destinationMembers == old(destinationMembers) + Total(p, Entries)
      ensures (&& Conforms(p, d, digest) && Stable(d)
               && Room(old(sourceRead), old(destinationRead), old(requested), old(acknowledged), Size(d))
               && old(sourceMembers) + Total(p, Entries) <= MEMBERS
               && old(destinationMembers) + Total(p, Entries) <= MEMBERS) ==> r.Some?
      decreases p, 2
    {
      hide FileConforms, FileStable, Injective;
      if p.Directory? {
        r := CopyTree(p, d);
      } else {
        if d.DiskDirectory? { return None; }
        var bytes := CopyFile(p.member, d.file);
        r := if bytes.Some? then Some(ImageFile(bytes.value)) else None;
      }
    }

    /** List a tree once more; every directory and file must still be the one that was bound. */
    method FinalTree(p: Plan, l: Listing, side: Side) returns (ok: bool)
      modifies this`sourceFinal, this`destinationFinal
      ensures ok ==> Unchanged(p, l)
      ensures ok ==>
        && sourceFinal == old(sourceFinal) + (if side == Source then Total(p, Entries) else 0)
        && destinationFinal == old(destinationFinal) + (if side == Destination then Total(p, Entries) else 0)
      ensures Unchanged(p, l) && (if side == Source then old(sourceFinal) else old(destinationFinal)) + Total(p, Entries) <= MEMBERS ==> ok
      decreases p
    {
      if p.File? || l.ListedFile? {
        return p.File? && l.ListedFile? && l.same;
      }
      if !l.same { return false; }
      AtLeast(p, |p.entries|);
      if side == Source {
        sourceFinal := sourceFinal + |l.entries|;
      } else {
        destinationFinal := destinationFinal + |l.entries|;
      }
      if (if side == Source then sourceFinal else destinationFinal) > MEMBERS || |l.entries| != |p.entries| { return false; }
      if exists i | 0 <= i < |p.entries| :: l.entries[i].name != p.entries[i].name { return false; }
      var n := 0;
      while n < |p.entries|
        invariant n <= |p.entries| == |l.entries|
        invariant forall i | 0 <= i < n :: Unchanged(p.entries[i].plan, l.entries[i].listing)
        invariant sourceFinal ==
          old(sourceFinal) + (if side == Source then |p.entries| + TotalUpTo(p, Entries, n) - n else 0)
        invariant destinationFinal ==
          old(destinationFinal) + (if side == Destination then |p.entries| + TotalUpTo(p, Entries, n) - n else 0)
      {
        Remaining(p, n);
        ok := FinalTree(p.entries[n].plan, l.entries[n].listing, side);
        if !ok { return; }
        n := n + 1;
      }
      ok := true;
    }

    /** Admit the metadata files, the first three of the plan, before anything is written. */
    method AdmitMetadata(p: Plan, d: Disk) returns (ok: bool)
      requires p.Directory? && MetadataFirst(p)
      modifies this`sourceRead, this`destinationRead, this`requested, this`acknowledged
      ensures ok ==>
        && sourceRead <= old(sourceRead) + 3 * METADATA_BYTES
        && destinationRead == old(destinationRead) && requested == old(requested) && acknowledged == old(acknowledged)
      ensures ok ==> d.DiskDirectory? && |d.entries| >= 3 && forall i | 0 <= i < 3 :: Admitted(p.entries[i], d.entries[i], digest)
      ensures ok ==> sourceRead == old(sourceRead) + MetadataSize(d, 3)
      ensures Conforms(p, d, digest) && Stable(d) && old(sourceRead) + 3 * METADATA_BYTES <= SOURCE_LIMIT ==> ok
    {
      if d.DiskFile? || |d.entries| < 3 { return false; }
      var n := 0;
      while n < 3
        invariant 0 <= n <= 3 && sourceRead <= old(sourceRead) + n * METADATA_BYTES
        invariant sourceRead == old(sourceRead) + MetadataSize(d, n)
        invariant forall i | 0 <= i < n :: Admitted(p.entries[i], d.entries[i], digest)
        invariant destinationRead == old(destinationRead) && requested == old(requested) && acknowledged == old(acknowledged)
      {
        var m, disk := p.entries[n].plan.member, d.entries[n].disk;
        assert Conforms(p, d, digest) ==> Conforms(p.entries[n].plan, disk, digest);
        assert d.DiskDirectory? && Stable(d) ==> Stable(disk);
        if d.entries[n].name != p.entries[n].name || disk.DiskDirectory? || !SizeMatches(m, disk.file.size) { return false; }
        ok := Stream(disk.file.admitted, disk.file.size, m, Source, false, true, disk.file.portion);
        if !ok { return; }
        n := n + 1;
      }
      ok := true;
    }

    /** The whole collection. If it succeeds, the destination is the source byte for byte and all four member
        counts are the plan's; and on a conforming source that holds still it succeeds, so that no byte or
        member limit is ever met. */
    method Collect(p: Plan, d: Disk, source: Listing, target: Listing) returns (r: Option<Image>)
      requires p.Directory? && MetadataFirst(p) && Total(p, Caps) <= MAX_BYTES && Total(p, Entries) <= MEMBERS
      requires sourceRead == destinationRead == requested == acknowledged == 0
      requires sourceMembers == destinationMembers == sourceFinal == destinationFinal == 0
      modifies this
      ensures r.Some? && Injective(digest) ==> Copied(d, r.value)
      ensures r.Some? ==> Conforms(p, d, digest) && Unchanged(p, source) && Unchanged(p, target)
      ensures r.Some? ==> d.DiskDirectory? && |d.entries| >= 3 && forall i | 0 <= i < 3 :: Admitted(p.entries[i], d.entries[i], digest)
      ensures r.Some? ==> sourceRead == 2 * Size(d) + MetadataSize(d, 3)
      ensures r.Some? ==>
        && sourceMembers == destinationMembers == sourceFinal == destinationFinal == Total(p, Entries)
        && destinationRead == requested == acknowledged == Size(d) <= MAX_BYTES && sourceRead <= SOURCE_LIMIT
      ensures Conforms(p, d, digest) && Stable(d) && Unchanged(p, source) && Unchanged(p, target) ==> r.Some?
    {
      hide Conforms, Stable, Copied, Unchanged, Injective, MetadataFirst, Admitted, MetadataSize;
      r := None;
      if Conforms(p, d, digest) { SizeWithinCaps(p, d, digest); }
      var ok := AdmitMetadata(p, d);
      if !ok { return; }
      var image := CopyTree(p, d);
      if image.None? { return; }
      ok := FinalTree(p, source, Source);
      if !ok { return; }
      ok := FinalTree(p, target, Destination);
      if !ok { return; }
      r := image;
    }

    /** The byte counters stand `bytes` copied bytes above the given ones. */
    ghost predicate Charged(source: nat, destination: nat, asked: nat, taken: nat, bytes: nat)
      reads this`sourceRead, this`destinationRead, this`requested, this`acknowledged
    {
      && sourceRead == source + 2 * bytes && destinationRead == destination + bytes
      && requested == asked + bytes && acknowledged == taken + bytes
    }
  }

  /** From these counters, `bytes` more can be copied within every limit. */
  ghost predicate Room(source: nat, destination: nat, asked: nat, taken: nat, bytes: nat) {
    && source + 2 * bytes <= SOURCE_LIMIT && destination + bytes <= MAX_BYTES
    && asked + bytes <= MAX_BYTES && taken + bytes <= MAX_BYTES
  }

  /** What a conforming, stable directory says of its entries. */
  lemma Spread(p: Plan, d: Disk, digest: seq<bv8> -> Text)
    requires p.Directory?
    ensures Conforms(p, d, digest) ==>
      && d.DiskDirectory? && |d.entries| == |p.entries|
      && forall i | 0 <= i < |p.entries| ::
           d.entries[i].name == p.entries[i].name && Conforms(p.entries[i].plan, d.entries[i].disk, digest)
    ensures Stable(d) && d.DiskDirectory? ==> forall i | 0 <= i < |d.entries| :: Stable(d.entries[i].disk)
  {
    hide FileConforms, FileStable;
  }

  /** What its entries say of a directory. */
  lemma Assembled(p: Plan, d: Disk, digest: seq<bv8> -> Text, images: seq<ImageEntry>)
    requires p.Directory? && d.DiskDirectory? && |d.entries| == |p.entries| == |images|
    requires forall i | 0 <= i < |images| ::
      d.entries[i].name == p.entries[i].name && Conforms(p.entries[i].plan, d.entries[i].disk, digest)
    requires forall i | 0 <= i < |images| ::
      images[i].name == d.entries[i].name && (Injective(digest) ==> Copied(d.entries[i].disk, images[i].image))
    ensures Conforms(p, d, digest) && (Injective(digest) ==> Copied(d, ImageDirectory(images)))
  {
    hide FileConforms, Injective;
  }

  lemma DirectoryTotals(p: Plan)
    requires p.Directory?
    ensures Total(p, Entries) == TotalUpTo(p, Entries, |p.entries|)
  {
  }

  /** What the entries from `n` on still add. */
  lemma {:induction false} Remaining(p: Plan, n: nat)
    requires p.Directory? && n < |p.entries|
    ensures TotalUpTo(p, Entries, n) + Total(p.entries[n].plan, Entries) + (|p.entries| - n) <= Total(p, Entries)
    ensures TotalUpTo(p, Entries, n) >= n
  {
    AtLeast(p, n);
    RemainingUpTo(p, n, |p.entries|);
  }

  lemma {:induction false} RemainingUpTo(p: Plan, i: nat, n: nat)
    requires p.Directory? && i < n <= |p.entries|
    ensures TotalUpTo(p, Entries, i) + Total(p.entries[i].plan, Entries) + (n - i) <= TotalUpTo(p, Entries, n)
    decreases n
  {
    if i + 1 < n { RemainingUpTo(p, i, n - 1); }
  }

  /** A metadata file was admitted: it has its declared name, and its size and bytes are as declared. */
  ghost predicate Admitted(p: FilePlan.Entry, d: DiskEntry, digest: seq<bv8> -> Text) {
    && p.plan.File? && d.name == p.name && d.disk.DiskFile? && SizeMatches(p.plan.member, d.disk.file.size)
    && |d.disk.file.admitted| == d.disk.file.size && BytesMatch(p.plan.member, d.disk.file.admitted, digest)
  }

  /** The sizes of the first `n` files of a directory. */
  function MetadataSize(d: Disk, n: nat): nat {
    if n == 0 || d.DiskFile? || n > |d.entries| || d.entries[n - 1].disk.DiskDirectory? then 0
    else MetadataSize(d, n - 1) + d.entries[n - 1].disk.file.size
  }

  /** The plan begins with the three metadata files. */
  predicate MetadataFirst(p: Plan) {
    p.Directory? && |p.entries| >= 3 &&
    forall i | 0 <= i < 3 :: p.entries[i].plan.File? && p.entries[i].plan.member.maximum == METADATA_BYTES
  }

  lemma Mismatch(bytes: seq<bv8>, raw: seq<bv8>, count: nat, got: nat)
    requires count + got <= |bytes| && got > 0
    requires count + got > |raw| || bytes[count..count + got] != raw[count..count + got]
    ensures !(|bytes| <= |raw| && bytes == raw[..|bytes|])
  {
  }

  lemma Extended(bytes: seq<bv8>, raw: seq<bv8>, count: nat, got: nat)
    requires count + got <= |bytes| && count + got <= |raw|
    requires bytes[..count] == raw[..count] && bytes[count..count + got] == raw[count..count + got]
    ensures bytes[..count + got] == raw[..count + got]
  {
    assert bytes[..count + got] == bytes[..count] + bytes[count..count + got];
    assert raw[..count + got] == raw[..count] + raw[count..count + got];
  }

  // ----- from an inventory to its copy -----

  /** Insertion leaves the files of the root where they are. */
  lemma InsertKeepsFile(p: Plan, parts: Path, m: Member, i: nat)
    requires p.Directory? && parts != [] && Insert(p, parts, m).Some? && i < |p.entries| && p.entries[i].plan.File?
    ensures var q := Insert(p, parts, m).value; i < |q.entries| && q.entries[i] == p.entries[i]
  {
  }

  lemma {:induction false} BuildKeepsFirst(declared: seq<Declared>, i: nat)
    requires (forall d <- declared :: d.path != []) && Build(declared).Some? && i < |declared|
    requires forall k | 0 <= k <= i :: |declared[k].path| == 1
    ensures var q := Build(declared).value;
      i < |q.entries| && q.entries[i] == Entry(declared[i].path[0], File(declared[i].member))
    ensures |declared| == i + 1 ==> |Build(declared).value.entries| == i + 1
  {
    var init, last := declared[..|declared| - 1], declared[|declared| - 1];
    if i < |init| {
      BuildKeepsFirst(init, i);
      InsertKeepsFile(Build(init).value, last.path, last.member, i);
    } else if i > 0 {
      BuildKeepsFirst(init, i - 1);
    }
  }

  /** The plan of an inventory begins with its metadata. */
  lemma InventoryMetadataFirst(metadata: seq<Member>, rows: seq<ReportTrie.Row>, emptySha: Text)
    requires |metadata| == 3 && (forall m <- metadata :: Cap(m) <= METADATA_BYTES && m.maximum == METADATA_BYTES)
    requires ReportTrie.Acceptable(rows, emptySha)
    ensures (forall r <- ReportTrie.Changed(rows) :: r.bytes >= 0) &&
            (forall d <- Inventory(metadata, rows) :: d.path != []) && Build(Inventory(metadata, rows)).Some?
    ensures MetadataFirst(Build(Inventory(metadata, rows)).value)
  {
    hide ReportTrie.Acceptable, Build, FixedName;
    InventoryFits(metadata, rows, emptySha);
    var declared := Inventory(metadata, rows);
    assert forall k | 0 <= k < 3 :: declared[k] == Fixed(metadata, k);
    var q := Build(declared).value;
    forall i | 0 <= i < 3
      ensures i < |q.entries| && q.entries[i].plan == File(metadata[i]) && metadata[i].maximum == METADATA_BYTES
    {
      BuildKeepsFirst(declared, i);
      assert metadata[i] in metadata;
    }
    BuildKeepsFirst(declared, 2);
  }

  /** From the rows of a report inventory to the copied tree. An inventory that was accepted and whose plan is
      portable and has at most 10000 entries is copied whole from any source that conforms to it and holds
      still; and only a faithful copy of such an inventory, with no listing changed, ever succeeds. */
  method CollectInventory(
      metadata: seq<Member>, rows: seq<ReportTrie.Row>, emptySha: Text, nameOk: Text -> bool, rootDepth: nat,
      digest: seq<bv8> -> Text, d: Disk, source: Listing, target: Listing)
    returns (r: Option<Image>)
    requires |metadata| == 3 && (forall m <- metadata :: Cap(m) <= METADATA_BYTES && m.maximum == METADATA_BYTES)
    requires ReportTrie.Acceptable(rows, emptySha)
    ensures (forall r <- ReportTrie.Changed(rows) :: r.bytes >= 0) &&
            (forall e <- Inventory(metadata, rows) :: e.path != []) && Build(Inventory(metadata, rows)).Some?
    ensures r.Some? && Injective(digest) ==> Copied(d, r.value)
    ensures var plan := Build(Inventory(metadata, rows)).value;
      var fit := && (forall e <- Inventory(metadata, rows) :: Portable(e, nameOk, rootDepth))
                 && EntriesOf(Inventory(metadata, rows)) <= MEMBERS
                 && Conforms(plan, d, digest) && Unchanged(plan, source) && Unchanged(plan, target);
      (r.Some? ==> fit) && (fit && Stable(d) ==> r.Some?)
  {
    hide ReportTrie.Acceptable, Conforms, Stable, Copied, Unchanged, Injective, MetadataFirst, Build, Inventory,
      Portable, Total;
    InventoryFits(metadata, rows, emptySha);
    InventoryMetadataFirst(metadata, rows, emptySha);
    var plan, members := Setup(Inventory(metadata, rows), nameOk, rootDepth);
    if plan.None? { return None; }
    var copier := new Copier(digest);
    r := copier.Collect(plan.value, d, source, target);
  }
}
